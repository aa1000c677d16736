/**
 Pairing of interface endpoints. `topo[n][i]` is the node that interface i of node n is cabled
 to; the initialisation works out which interface of that node is the other end.
 */
module IfTopology {
  import opened Axiom

  type Row = r: seq<nat> | |r| == INTERFACES_NUM witness [0, 0, 0, 0, 0]
  type Matrix = m: seq<seq<nat>> | |m| == NODES_NUM && forall a :: 0 <= a < |m| ==> |m[a]| == INTERFACES_NUM
    witness seq(NODES_NUM, _ => [0, 0, 0, 0, 0])

  /** How many interfaces before x lead to node p. */
  function Rank(row: Row, p: nat, x: nat): nat
    requires x <= INTERFACES_NUM
  {
    if x == 0 then 0 else Rank(row, p, x - 1) + if row[x - 1] == p then 1 else 0
  }

  function Total(row: Row, p: nat): nat { Rank(row, p, INTERFACES_NUM) }

  /** Every cable is listed at both ends, to nodes of the network. 255 means not connected. */
  ghost predicate Cabled(topo: Matrix, nodes: int) {
    forall a, x :: 0 <= a < nodes <= NULL_NODE && 0 <= x < INTERFACES_NUM ==>
      topo[a][x] < nodes || topo[a][x] == NULL_NODE
  }

  ghost predicate Symmetric(topo: Matrix, nodes: int) {
    forall a, b :: 0 <= a < nodes <= NULL_NODE && 0 <= b < nodes ==> Total(topo[a], b) == Total(topo[b], a)
  }

  lemma {:induction false} RankMonotone(row: Row, p: nat, x: nat, y: nat)
    requires x <= y <= INTERFACES_NUM
    ensures Rank(row, p, x) <= Rank(row, p, y)
    ensures x < y && row[x] == p ==> Rank(row, p, x) < Rank(row, p, y)
    decreases y
  {
    if x < y { RankMonotone(row, p, x, y - 1); }
  }

  /** The k-th interface towards p, counting from 0, among those before x. */
  function Kth(row: Row, p: nat, k: nat, x: nat): (y: nat)
    requires x <= INTERFACES_NUM
    ensures y < x ==> row[y] == p && Rank(row, p, y) == k
    ensures y >= x ==> y == INTERFACES_NUM
  {
    if x == 0 then INTERFACES_NUM
    else if row[x - 1] == p && Rank(row, p, x - 1) == k then x - 1
    else Kth(row, p, k, x - 1)
  }

  lemma {:induction false} KthExists(row: Row, p: nat, k: nat, x: nat)
    requires x <= INTERFACES_NUM && k < Rank(row, p, x)
    ensures Kth(row, p, k, x) < x
    decreases x
  {
    if k < Rank(row, p, x - 1) { KthExists(row, p, k, x - 1); }
  }

  /** The other end of the cable at interface x of node a: same position in the list back. */
  function Mate(topo: Matrix, a: nat, x: nat): nat
    requires a < NODES_NUM && x < INTERFACES_NUM && topo[a][x] < NODES_NUM
  {
    Kth(topo[topo[a][x]], a, Rank(topo[a], topo[a][x], x), INTERFACES_NUM)
  }

  ghost predicate Connected(topo: Matrix, nodes: int, a: nat, x: nat) {
    a < nodes <= NULL_NODE && x < INTERFACES_NUM && topo[a][x] < nodes
  }

  /** The k-th interface of n towards p has the k-th of p towards n as mate, and the other way round. */
  lemma MateIsMutual(topo: Matrix, nodes: int, a: nat, x: nat)
    requires Symmetric(topo, nodes) && Connected(topo, nodes, a, x)
    ensures var b, y := topo[a][x], Mate(topo, a, x);
            && y < INTERFACES_NUM && topo[b][y] == a && Rank(topo[b], a, y) == Rank(topo[a], b, x)
            && Mate(topo, b, y) == x
  {
    var b := topo[a][x];
    var k := Rank(topo[a], b, x);
    RankMonotone(topo[a], b, x, INTERFACES_NUM);
    KthExists(topo[b], a, k, INTERFACES_NUM);
    KthExists(topo[a], b, k, INTERFACES_NUM);
    SameRank(topo[a], b, x, Kth(topo[a], b, k, INTERFACES_NUM));
  }

  lemma SameRank(row: Row, p: nat, x: nat, y: nat)
    requires x < INTERFACES_NUM && y < INTERFACES_NUM && row[x] == p == row[y] && Rank(row, p, x) == Rank(row, p, y)
    ensures x == y
  {
    if x < y { RankMonotone(row, p, x, y); }
    if y < x { RankMonotone(row, p, y, x); }
  }

  // ---------------------------------------------------------------- the loops

  ghost predicate Before(a: nat, x: nat, n: nat, i: nat) { a < n || (a == n && x < i) }

  /** The cable at (a, x) has been seen from one of its ends before (n, i). */
  ghost predicate Done(topo: Matrix, nodes: int, a: nat, x: nat, n: nat, i: nat)
    requires Connected(topo, nodes, a, x)
  {
    Before(a, x, n, i) || Before(topo[a][x], Mate(topo, a, x), n, i)
  }

  ghost function Entry(topo: Matrix, nodes: int, a: nat, x: nat, n: nat, i: nat): nat
    requires a < NODES_NUM && x < INTERFACES_NUM
  {
    if Connected(topo, nodes, a, x) && Done(topo, nodes, a, x, n, i) then Mate(topo, a, x) else NULL_NODE
  }

  /** What the matrix holds when interface i of node n is about to be looked at. */
  ghost predicate Progress(topo: Matrix, nodes: int, m: array2<nat>, n: nat, i: nat)
    requires m.Length0 == NODES_NUM && m.Length1 == INTERFACES_NUM
    reads m
  {
    forall a: nat, x: nat :: a < nodes && x < INTERFACES_NUM && a < NODES_NUM ==>
      m[a, x] == Entry(topo, nodes, a, x, n, i)
  }

  /** An end still unset points to (n, i) or later: the first one is the mate of (n, i). */
  lemma UnsetEnds(topo: Matrix, nodes: int, n: nat, i: nat, j: nat)
    requires Symmetric(topo, nodes) && Connected(topo, nodes, n, i)
    requires j < INTERFACES_NUM && topo[topo[n][i]][j] == n
    ensures var p := topo[n][i];
            Done(topo, nodes, p, j, n, i) <==> p < n || j < Mate(topo, n, i)
  {
    var p, y := topo[n][i], Mate(topo, n, i);
    MateIsMutual(topo, nodes, n, i);
    MateIsMutual(topo, nodes, p, j);
    var z := Mate(topo, p, j);
    if j < y { RankMonotone(topo[p], n, j, y); }
    if y < j { RankMonotone(topo[p], n, y, j); }
    if z < i { RankMonotone(topo[n], p, z, i); }
    if i < z { RankMonotone(topo[n], p, i, z); }
    if j == y { assert z == i; }
  }

  /** Passing (n, i) settles that interface and its mate and nothing else. */
  lemma DoneGrows(topo: Matrix, nodes: int, n: nat, i: nat, a: nat, x: nat)
    requires Symmetric(topo, nodes) && n < nodes && i < INTERFACES_NUM && Connected(topo, nodes, a, x)
    ensures Done(topo, nodes, a, x, n, i + 1) <==>
              || Done(topo, nodes, a, x, n, i) || (a == n && x == i)
              || (Connected(topo, nodes, n, i) && a == topo[n][i] && x == Mate(topo, n, i))
  {
    MateIsMutual(topo, nodes, a, x);
    if Connected(topo, nodes, n, i) { MateIsMutual(topo, nodes, n, i); }
  }

  /** A network whose cables are all listed at both ends; node 255 cannot be part of it. */
  ghost predicate Good(topo: Matrix, nodes: int) {
    Cabled(topo, nodes) && Symmetric(topo, nodes) && nodes <= NULL_NODE
  }

  method ClearRows(nodes: int, m: array2<nat>)
    requires nodes <= NODES_NUM && m.Length0 == NODES_NUM && m.Length1 == INTERFACES_NUM
    modifies m
    ensures forall a: nat, x: nat :: a < nodes && x < INTERFACES_NUM ==> m[a, x] == NULL_NODE
  {
    var n := 0;
    while n < nodes
      invariant 0 <= n <= NODES_NUM
      invariant forall a: nat, x: nat :: a < n && x < INTERFACES_NUM ==> m[a, x] == NULL_NODE
    {
      var i := 0;
      while i < INTERFACES_NUM
        invariant 0 <= i <= INTERFACES_NUM
        invariant forall a: nat, x: nat :: a < n && x < INTERFACES_NUM ==> m[a, x] == NULL_NODE
        invariant forall x: nat :: x < i ==> m[n, x] == NULL_NODE
      {
        m[n, i] := NULL_NODE;
        i := i + 1;
      }
      n := n + 1;
    }
  }

  /** The matrix an array of the right shape holds. */
  ghost function Rows(m: array2<nat>): (f: Matrix)
    requires m.Length0 == NODES_NUM && m.Length1 == INTERFACES_NUM
    reads m
  {
    seq(NODES_NUM, a requires 0 <= a < NODES_NUM reads m =>
      seq(INTERFACES_NUM, x requires 0 <= x < INTERFACES_NUM reads m => m[a, x]))
  }

  /**
   `axsw_if_topology_init`: each interface of a good network gets its mate, and what is left in
   the array is a perfect pairing exactly when the cabling is symmetric.
   */
  method IfTopologyInit(topo: Matrix, nodes: int, m: array2<nat>)
    requires nodes <= NODES_NUM && m.Length0 == NODES_NUM && m.Length1 == INTERFACES_NUM
    requires forall a, x :: 0 <= a < NODES_NUM && 0 <= x < INTERFACES_NUM ==> topo[a][x] < NODES_NUM
    modifies m
    ensures Good(topo, nodes) ==>
              forall a: nat, x: nat :: a < nodes && x < INTERFACES_NUM ==>
                m[a, x] == if topo[a][x] == NULL_NODE then NULL_NODE else Mate(topo, a, x)
    ensures Cabled(topo, nodes) && nodes <= NULL_NODE ==>
              (PerfectPairing(topo, nodes, Rows(m)) <==> Symmetric(topo, nodes))
  {
    ClearRows(nodes, m);
    var n := 0;
    while n < nodes
      invariant 0 <= n <= NODES_NUM
      invariant Good(topo, nodes) ==> Progress(topo, nodes, m, n, 0)
      invariant 0 <= nodes ==> n <= nodes
    {
      var i := 0;
      while i < INTERFACES_NUM
        invariant 0 <= i <= INTERFACES_NUM
        invariant Good(topo, nodes) ==> Progress(topo, nodes, m, n, i)
      {
        var p := topo[n][i];
        if p != NULL_NODE {
          PairOne(topo, nodes, m, n, i, p);
        } else if Good(topo, nodes) {
          NothingToPair(topo, nodes, m, n, i);
        }
        i := i + 1;
      }
      if Good(topo, nodes) {
        RowDone(topo, nodes, m, n);
      }
      n := n + 1;
    }
    if Cabled(topo, nodes) && nodes <= NULL_NODE {
      InitPerfectIff(topo, nodes, Rows(m));
    }
  }

  lemma RowDone(topo: Matrix, nodes: int, m: array2<nat>, n: nat)
    requires Good(topo, nodes) && n < nodes && m.Length0 == NODES_NUM && m.Length1 == INTERFACES_NUM
    requires Progress(topo, nodes, m, n, INTERFACES_NUM)
    ensures Progress(topo, nodes, m, n + 1, 0)
  {
    forall a: nat, x: nat | Connected(topo, nodes, a, x)
      ensures Done(topo, nodes, a, x, n + 1, 0) == Done(topo, nodes, a, x, n, INTERFACES_NUM)
    {
      MateIsMutual(topo, nodes, a, x);
    }
  }

  lemma NothingToPair(topo: Matrix, nodes: int, m: array2<nat>, n: nat, i: nat)
    requires Good(topo, nodes) && n < nodes && i < INTERFACES_NUM
    requires m.Length0 == NODES_NUM && m.Length1 == INTERFACES_NUM && topo[n][i] == NULL_NODE
    requires Progress(topo, nodes, m, n, i)
    ensures Progress(topo, nodes, m, n, i + 1)
  {}

  /** The search for the other end of interface i of node n, which is cabled to p. */
  method PairOne(topo: Matrix, nodes: int, m: array2<nat>, n: nat, i: nat, p: nat)
    requires n < nodes <= NODES_NUM && i < INTERFACES_NUM && p == topo[n][i] < NODES_NUM && p != NULL_NODE
    requires m.Length0 == NODES_NUM && m.Length1 == INTERFACES_NUM
    requires Good(topo, nodes) ==> Progress(topo, nodes, m, n, i)
    modifies m
    ensures Good(topo, nodes) ==> Progress(topo, nodes, m, n, i + 1)
  {
    ghost var good := Good(topo, nodes);
    if good {
      MateIsMutual(topo, nodes, n, i);
      forall j: nat | j < INTERFACES_NUM && topo[p][j] == n
        ensures Done(topo, nodes, p, j, n, i) <==> p < n || j < Mate(topo, n, i)
      {
        UnsetEnds(topo, nodes, n, i, j);
      }
      forall a: nat, x: nat | Connected(topo, nodes, a, x)
        ensures Done(topo, nodes, a, x, n, i + 1) <==>
                  Done(topo, nodes, a, x, n, i) || (a == n && x == i) || (a == p && x == Mate(topo, n, i))
      {
        DoneGrows(topo, nodes, n, i, a, x);
      }
    }
    var j := 0;
    while j < INTERFACES_NUM
      invariant 0 <= j <= INTERFACES_NUM
      invariant good ==> Progress(topo, nodes, m, n, i)
      invariant good && p >= n ==> j <= Mate(topo, n, i)
    {
      if topo[p][j] == n && m[p, j] == NULL_NODE {
        assert good ==> j == Mate(topo, n, i) && p >= n;
        m[n, i] := j;
        m[p, j] := i;
        return;
      }
      j := j + 1;
    }
    assert good ==> p < n;
  }

  // ---------------------------------------------------------------- what it means

  /** Every connected interface has an other end that lists the node back and has this one as its other end. */
  ghost predicate PerfectPairing(topo: Matrix, nodes: int, f: Matrix) {
    forall a: nat, x: nat :: Connected(topo, nodes, a, x) ==>
      var b, y := topo[a][x], f[a][x];
      y < INTERFACES_NUM && topo[b][y] == a && f[b][y] == x
  }

  lemma MatesArePerfect(topo: Matrix, nodes: int, f: Matrix)
    requires Good(topo, nodes)
    requires forall a: nat, x: nat :: Connected(topo, nodes, a, x) ==> f[a][x] == Mate(topo, a, x)
    ensures PerfectPairing(topo, nodes, f)
  {
    forall a: nat, x: nat | Connected(topo, nodes, a, x)
      ensures var b, y := topo[a][x], f[a][x]; y < INTERFACES_NUM && topo[b][y] == a && f[b][y] == x
    {
      MateIsMutual(topo, nodes, a, x);
      assert Connected(topo, nodes, topo[a][x], f[a][x]);
    }
  }

  /** The interfaces before x that lead to p. */
  function Ends(row: Row, p: nat, x: nat): set<nat>
    requires x <= INTERFACES_NUM
  {
    set y: nat | y < x && row[y] == p
  }

  lemma {:induction false} RankCounts(row: Row, p: nat, x: nat)
    requires x <= INTERFACES_NUM
    ensures |Ends(row, p, x)| == Rank(row, p, x)
  {
    if x > 0 {
      RankCounts(row, p, x - 1);
      assert Ends(row, p, x) == Ends(row, p, x - 1) + if row[x - 1] == p then {x - 1} else {};
    }
  }

  lemma {:induction false} InjectionCount(s: set<nat>, t: set<nat>, f: Row, g: Row)
    requires forall x :: x in s ==> x < INTERFACES_NUM && f[x] in t && f[x] < INTERFACES_NUM && g[f[x]] == x
    ensures |s| <= |t|
  {
    if s != {} {
      var x :| x in s;
      InjectionCount(s - {x}, t - {f[x]}, f, g);
    }
  }

  /** Symmetry is needed: a perfect pairing exists only if any two nodes list each other equally often. */
  lemma PerfectIffSymmetric(topo: Matrix, nodes: int)
    requires Cabled(topo, nodes) && nodes <= NULL_NODE
    ensures (exists f :: PerfectPairing(topo, nodes, f)) <==> Symmetric(topo, nodes)
  {
    if Symmetric(topo, nodes) {
      var f: Matrix := seq(NODES_NUM, a requires 0 <= a < NODES_NUM =>
        seq(INTERFACES_NUM, x requires 0 <= x < INTERFACES_NUM =>
          if topo[a][x] < NODES_NUM then Mate(topo, a, x) else 0));
      MatesArePerfect(topo, nodes, f);
    }
    if f :| PerfectPairing(topo, nodes, f) {
      forall a, b | 0 <= a < nodes && 0 <= b < nodes ensures Total(topo[a], b) <= Total(topo[b], a) {
        RankCounts(topo[a], b, INTERFACES_NUM);
        RankCounts(topo[b], a, INTERFACES_NUM);
        var s, t := Ends(topo[a], b, INTERFACES_NUM), Ends(topo[b], a, INTERFACES_NUM);
        forall x | x in s ensures f[a][x] in t && f[b][f[a][x]] == x {
          assert Connected(topo, nodes, a, x);
        }
        var fa: seq<nat>, fb: seq<nat> := f[a], f[b];
        InjectionCount(s, t, fa, fb);
      }
    }
  }

  /** Whatever the initialisation leaves is a perfect pairing exactly when the cabling is symmetric. */
  lemma InitPerfectIff(topo: Matrix, nodes: int, f: Matrix)
    requires Cabled(topo, nodes) && nodes <= NULL_NODE
    requires Good(topo, nodes) ==>
               forall a: nat, x: nat :: a < nodes && x < INTERFACES_NUM ==>
                 f[a][x] == if topo[a][x] == NULL_NODE then NULL_NODE else Mate(topo, a, x)
    ensures PerfectPairing(topo, nodes, f) <==> Symmetric(topo, nodes)
  {
    PerfectIffSymmetric(topo, nodes);
    if Symmetric(topo, nodes) { MatesArePerfect(topo, nodes, f); }
  }
}
