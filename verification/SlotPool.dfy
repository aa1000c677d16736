/**
 The value an `evi_queue_t` stands for: a LIFO free list and any number of FIFO queues
 over the slots 0..size-1. A slot on none of the lists is held by whoever removed it.
 The driver's protocol models work on these values; `EviQueue` implements them with
 links threaded through one shared array.
 */
module SlotPool {
  import opened Axiom

  ghost predicate NoDup<T>(s: seq<T>) {
    forall i, j :: 0 <= i < j < |s| ==> s[i] != s[j]
  }

  ghost predicate Apart<T>(s: seq<T>, t: seq<T>) {
    forall i, j :: 0 <= i < |s| && 0 <= j < |t| ==> s[i] != t[j]
  }

  ghost predicate Below(s: seq<nat>, n: nat) {
    forall i :: 0 <= i < |s| ==> s[i] < n
  }

  datatype Pool = Pool(size: nat, free: seq<nat>, queues: seq<seq<nat>>) {

    /** Every slot is on at most one list, and on that list once. */
    ghost predicate Wf() {
      && NoDup(free) && Below(free, size)
      && (forall q :: 0 <= q < |queues| ==>
            NoDup(queues[q]) && Below(queues[q], size) && Apart(free, queues[q]))
      && (forall q, r :: 0 <= q < r < |queues| ==> Apart(queues[q], queues[r]))
    }

    /** The slot is on no list. */
    ghost predicate Held(x: nat) {
      x < size && x !in free && forall q :: 0 <= q < |queues| ==> x !in queues[q]
    }

    function PopFree(): Pool
      requires free != []
    {
      this.(free := free[1..])
    }

    function PushFree(x: nat): Pool {
      this.(free := [x] + free)
    }

    function Enqueue(q: nat, x: nat): Pool
      requires q < |queues|
    {
      this.(queues := queues[q := queues[q] + [x]])
    }

    function Dequeue(q: nat): Pool
      requires q < |queues| && queues[q] != []
    {
      this.(queues := queues[q := queues[q][1..]])
    }

    /** Moves a whole queue to the free list, one slot at a time. */
    function Flush(q: nat): Pool
      requires q < |queues|
      decreases |queues[q]|
    {
      if queues[q] == [] then this else Dequeue(q).PushFree(queues[q][0]).Flush(q)
    }
  }

  /** The state after `eviq_init`: every slot free, lowest first, all queues empty. */
  function Fresh(queues: nat, size: nat): Pool {
    Pool(size, seq(size, i => i), seq(queues, _ => []))
  }

  lemma FreshIsWf(queues: nat, size: nat)
    ensures Fresh(queues, size).Wf()
    ensures forall x :: !Fresh(queues, size).Held(x)
  {
    var p := Fresh(queues, size);
    forall x: nat | x < size ensures x in p.free {
      assert p.free[x] == x;
    }
  }

  lemma PopFreeKeeps(p: Pool)
    requires p.Wf() && p.free != []
    ensures p.PopFree().Wf()
    ensures !p.Held(p.free[0]) && p.PopFree().Held(p.free[0])
    ensures forall x :: x != p.free[0] ==> (p.PopFree().Held(x) <==> p.Held(x))
  {}

  lemma PushFreeKeeps(p: Pool, y: nat)
    requires p.Wf() && p.Held(y)
    ensures p.PushFree(y).Wf()
    ensures !p.PushFree(y).Held(y)
    ensures forall x :: x != y ==> (p.PushFree(y).Held(x) <==> p.Held(x))
  {}

  lemma EnqueueKeeps(p: Pool, q: nat, y: nat)
    requires p.Wf() && p.Held(y) && q < |p.queues|
    ensures p.Enqueue(q, y).Wf()
    ensures !p.Enqueue(q, y).Held(y)
    ensures forall x :: x != y ==> (p.Enqueue(q, y).Held(x) <==> p.Held(x))
  {
    var p' := p.Enqueue(q, y);
    assert p'.queues[q] == p.queues[q] + [y];
    assert y in p'.queues[q];
    forall x, r | x != y && 0 <= r < |p.queues|
      ensures x in p'.queues[r] <==> x in p.queues[r]
    {}
    forall r | 0 <= r < |p.queues| ensures NoDup(p'.queues[r]) && Apart(p.free, p'.queues[r]) {}
    forall r, t | 0 <= r < t < |p.queues| ensures Apart(p'.queues[r], p'.queues[t]) {
      assert Apart(p.queues[r], p.queues[t]);
    }
  }

  lemma DequeueKeeps(p: Pool, q: nat)
    requires p.Wf() && q < |p.queues| && p.queues[q] != []
    ensures p.Dequeue(q).Wf()
    ensures !p.Held(p.queues[q][0]) && p.Dequeue(q).Held(p.queues[q][0])
    ensures forall x :: x != p.queues[q][0] ==> (p.Dequeue(q).Held(x) <==> p.Held(x))
  {
    var p', y := p.Dequeue(q), p.queues[q][0];
    assert p.queues[q] == [y] + p'.queues[q];
    assert y !in p'.queues[q];
    assert y !in p.free by { assert Apart(p.free, p.queues[q]); }
    forall r | 0 <= r < |p.queues| && r != q ensures y !in p.queues[r] {
      assert if r < q then Apart(p.queues[r], p.queues[q]) else Apart(p.queues[q], p.queues[r]);
    }
    forall x, r | x != y && 0 <= r < |p.queues|
      ensures x in p'.queues[r] <==> x in p.queues[r]
    {}
    forall r, t | 0 <= r < t < |p.queues| ensures Apart(p'.queues[r], p'.queues[t]) {
      assert Apart(p.queues[r], p.queues[t]);
    }
  }

  /** A flush empties its queue into the free list, newest slot first, and touches nothing else. */
  lemma {:induction false} FlushKeeps(p: Pool, q: nat)
    requires p.Wf() && q < |p.queues|
    ensures p.Flush(q).Wf()
    ensures forall x :: p.Flush(q).Held(x) <==> p.Held(x)
    ensures p.Flush(q).size == p.size && p.Flush(q).queues == p.queues[q := []]
    ensures p.Flush(q).free == Reversed(p.queues[q]) + p.free
    decreases |p.queues[q]|
  {
    if p.queues[q] == [] {
      assert p.queues[q := []] == p.queues;
      assert Reversed([]) + p.free == p.free;
    } else {
      var y, d := p.queues[q][0], p.Dequeue(q);
      DequeueKeeps(p, q);
      PushFreeKeeps(d, y);
      FlushKeeps(d.PushFree(y), q);
      assert d.queues[q := []] == p.queues[q := []];
      assert Reversed(d.queues[q]) + ([y] + p.free) == Reversed(p.queues[q]) + p.free;
    }
  }

  function Reversed<T>(s: seq<T>): seq<T> {
    if s == [] then [] else Reversed(s[1..]) + [s[0]]
  }

  function TotalQueued(queues: seq<seq<nat>>): nat {
    if queues == [] then 0 else |queues[0]| + TotalQueued(queues[1..])
  }

  ghost function HeldSet(p: Pool): set<nat> {
    set x: nat | x < p.size && p.Held(x)
  }

  function Elems<T>(s: seq<T>): set<T> { set x | x in s }

  lemma {:induction false} NoDupCount<T>(s: seq<T>)
    requires NoDup(s)
    ensures |Elems(s)| == |s|
  {
    if s != [] {
      NoDupCount(s[1..]);
      assert Elems(s) == {s[0]} + Elems(s[1..]);
    }
  }

  /** All slots of a pool of n. */
  function UpTo(n: nat): (all: set<nat>)
    ensures forall x: nat :: x in all <==> x < n
    ensures |all| == n
  {
    if n == 0 then {} else UpTo(n - 1) + {n - 1}
  }

  /** Were the first queue given up, its slots would be held. */
  lemma HeldWithoutQueue(p: Pool, x: nat)
    requires p.Wf() && p.queues != []
    ensures p.(queues := p.queues[1..]).Held(x) <==> x in p.queues[0] || p.Held(x)
    ensures !(x in p.queues[0] && p.Held(x))
  {}

  lemma HeldSetSplit(p: Pool)
    requires p.Wf() && p.queues != []
    ensures |HeldSet(p.(queues := p.queues[1..]))| == |p.queues[0]| + |HeldSet(p)|
  {
    var a, b, c := HeldSet(p.(queues := p.queues[1..])), Elems(p.queues[0]), HeldSet(p);
    forall x: nat ensures (x in a <==> x in b || x in c) && !(x in b && x in c) {
      HeldWithoutQueue(p, x);
    }
    NoDupCount(p.queues[0]);
    assert a == b + c && b !! c;
  }

  lemma ConservationNoQueues(p: Pool)
    requires p.Wf() && p.queues == []
    ensures |p.free| + |HeldSet(p)| == p.size
  {
    NoDupCount(p.free);
    assert UpTo(p.size) == Elems(p.free) + HeldSet(p);
  }

  lemma RestIsWf(p: Pool)
    requires p.Wf() && p.queues != []
    ensures p.(queues := p.queues[1..]).Wf()
  {}

  /** free + queued + held is always the number of slots. */
  lemma {:induction false} Conservation(p: Pool)
    requires p.Wf()
    ensures |p.free| + TotalQueued(p.queues) + |HeldSet(p)| == p.size
    decreases |p.queues|
  {
    if p.queues == [] {
      ConservationNoQueues(p);
    } else {
      RestIsWf(p);
      HeldSetSplit(p);
      Conservation(p.(queues := p.queues[1..]));
    }
  }

  /** An injective map of 0..n-1 into itself reaches every value. */
  lemma {:induction false} Pigeonhole(f: seq<nat>, y: nat)
    requires NoDup(f) && Below(f, |f|) && y < |f|
    ensures y in f
  {
    NoDupCount(f);
    var all := UpTo(|f|);
    assert Elems(f) <= all;
    if y !in f {
      assert Elems(f) <= all - {y};
      SubsetCount(Elems(f), all - {y});
      assert false;
    }
  }

  lemma {:induction false} SubsetCount<T>(a: set<T>, b: set<T>)
    requires a <= b
    ensures |a| <= |b|
  {
    assert b == a + (b - a);
    assert |b| == |a| + |b - a|;
  }

  /** The operations of a client that keeps to the rules: it only gives back what it holds. */
  datatype Op = Pop | Push(x: nat) | Enq(q: nat, x: nat) | Deq(q: nat)

  ghost predicate Legal(p: Pool, op: Op) {
    match op
    case Pop => true
    case Push(x) => p.Held(x)
    case Enq(q, x) => p.Held(x) && q < |p.queues|
    case Deq(q) => q < |p.queues|
  }

  /** One operation, with the slot it returns (None stands for EVIQ_NONE). */
  function Apply(p: Pool, op: Op): (Pool, Option<nat>)
    requires op.Enq? || op.Deq? ==> op.q < |p.queues|
  {
    match op
    case Pop => if p.free == [] then (p, None) else (p.PopFree(), Some(p.free[0]))
    case Push(x) => (p.PushFree(x), None)
    case Enq(q, x) => (p.Enqueue(q, x), None)
    case Deq(q) => if p.queues[q] == [] then (p, None) else (p.Dequeue(q), Some(p.queues[q][0]))
  }

  ghost predicate LegalRun(p: Pool, ops: seq<Op>)
    decreases |ops|
  {
    ops == [] || (Legal(p, ops[0]) && LegalRun(Apply(p, ops[0]).0, ops[1..]))
  }

  ghost function Run(p: Pool, ops: seq<Op>): Pool
    requires LegalRun(p, ops)
    decreases |ops|
  {
    if ops == [] then p else Run(Apply(p, ops[0]).0, ops[1..])
  }

  /** The slots put on queue q, and those taken off it, over a run. */
  ghost function Entered(p: Pool, ops: seq<Op>, q: nat): seq<nat>
    requires LegalRun(p, ops)
    decreases |ops|
  {
    if ops == [] then []
    else
      var rest := Entered(Apply(p, ops[0]).0, ops[1..], q);
      if ops[0].Enq? && ops[0].q == q then [ops[0].x] + rest else rest
  }

  ghost function Left(p: Pool, ops: seq<Op>, q: nat): seq<nat>
    requires LegalRun(p, ops)
    decreases |ops|
  {
    if ops == [] then []
    else
      var rest := Left(Apply(p, ops[0]).0, ops[1..], q);
      if ops[0].Deq? && ops[0].q == q && p.queues[q] != [] then [p.queues[q][0]] + rest else rest
  }

  lemma ApplyKeeps(p: Pool, op: Op)
    requires p.Wf() && Legal(p, op)
    ensures var p' := Apply(p, op).0;
            p'.Wf() && p'.size == p.size && |p'.queues| == |p.queues|
  {
    match op {
      case Pop => if p.free != [] { PopFreeKeeps(p); }
      case Push(x) => PushFreeKeeps(p, x);
      case Enq(q, x) => EnqueueKeeps(p, q, x);
      case Deq(q) => if p.queues[q] != [] { DequeueKeeps(p, q); }
    }
  }

  /** Over every run of legal operations each queue is served first in, first out. */
  lemma {:induction false} RunIsFifo(p: Pool, ops: seq<Op>, q: nat)
    requires LegalRun(p, ops) && q < |p.queues|
    ensures |Run(p, ops).queues| == |p.queues|
    ensures p.queues[q] + Entered(p, ops, q) == Left(p, ops, q) + Run(p, ops).queues[q]
    decreases |ops|
  {
    if ops != [] {
      var op, p' := ops[0], Apply(p, ops[0]).0;
      RunIsFifo(p', ops[1..], q);
      var e, l, r := Entered(p', ops[1..], q), Left(p', ops[1..], q), Run(p', ops[1..]).queues[q];
      if op.Enq? && op.q == q {
        assert p.queues[q] + ([op.x] + e) == p'.queues[q] + e;
      } else if op.Deq? && op.q == q && p.queues[q] != [] {
        assert p.queues[q] + e == [p.queues[q][0]] + (p'.queues[q] + e);
        assert [p.queues[q][0]] + (l + r) == ([p.queues[q][0]] + l) + r;
      }
    }
  }

  /** Every run of legal operations keeps all lists duplicate free and disjoint and conserves the slots. */
  lemma {:induction false} RunKeeps(p: Pool, ops: seq<Op>)
    requires p.Wf() && LegalRun(p, ops)
    ensures Run(p, ops).Wf() && Run(p, ops).size == p.size
    ensures |Run(p, ops).free| + TotalQueued(Run(p, ops).queues) + |HeldSet(Run(p, ops))| == p.size
    decreases |ops|
  {
    if ops == [] {
      Conservation(p);
    } else {
      ApplyKeeps(p, ops[0]);
      RunKeeps(Apply(p, ops[0]).0, ops[1..]);
    }
  }
}
