/** The routing table the driver caches and the one interface number per node the hardware has. */
module Routing {
  import opened Axiom

  /** AXIOMREG_ROUTING_NULL_IF */
  const NULL_IF: nat := 0xFF

  predicate IsZero(mask: Bits) { forall i :: 0 <= i < 8 ==> !mask[i] }

  /** `ffs(mask) - 1`, or 8 for the empty mask. */
  function Lowest(mask: Bits, from: nat := 0): (r: nat)
    requires from <= 8
    ensures from <= r <= 8 && (r < 8 ==> mask[r]) && forall i :: from <= i < r ==> !mask[i]
    decreases 8 - from
  {
    if from == 8 || mask[from] then from else Lowest(mask, from + 1)
  }

  /** `1 << n` narrowed to eight bits. */
  function OneBit(n: nat): Bits { seq(8, i => i == n) }

  /** A hardware entry that names one of the eight interfaces a mask can hold, or none. */
  predicate Sane(entry: nat) { entry < 8 || entry == NULL_IF }

  /** What the hardware stores for a mask, and the mask read back from it. */
  function Encode(mask: Bits): nat { if IsZero(mask) then NULL_IF else Lowest(mask) }
  function Decode(entry: nat): Bits { if entry == NULL_IF then seq(8, _ => false) else OneBit(entry) }

  /** Reading back keeps exactly the lowest set bit. */
  lemma ReadBack(mask: Bits)
    ensures Sane(Encode(mask))
    ensures IsZero(Decode(Encode(mask))) <==> IsZero(mask)
    ensures !IsZero(mask) ==> Lowest(mask) < 8 && Decode(Encode(mask)) == OneBit(Lowest(mask))
    ensures Lowest(Decode(Encode(mask))) == Lowest(mask)
  {
    if !IsZero(mask) {
      var n := Lowest(mask);
      assert OneBit(n)[n];
    }
  }

  class Device {
    const table: array<Bits>
    const hw: array<nat>
    ghost var touched: set<nat>

    /** For every node set or read, the cache is zero exactly for the null interface, if the entry is sane. */
    ghost predicate Valid()
      reads this, table, hw
    {
      && table.Length == hw.Length == NODES_NUM && (forall n :: n in touched ==> n < NODES_NUM)
      && forall n: nat :: n in touched ==> ((IsZero(table[n]) <==> hw[n] == NULL_IF) <==> Sane(hw[n]))
    }

    /** Probe: the cache is zeroed, the hardware has whatever `boot` says. */
    constructor (boot: seq<nat>)
      requires |boot| == NODES_NUM
      ensures Valid() && fresh(table) && fresh(hw) && touched == {} && hw[..] == boot
    {
      table := new Bits[NODES_NUM](_ => seq(8, _ => false));
      hw := new nat[NODES_NUM](i requires 0 <= i < |boot| => boot[i]);
      touched := {};
    }

    /** AXNET_SET_ROUTING */
    method SetRouting(node: nat, mask: Bits)
      requires Valid() && node < NODES_NUM
      modifies this, table, hw
      ensures Valid() && touched == old(touched) + {node}
      ensures table[node] == mask && hw[node] == Encode(mask)
      ensures forall n :: 0 <= n < NODES_NUM && n != node ==> table[n] == old(table[n]) && hw[n] == old(hw[n])
    {
      ReadBack(mask);
      hw[node] := if IsZero(mask) then NULL_IF else Lowest(mask);
      table[node] := mask;
      touched := touched + {node};
    }

    /** AXNET_GET_ROUTING, which also refreshes the cache. */
    method GetRouting(node: nat) returns (mask: Bits)
      requires Valid() && node < NODES_NUM
      modifies this, table
      ensures Valid() && touched == old(touched) + {node}
      ensures mask == Decode(hw[node]) == table[node]
      ensures (IsZero(mask) <==> hw[node] == NULL_IF) <==> Sane(hw[node])
      ensures forall n :: 0 <= n < NODES_NUM && n != node ==> table[n] == old(table[n])
    {
      mask := Decode(hw[node]);
      if hw[node] < 8 { assert mask[hw[node]]; }
      table[node] := mask;
      touched := touched + {node};
    }

    /** `axiom_next_hop`: the interface a packet to the node leaves by; None is an error return. */
    method NextHop(node: nat) returns (r: Option<nat>)
      requires Valid() && node < NODES_NUM
      modifies this, table
      ensures Valid()
      ensures r == if hw[node] < INTERFACES_NUM then Some(hw[node]) else None
    {
      var mask := GetRouting(node);
      assert hw[node] < 8 ==> mask[hw[node]];
      var i := 0;
      while i < INTERFACES_NUM
        invariant 0 <= i <= INTERFACES_NUM
        invariant forall j :: 0 <= j < i ==> !mask[j]
      {
        if mask[i] { return Some(i); }
        i := i + 1;
      }
      r := None;
    }
  }

  /** Setting a route and asking for the next hop gives the mask's lowest interface, if there is one below 5. */
  method SetThenNextHop(d: Device, node: nat, mask: Bits) returns (r: Option<nat>)
    requires d.Valid() && node < NODES_NUM
    modifies d, d.table, d.hw
    ensures d.Valid()
    ensures r == if Lowest(mask) < INTERFACES_NUM then Some(Lowest(mask)) else None
  {
    d.SetRouting(node, mask);
    ReadBack(mask);
    r := d.NextHop(node);
  }

  // ---------------------------------------------------------------- runs of requests

  datatype Request = Set(node: nat, mask: Bits) | Get(node: nat)

  /** A node's cached mask and hardware entry. */
  datatype Entry = Entry(cached: Bits, hw: nat)

  function Answer(e: Entry, n: nat, req: Request): Entry {
    if req.node != n then e
    else match req
      case Set(_, mask) => Entry(mask, Encode(mask))
      case Get(_) => e.(cached := Decode(e.hw))
  }

  function AnswerAll(e: Entry, n: nat, run: seq<Request>): Entry {
    if run == [] then e else Answer(AnswerAll(e, n, run[..|run| - 1]), n, run[|run| - 1])
  }

  /** Any sequence of SET and GET requests: every node ends where its own requests lead it. */
  method Serve(d: Device, run: seq<Request>)
    requires d.Valid() && forall i :: 0 <= i < |run| ==> run[i].node < NODES_NUM
    modifies d, d.table, d.hw
    ensures d.Valid() && d.touched == old(d.touched) + set req | req in run :: req.node
    ensures forall n :: 0 <= n < NODES_NUM ==>
              Entry(d.table[n], d.hw[n]) == AnswerAll(old(Entry(d.table[n], d.hw[n])), n, run)
  {
    for i := 0 to |run|
      invariant d.Valid() && d.touched == old(d.touched) + set req | req in run[..i] :: req.node
      invariant forall n :: 0 <= n < NODES_NUM ==>
                  Entry(d.table[n], d.hw[n]) == AnswerAll(old(Entry(d.table[n], d.hw[n])), n, run[..i])
    {
      assert run[..i + 1][..i] == run[..i] && run[..i + 1] == run[..i] + [run[i]];
      match run[i] {
        case Set(node, mask) => d.SetRouting(node, mask);
        case Get(node) => var _ := d.GetRouting(node);
      }
    }
    assert run[..|run|] == run;
  }

  /** The last SET for node n, if there is one. */
  function LastSet(n: nat, run: seq<Request>): Option<Bits> {
    if run == [] then None
    else if run[|run| - 1].Set? && run[|run| - 1].node == n then Some(run[|run| - 1].mask)
    else LastSet(n, run[..|run| - 1])
  }

  /** What was set last decides a node's route: reads change nothing, and neither do other nodes. */
  lemma {:induction false} LastSetWins(e: Entry, n: nat, run: seq<Request>)
    ensures AnswerAll(e, n, run).hw == if LastSet(n, run).Some? then Encode(LastSet(n, run).value) else e.hw
    ensures LastSet(n, run).Some? ==> Lowest(AnswerAll(e, n, run).cached) == Lowest(LastSet(n, run).value)
  {
    if run != [] {
      LastSetWins(e, n, run[..|run| - 1]);
      if LastSet(n, run).Some? { ReadBack(LastSet(n, run).value); }
    }
  }

  /** An entry that is not sane, such as 8, reads as the empty mask though it is not the null interface. */
  method ReadInsane(entry: nat) returns (d: Device)
    requires !Sane(entry)
    ensures !Sane(8) && d.Valid() && d.hw[0] == entry != NULL_IF && IsZero(d.table[0])
  {
    d := new Device(seq(NODES_NUM, _ => entry));
    var _ := d.GetRouting(0);
  }
}
