/** Order of LONG messages: per port, what arrived is what was taken, followed by what is on its way. */
module LongDelivery {
  import opened Axiom
  import opened SlotPool
  import opened LongLayout
  import opened LongReceive
  import opened LongProofs

  /** The machine with its history: all arrivals, and what readers and flushes took off each port's queue. */
  datatype World = World(s: State, arrived: seq<Header>, served: seq<seq<Header>>)

  function Start(threads: nat, rdmaSize: nat): World {
    World(Init(threads, rdmaSize), [], seq(PORT_NUM, _ => []))
  }

  predicate Possible(w: World, step: Step) {
    Enabled(w.s, step) && |w.served| == PORT_NUM
  }

  function Follow(w: World, step: Step): World
    requires Possible(w, step)
  {
    World(Next(w.s, step),
          if step.NicLong? then w.arrived + [step.header] else w.arrived,
          match step
          case Take(t) => Serve(w, w.s.threads[t].port, Taken(w.s, w.s.threads[t].port))
          case Flush(t) => Serve(w, w.s.threads[t].port, Flushed(w.s, w.s.threads[t].port))
          case _ => w.served)
  }

  function Serve(w: World, p: nat, hs: seq<Header>): seq<seq<Header>>
    requires p < |w.served|
  {
    w.served[p := w.served[p] + hs]
  }

  /** What a reader takes off the queue: its first message. */
  function Taken(s: State, p: nat): seq<Header>
    requires Sized(s) && p < PORT_NUM
  {
    if s.pool.queues[p] == [] then [] else [s.desc[s.pool.queues[p][0]]]
  }

  /** What a flush takes off: all of it, or as far as the first message whose buffer is not found. */
  function Flushed(s: State, p: nat): seq<Header>
    requires Sized(s) && p < PORT_NUM
    decreases |s.pool.queues[p]|
  {
    if s.pool.queues[p] == [] then []
    else
      var x := s.pool.queues[p][0];
      if s.BufOf(s.desc[x]).None? then [s.desc[x]]
      else [s.desc[x]] + Flushed(s.(pool := s.pool.Dequeue(p)), p)
  }

  ghost predicate IsHistory(w: World, steps: seq<Step>)
    decreases |steps|
  {
    steps == [] || (Possible(w, steps[0]) && IsHistory(Follow(w, steps[0]), steps[1..]))
  }

  ghost function End(w: World, steps: seq<Step>): World
    requires IsHistory(w, steps)
    decreases |steps|
  {
    if steps == [] then w else End(Follow(w, steps[0]), steps[1..])
  }

  // ---------------------------------------------------------------- what is on its way

  function OnPort(hs: seq<Header>, p: nat): seq<Header> {
    if hs == [] then []
    else if hs[0].long && hs[0].port == p then [hs[0]] + OnPort(hs[1..], p) else OnPort(hs[1..], p)
  }

  function Contents(desc: seq<Header>, q: seq<nat>): seq<Header>
    requires forall i :: 0 <= i < |q| ==> q[i] < |desc|
  {
    seq(|q|, i requires 0 <= i < |q| => desc[q[i]])
  }

  /** The message the kthread has taken off the FIFO and not yet placed. */
  function InHand(s: State, p: nat): seq<Header> {
    match s.k
    case KHas(h) => if h.port == p then [h] else []
    case KFilled(x) => if x < |s.desc| && s.desc[x].port == p then [s.desc[x]] else []
    case KIdle => []
  }

  ghost predicate Delivered(w: World, p: nat) {
    && Sized(w.s) && p < PORT_NUM == |w.served|
    && w.served[p] + Contents(w.s.desc, w.s.pool.queues[p]) + InHand(w.s, p) + OnPort(w.s.fifo, p)
       == OnPort(w.arrived, p)
  }

  // ---------------------------------------------------------------- every step delivers

  lemma {:induction false} OnPortAppend(a: seq<Header>, b: seq<Header>, p: nat)
    ensures OnPort(a + b, p) == OnPort(a, p) + OnPort(b, p)
  {
    if a == [] {
      assert a + b == b;
    } else {
      assert (a + b)[1..] == a[1..] + b;
      OnPortAppend(a[1..], b, p);
    }
  }

  lemma NicDelivers(w: World, step: Step, p: nat)
    requires Delivered(w, p) && Possible(w, step) && (step.NicLong? || step.NicOther?)
    ensures Delivered(Follow(w, step), p)
  {
    var h, before := step.header, w.served[p] + Contents(w.s.desc, w.s.pool.queues[p]) + InHand(w.s, p);
    OnPortAppend(w.s.fifo, [h], p);
    OnPortAppend(w.arrived, [h], p);
    assert step.NicOther? ==> OnPort([h], p) == [];
    assert before + (OnPort(w.s.fifo, p) + OnPort([h], p)) == (before + OnPort(w.s.fifo, p)) + OnPort([h], p);
  }

  /** The kthread takes a descriptor off the FIFO, and drops it if it is not LONG data. */
  lemma FetchDelivers(w: World, p: nat)
    requires Delivered(w, p) && Possible(w, Kthread) && w.s.k.KIdle?
    ensures Delivered(Follow(w, Kthread), p)
  {
    var h, e := w.s.fifo[0], Follow(w, Kthread);
    var before := w.served[p] + Contents(w.s.desc, w.s.pool.queues[p]);
    assert w.s.fifo == [h] + e.s.fifo;
    assert Contents(e.s.desc, e.s.pool.queues[p]) == Contents(w.s.desc, w.s.pool.queues[p]);
    if h.long && h.port == p {
      assert before + [] + ([h] + OnPort(e.s.fifo, p)) == before + [h] + OnPort(e.s.fifo, p);
    }
  }

  /** Filling a free slot changes the contents of no queue. */
  lemma FillDelivers(w: World, p: nat)
    requires Delivered(w, p) && w.s.pool.Wf() && w.s.pool.free != [] && Possible(w, Kthread) && w.s.k.KHas?
    ensures Delivered(Follow(w, Kthread), p)
  {
    var e, q, x := Follow(w, Kthread), w.s.pool.queues[p], w.s.pool.free[0];
    assert Apart(w.s.pool.free, q);
    assert x !in q;
    assert Contents(e.s.desc, q) == Contents(w.s.desc, q);
  }

  lemma PlaceDelivers(w: World, p: nat)
    requires Delivered(w, p) && Possible(w, Kthread) && w.s.k.KFilled? && Sized(Next(w.s, Kthread))
    ensures Delivered(Follow(w, Kthread), p)
  {
    var e, x := Follow(w, Kthread), w.s.k.slot;
    var h, q := w.s.desc[x], w.s.pool.queues[p];
    if h.port == p {
      assert e.s.pool.queues[p] == q + [x];
      assert Contents(e.s.desc, q + [x]) == Contents(w.s.desc, q) + [h];
      assert w.served[p] + Contents(w.s.desc, q) + [h] == w.served[p] + (Contents(w.s.desc, q) + [h]) + [];
    }
  }

  lemma TakeDelivers(w: World, t: nat, p: nat)
    requires Delivered(w, p) && Possible(w, Take(t)) && Sized(Next(w.s, Take(t)))
    ensures Delivered(Follow(w, Take(t)), p)
  {
    var e, r := Follow(w, Take(t)), w.s.threads[t].port;
    var q := w.s.pool.queues[p];
    if r == p && q != [] {
      assert Contents(w.s.desc, q) == [w.s.desc[q[0]]] + Contents(w.s.desc, q[1..]);
      assert w.served[p] + ([w.s.desc[q[0]]] + Contents(w.s.desc, q[1..])) == e.served[p] + Contents(w.s.desc, q[1..]);
    } else if r == p {
      assert e.served[p] == w.served[p];
    }
  }

  /** What a flush takes off and what it leaves make up the queue; it goes by the descriptors alone. */
  lemma {:induction false} FlushSplits(s: State, s': State, p: nat)
    requires Sized(s) && Sized(s') && p < PORT_NUM
    requires s'.pool.queues == s.pool.queues && s'.desc == s.desc && s'.rdmaSize == s.rdmaSize
    requires Sized(FlushPort(s', p))
    ensures var e := FlushPort(s', p);
            && e.desc == s.desc && e.k == s'.k && e.fifo == s'.fifo
            && Contents(s.desc, s.pool.queues[p]) == Flushed(s, p) + Contents(s.desc, e.pool.queues[p])
            && forall r :: 0 <= r < PORT_NUM && r != p ==> e.pool.queues[r] == s.pool.queues[r]
    decreases |s.pool.queues[p]|
  {
    var q := s.pool.queues[p];
    if q != [] {
      var x := q[0];
      assert Contents(s.desc, q) == [s.desc[x]] + Contents(s.desc, q[1..]);
      if s.BufOf(s.desc[x]).Some? {
        var b := s.BufOf(s.desc[x]).value;
        var armed := if b < BUFS then s'.armed[b := true] else s'.armed;
        var s1, s2 := s.(pool := s.pool.Dequeue(p)), s'.(pool := s'.pool.Dequeue(p).PushFree(x), armed := armed);
        FlushSplits(s1, s2, p);
        var rest := Contents(s.desc, FlushPort(s', p).pool.queues[p]);
        assert [s.desc[x]] + (Flushed(s1, p) + rest) == [s.desc[x]] + Flushed(s1, p) + rest;
      }
    }
  }

  lemma FlushDelivers(w: World, t: nat, p: nat)
    requires Delivered(w, p) && Possible(w, Flush(t)) && Sized(Next(w.s, Flush(t)))
    ensures Delivered(Follow(w, Flush(t)), p)
  {
    hide Flushed, FlushPort, OnPort, Contents;
    var e, r := Follow(w, Flush(t)), w.s.threads[t].port;
    FlushSplits(w.s, Unlocked(w.s, t, r), r);
    if r == p {
      var rest := Contents(w.s.desc, e.s.pool.queues[p]);
      assert w.served[p] + (Flushed(w.s, p) + rest) == w.served[p] + Flushed(w.s, p) + rest;
    }
  }

  lemma OtherDelivers(w: World, step: Step, p: nat)
    requires Delivered(w, p) && Possible(w, step) && Sized(Next(w.s, step))
    requires Quiet(step) || step.GiveBack? || step.Arm?
    ensures Delivered(Follow(w, step), p)
  {
    assert Next(w.s, step).pool.queues[p] == w.s.pool.queues[p];
  }

  lemma KthreadDelivers(w: World, p: nat)
    requires Inv(w.s) && Delivered(w, p) && Possible(w, Kthread) && Sized(Next(w.s, Kthread))
    ensures Delivered(Follow(w, Kthread), p)
  {
    hide Delivered;
    match w.s.k
    case KIdle => FetchDelivers(w, p);
    case KHas(_) =>
      var bown :| BufInv(w.s, bown);
      SlotLeft(w.s, bown);
      FillDelivers(w, p);
    case KFilled(_) => PlaceDelivers(w, p);
  }

  lemma StepDelivers(w: World, step: Step, p: nat)
    requires Inv(w.s) && Delivered(w, p) && Possible(w, step) && Sized(Next(w.s, step))
    ensures Delivered(Follow(w, step), p)
  {
    hide Inv, Delivered, Follow, Next, Sized;
    match step
    case NicLong(_, _) => NicDelivers(w, step, p);
    case NicOther(_) => NicDelivers(w, step, p);
    case Kthread => KthreadDelivers(w, p);
    case Take(t) => TakeDelivers(w, t, p);
    case Flush(t) => FlushDelivers(w, t, p);
    case _ => OtherDelivers(w, step, p);
  }

  lemma {:induction false} HistoryDelivers(w: World, steps: seq<Step>, p: nat)
    requires Inv(w.s) && Delivered(w, p) && IsHistory(w, steps)
    ensures Delivered(End(w, steps), p)
    decreases |steps|
  {
    if steps != [] {
      StepKeeps(w.s, steps[0]);
      assert Sized(Next(w.s, steps[0]));
      StepDelivers(w, steps[0], p);
      HistoryDelivers(Follow(w, steps[0]), steps[1..], p);
    }
  }

  /**
   LONG delivery, over every run: for each port, what readers and flushes took off its queue,
   followed by what is queued, in the kthread's hands and in the FIFO, is exactly the arrivals
   for that port in order.
   */
  lemma LongPortDelivery(threads: nat, rdmaSize: nat, steps: seq<Step>, p: nat)
    requires p < PORT_NUM && IsHistory(Start(threads, rdmaSize), steps)
    ensures var w := End(Start(threads, rdmaSize), steps);
            && Sized(w.s) && |w.served| == PORT_NUM
            && w.served[p] + Contents(w.s.desc, w.s.pool.queues[p]) + InHand(w.s, p) + OnPort(w.s.fifo, p)
               == OnPort(w.arrived, p)
  {
    var w := Start(threads, rdmaSize);
    InitInv(threads, rdmaSize);
    assert Contents(w.s.desc, w.s.pool.queues[p]) == [];
    HistoryDelivers(w, steps, p);
  }
}
