/**
 What the protocol gets done: from every state the protocol keeps, a send that finds what it
 needs goes through, and what it took comes back when the acknowledgement arrives.
 */
module RdmaRuns {
  import opened Axiom
  import opened SlotPool
  import opened RdmaProtocol

  lemma RunCons(s: State, step: Step, rest: seq<Step>)
    requires Enabled(s, step) && IsRun(Next(s, step), rest)
    ensures IsRun(s, [step] + rest) && After(s, [step] + rest) == After(Next(s, step), rest)
  {
    assert ([step] + rest)[1..] == rest;
  }

  lemma {:induction false} RunAppend(s: State, a: seq<Step>, b: seq<Step>)
    requires IsRun(s, a) && IsRun(After(s, a), b)
    ensures IsRun(s, a + b) && After(s, a + b) == After(After(s, a), b)
    decreases |a|
  {
    hide Next, Enabled;
    if a == [] {
      assert a + b == b;
    } else {
      RunAppend(Next(s, a[0]), a[1..], b);
      RunCons(s, a[0], a[1..] + b);
      assert a + b == [a[0]] + (a[1..] + b);
    }
  }

  lemma Run3(s: State, a: Step, b: Step, c: Step)
    requires Enabled(s, a) && Enabled(Next(s, a), b) && Enabled(Next(Next(s, a), b), c)
    ensures IsRun(s, [a, b, c]) && After(s, [a, b, c]) == Next(Next(Next(s, a), b), c)
  {
    var s2 := Next(Next(s, a), b);
    RunCons(s2, c, []);
    RunCons(Next(s, a), b, [c]);
    RunCons(s, a, [b, c]);
    assert [c] == [c] + [] && [b, c] == [b] + [c] && [a, b, c] == [a] + [b, c];
  }

  lemma Run1(s: State, a: Step)
    requires Enabled(s, a)
    ensures IsRun(s, [a]) && After(s, [a]) == Next(s, a)
  {
    RunCons(s, a, []);
    assert [a] == [a] + [];
  }

  lemma Run2(s: State, a: Step, b: Step)
    requires Enabled(s, a) && Enabled(Next(s, a), b)
    ensures IsRun(s, [a, b]) && After(s, [a, b]) == Next(Next(s, a), b)
  {
    Run1(Next(s, a), b);
    RunCons(s, a, [b]);
    assert [a, b] == [a] + [b];
  }

  // ---------------------------------------------------------------- taking a buffer and a slot

  /** Thread t has the LONG buffer that was first in the free list. */
  ghost function BufTaken(s: State, t: nat): State
    requires t < |s.threads| && s.long.free != []
  {
    Goto(s, t, LongHeld(s.long.free[0])).(long := s.long.PopFree(), longMutex := None)
  }

  /** A LONG sender, at its first try or after it was blocked, gets the first free buffer. */
  lemma TakesBuf(s: State, t: nat, first: Step)
    requires Enabled(s, first) && (first == LongCall(t) || first == LongRetry(t)) && s.long.free != []
    ensures IsRun(s, [first, LongCheck(t), LongPop(t)]) && After(s, [first, LongCheck(t), LongPop(t)]) == BufTaken(s, t)
  {
    assert Goto(Goto(Goto(s, t, LongLocked), t, LongChecked), t, LongHeld(s.long.free[0])).threads
        == Goto(s, t, LongHeld(s.long.free[0])).threads;
    Run3(s, first, LongCheck(t), LongPop(t));
  }

  ghost function SlotTaken(s: State, t: nat, call: Call): State
    requires t < |s.threads| && s.rdma.free != []
  {
    Goto(s, t, TxHeld(call, s.rdma.free[0])).(rdma := s.rdma.PopFree(), rdmaMutex := None)
  }

  /** The step by which thread t gets the RDMA mutex for the call. */
  ghost predicate Starts(s: State, t: nat, first: Step, call: Call) {
    && Enabled(s, first)
    && match first
       case TxCall(u, async) => u == t && call == if async then Async else Sync
       case TxRetry(u) => u == t && s.threads[t] == TxBlocked(call)
       case LongSubmit(u) => u == t && call.Long? && s.threads[t] == LongHeld(call.buf)
       case _ => false
  }

  /** With a free slot and NIC space the sender gets the first free slot. */
  lemma TakesSlot(s: State, t: nat, first: Step, call: Call)
    requires Starts(s, t, first, call) && s.rdma.free != []
    ensures IsRun(s, [first, TxCheck(t, true), TxPop(t)])
    ensures After(s, [first, TxCheck(t, true), TxPop(t)]) == SlotTaken(s, t, call)
  {
    assert Next(s, first) == Goto(s, t, TxLocked(call)).(rdmaMutex := Some(t));
    assert Goto(Goto(Goto(s, t, TxLocked(call)), t, TxChecked(call)), t, TxHeld(call, s.rdma.free[0])).threads
        == Goto(s, t, TxHeld(call, s.rdma.free[0])).threads;
    Run3(s, first, TxCheck(t, true), TxPop(t));
  }

  /** Without a slot, or without NIC space, it does not, and leaves the mutex to the others. */
  lemma ChecksDecide(s: State, t: nat, hwSpace: bool)
    requires t < |s.threads|
    ensures s.threads[t].TxLocked? ==>
              var e := Next(s, TxCheck(t, hwSpace));
              && (Enabled(e, TxPop(t)) <==> hwSpace && s.rdma.free != [])
              && (Enabled(e, TxGiveUp(t)) <==> !(hwSpace && s.rdma.free != []))
              && (Enabled(e, TxGiveUp(t)) ==> e.rdmaMutex == None) && e.rdma == s.rdma
    ensures s.threads[t].LongLocked? ==>
              var e := Next(s, LongCheck(t));
              && (Enabled(e, LongPop(t)) <==> s.long.free != [])
              && (Enabled(e, LongGiveUp(t)) <==> s.long.free == [])
              && (Enabled(e, LongGiveUp(t)) ==> e.longMutex == None) && e.long == s.long
  {}

  // ---------------------------------------------------------------- whole sends

  function TxSteps(t: nat, async: bool, dst: nat): seq<Step> {
    [TxCall(t, async), TxCheck(t, true), TxPop(t)] + [Transmit(t, dst)]
  }

  function LongSteps(t: nat, dst: nat): seq<Step> {
    [LongCall(t), LongCheck(t), LongPop(t)] + SendSteps(t, dst)
  }

  /** Slot m, taken off the free list of s, has in e an operation for the call on its way to node dst. */
  ghost predicate Sent(s: State, e: State, m: nat, call: Call, dst: nat)
    requires m < |s.status| && s.rdma.free != []
  {
    && e.rdma == s.rdma.PopFree() && e.rdmaMutex == None
    && |e.status| == |e.completions| == |e.current| == |s.status|
    && e.status[m].dst == dst && e.status[m].retries == 0 && !e.status[m].ackReceived
    && e.status[m].queueSlot == m && e.status[m].callback == CallBuf(call) && (e.status[m].ackWaiting <==> call == Sync)
    && e.current[m] == |s.ops| && e.done == s.done
    && e.ops == s.ops + [Operation(m, s.status[m].counter, e.completions[m], dst, call)]
  }

  lemma SlotSent(s: State, t: nat, call: Call, dst: nat)
    requires Shape(s) && t < |s.threads| && s.rdma.free != [] && dst < NULL_NODE
    ensures s.rdma.free[0] < |s.status| && Enabled(SlotTaken(s, t, call), Transmit(t, dst))
    ensures var e := Next(SlotTaken(s, t, call), Transmit(t, dst));
            && Sent(s, e, s.rdma.free[0], call, dst) && e.long == s.long && e.longMutex == s.longMutex
            && e.threads == s.threads[t := if call.Sync? then Waiting(s.rdma.free[0]) else Idle]
  {
    var m := s.rdma.free[0];
    assert m < |s.status|;
    assert s.threads[t := TxHeld(call, m)][t := Idle] == s.threads[t := Idle];
    assert s.threads[t := TxHeld(call, m)][t := Waiting(m)] == s.threads[t := Waiting(m)];
  }

  /** From an idle thread, with a free slot, the mutex and NIC space, a send is transmitted. */
  lemma TxGoes(s: State, t: nat, async: bool, dst: nat)
    requires Inv(s) && Enabled(s, TxCall(t, async)) && s.rdma.free != [] && dst < NULL_NODE
    ensures IsRun(s, TxSteps(t, async, dst)) && s.rdma.free[0] < |s.status|
    ensures var e, m := After(s, TxSteps(t, async, dst)), s.rdma.free[0];
            && Sent(s, e, m, if async then Async else Sync, dst) && e.long == s.long && e.longMutex == s.longMutex
            && e.threads == s.threads[t := if async then Idle else Waiting(m)]
  {
    var call := if async then Async else Sync;
    assert Shape(s);
    TakesSlot(s, t, TxCall(t, async), call);
    SlotSent(s, t, call, dst);
    Run1(SlotTaken(s, t, call), Transmit(t, dst));
    RunAppend(s, [TxCall(t, async), TxCheck(t, true), TxPop(t)], [Transmit(t, dst)]);
  }

  /**
   From an idle thread, with both mutexes, a LONG buffer and a slot free and NIC space, a LONG
   send goes through: the slot that was first is in flight to the node and names the buffer that
   was first, and the thread is back.
   */
  lemma LongSendGoes(s: State, t: nat, dst: nat)
    requires Inv(s) && Enabled(s, LongCall(t)) && s.rdmaMutex == None && dst < NULL_NODE
    requires s.long.free != [] && s.rdma.free != []
    ensures IsRun(s, LongSteps(t, dst)) && s.rdma.free[0] < |s.status|
    ensures var e := After(s, LongSteps(t, dst));
            && Sent(s, e, s.rdma.free[0], Long(s.long.free[0]), dst)
            && e.long == s.long.PopFree() && e.longMutex == None && e.threads == s.threads
  {
    hide Sent, Starts;
    var b, h := s.long.free[0], BufTaken(s, t);
    assert Shape(h);
    hide Inv, Shape;
    TakesBuf(s, t, LongCall(t));
    SendsBuf(h, t, b, dst);
    SentSame(s, h, After(h, SendSteps(t, dst)), s.rdma.free[0], Long(b), dst);
    RunAppend(s, [LongCall(t), LongCheck(t), LongPop(t)], SendSteps(t, dst));
    assert s.threads[t := LongHeld(b)][t := Idle] == s.threads;
  }

  function SendSteps(t: nat, dst: nat): seq<Step> {
    [LongSubmit(t), TxCheck(t, true), TxPop(t)] + [Transmit(t, dst)]
  }

  /** The second half, from a thread with its buffer. */
  lemma SendsBuf(h: State, t: nat, b: nat, dst: nat)
    requires Shape(h) && t < |h.threads| && h.threads[t] == LongHeld(b) && h.rdmaMutex == None
    requires h.rdma.free != [] && dst < NULL_NODE
    ensures IsRun(h, SendSteps(t, dst)) && h.rdma.free[0] < |h.status|
    ensures var e := After(h, SendSteps(t, dst));
            && Sent(h, e, h.rdma.free[0], Long(b), dst) && e.long == h.long && e.longMutex == h.longMutex
            && e.threads == h.threads[t := Idle]
  {
    hide Shape, Sent;
    TakesSlot(h, t, LongSubmit(t), Long(b));
    SlotSent(h, t, Long(b), dst);
    Run1(SlotTaken(h, t, Long(b)), Transmit(t, dst));
    RunAppend(h, [LongSubmit(t), TxCheck(t, true), TxPop(t)], [Transmit(t, dst)]);
  }

  /** Taking the buffer first makes no difference to the slot. */
  lemma SentSame(s: State, h: State, e: State, m: nat, call: Call, dst: nat)
    requires m < |s.status| && s.rdma.free != [] && h.rdma == s.rdma && h.status == s.status
    requires h.ops == s.ops && h.done == s.done && Sent(h, e, m, call, dst)
    ensures Sent(s, e, m, call, dst)
  {}

  // ---------------------------------------------------------------- what was taken comes back

  ghost predicate IdleAgain(s: State, m: nat) {
    m < |s.status| && s.status[m].dst == 255 && !s.status[m].ackReceived
  }

  lemma TakenComesBack(p: Pool)
    requires p.free != []
    ensures p.PopFree().PushFree(p.free[0]) == p
  {
    assert [p.free[0]] + p.free[1..] == p.free;
  }

  /** The acknowledgement of a send nobody waits for puts slot, and LONG buffer, back in their places. */
  lemma AckPaysBack(s: State, e: State, call: Call, dst: nat)
    requires s.rdma.free != [] && s.rdma.free[0] < |s.status| && Sent(s, e, s.rdma.free[0], call, dst)
    requires dst < NULL_NODE && !call.Sync?
    requires if call.Long? then s.long.free != [] && s.long.free[0] == call.buf && e.long == s.long.PopFree()
             else e.long == s.long
    ensures Enabled(e, Ack(s.rdma.free[0], dst, false))
    ensures var f := Next(e, Ack(s.rdma.free[0], dst, false));
            f.rdma == s.rdma && f.long == s.long && |s.ops| in f.done && f.threads == e.threads
                && IdleAgain(f, s.rdma.free[0])
  {
    TakenComesBack(s.rdma);
    if call.Long? { TakenComesBack(s.long); }
  }

  /** A LONG send and its acknowledgement leave both free lists as they were. */
  lemma LongSendReturns(s: State, t: nat, dst: nat)
    requires Inv(s) && Enabled(s, LongCall(t)) && s.rdmaMutex == None && dst < NULL_NODE
    requires s.long.free != [] && s.rdma.free != []
    ensures IsRun(s, LongSteps(t, dst) + [Ack(s.rdma.free[0], dst, false)])
    ensures var f := After(s, LongSteps(t, dst) + [Ack(s.rdma.free[0], dst, false)]);
            f.rdma == s.rdma && f.long == s.long && |s.ops| in f.done && f.threads == s.threads
                && IdleAgain(f, s.rdma.free[0])
  {
    LongSendGoes(s, t, dst);
    var e := After(s, LongSteps(t, dst));
    AckPaysBack(s, e, Long(s.long.free[0]), dst);
    Run1(e, Ack(s.rdma.free[0], dst, false));
    RunAppend(s, LongSteps(t, dst), [Ack(s.rdma.free[0], dst, false)]);
  }

  /** So do an asynchronous send and its acknowledgement. */
  lemma AsyncSendReturns(s: State, t: nat, dst: nat)
    requires Inv(s) && Enabled(s, TxCall(t, true)) && s.rdma.free != [] && dst < NULL_NODE
    ensures IsRun(s, TxSteps(t, true, dst) + [Ack(s.rdma.free[0], dst, false)])
    ensures var f := After(s, TxSteps(t, true, dst) + [Ack(s.rdma.free[0], dst, false)]);
            f.rdma == s.rdma && f.long == s.long && |s.ops| in f.done && f.threads == s.threads
                && IdleAgain(f, s.rdma.free[0])
  {
    TxGoes(s, t, true, dst);
    var e := After(s, TxSteps(t, true, dst));
    AckPaysBack(s, e, Async, dst);
    Run1(e, Ack(s.rdma.free[0], dst, false));
    RunAppend(s, TxSteps(t, true, dst), [Ack(s.rdma.free[0], dst, false)]);
    assert s.threads[t := Idle] == s.threads;
  }

  /** A synchronous send, acknowledged, collected and released. */
  lemma SyncSendReturns(s: State, t: nat, dst: nat)
    requires Inv(s) && Enabled(s, TxCall(t, false)) && s.rdma.free != [] && dst < NULL_NODE
    ensures var steps := TxSteps(t, false, dst) + [Ack(s.rdma.free[0], dst, false), WakeAcked(t), Release(t)];
            && IsRun(s, steps)
            && var f := After(s, steps);
               f.rdma == s.rdma && f.long == s.long && |s.ops| in f.done && f.threads == s.threads
                && IdleAgain(f, s.rdma.free[0])
  {
    hide Inv, Sent, Shape, IdleAgain;
    var m := s.rdma.free[0];
    TxGoes(s, t, false, dst);
    var e := After(s, TxSteps(t, false, dst));
    WaiterCollects(s, e, t, dst);
    RunAppend(s, TxSteps(t, false, dst), [Ack(m, dst, false), WakeAcked(t), Release(t)]);
    assert s.threads[t := Waiting(m)][t := Idle] == s.threads;
  }

  lemma WaiterTold(s: State, e: State, dst: nat)
    requires s.rdma.free != [] && s.rdma.free[0] < |s.status| && Sent(s, e, s.rdma.free[0], Sync, dst)
    requires dst < NULL_NODE
    ensures var m := s.rdma.free[0];
            && Enabled(e, Ack(m, dst, false))
            && var a := Next(e, Ack(m, dst, false));
               && a.threads == e.threads && a.rdma == e.rdma == s.rdma.PopFree() && a.long == e.long
               && m < |a.status| && a.status[m].ackReceived && |s.ops| in a.done
  {}

  lemma WaiterCollects(s: State, e: State, t: nat, dst: nat)
    requires s.rdma.free != [] && s.rdma.free[0] < |s.status| && Sent(s, e, s.rdma.free[0], Sync, dst)
    requires t < |e.threads| && e.threads[t] == Waiting(s.rdma.free[0]) && dst < NULL_NODE
    ensures var steps := [Ack(s.rdma.free[0], dst, false), WakeAcked(t), Release(t)];
            && IsRun(e, steps)
            && var f := After(e, steps);
               f.rdma == s.rdma && f.long == e.long && |s.ops| in f.done && f.threads == e.threads[t := Idle]
                && IdleAgain(f, s.rdma.free[0])
  {
    var m := s.rdma.free[0];
    WaiterTold(s, e, dst);
    TakenComesBack(s.rdma);
    hide Sent;
    Run3(e, Ack(m, dst, false), WakeAcked(t), Release(t));
    assert e.threads[t := Releasing(m)][t := Idle] == e.threads[t := Idle];
  }

  lemma NobodyCollects(s: State, e: State, t: nat, dst: nat)
    requires s.rdma.free != [] && s.rdma.free[0] < |s.status| && Sent(s, e, s.rdma.free[0], Sync, dst)
    requires t < |e.threads| && e.threads[t] == Waiting(s.rdma.free[0]) && dst < NULL_NODE
    ensures var steps := [Interrupt(t), Ack(s.rdma.free[0], dst, false)];
            && IsRun(e, steps)
            && var f := After(e, steps);
               f.rdma == s.rdma && f.long == e.long && |s.ops| in f.done && f.threads == e.threads[t := Idle]
                && IdleAgain(f, s.rdma.free[0])
  {
    var m := s.rdma.free[0];
    var i := Next(e, Interrupt(t));
    assert i.status[m] == e.status[m].(ackWaiting := false) && i.rdma == e.rdma && i.ops == e.ops;
    TakenComesBack(s.rdma);
    Run2(e, Interrupt(t), Ack(m, dst, false));
  }

  /** One interrupted before the acknowledgement: the kthread gives the slot back. */
  lemma InterruptedSendReturns(s: State, t: nat, dst: nat)
    requires Inv(s) && Enabled(s, TxCall(t, false)) && s.rdma.free != [] && dst < NULL_NODE
    ensures var steps := TxSteps(t, false, dst) + [Interrupt(t), Ack(s.rdma.free[0], dst, false)];
            && IsRun(s, steps)
            && var f := After(s, steps);
               f.rdma == s.rdma && f.long == s.long && |s.ops| in f.done && f.threads == s.threads
                && IdleAgain(f, s.rdma.free[0])
  {
    hide Inv, Sent, Shape, IdleAgain;
    var m := s.rdma.free[0];
    TxGoes(s, t, false, dst);
    var e := After(s, TxSteps(t, false, dst));
    NobodyCollects(s, e, t, dst);
    RunAppend(s, TxSteps(t, false, dst), [Interrupt(t), Ack(m, dst, false)]);
    assert s.threads[t := Waiting(m)][t := Idle] == s.threads;
  }

  /** A LONG send that fails, by its own tests or when it is blocked for a slot, gives the buffer back. */
  lemma FailedSendReturns(s: State, t: nat, b: nat)
    requires t < |s.threads|
    ensures s.threads[t] == LongHeld(b) ==>
              IsRun(s, [LongReject(t), LongPush(t)]) && After(s, [LongReject(t), LongPush(t)]) == PushBuf(s, t, b)
    ensures s.threads[t] == TxBlocked(Long(b)) ==>
              IsRun(s, [TxGiveUp(t), LongPush(t)]) && After(s, [TxGiveUp(t), LongPush(t)]) == PushBuf(s, t, b)
    ensures s.threads[t] == LongBlocked ==>
              IsRun(s, [LongGiveUp(t)]) && After(s, [LongGiveUp(t)]) == Goto(s, t, Idle)
    ensures s.threads[t].TxBlocked? && !s.threads[t].call.Long? ==>
              IsRun(s, [TxGiveUp(t)]) && After(s, [TxGiveUp(t)]) == Goto(s, t, Idle)
  {
    assert s.threads[t := LongFailed(b)][t := Idle] == s.threads[t := Idle];
    match s.threads[t]
    case LongHeld(_) => Run2(s, LongReject(t), LongPush(t));
    case TxBlocked(call) => if call.Long? { Run2(s, TxGiveUp(t), LongPush(t)); } else { Run1(s, TxGiveUp(t)); }
    case LongBlocked => Run1(s, LongGiveUp(t));
    case _ =>
  }
}
