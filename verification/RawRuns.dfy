/**
 What RAW reception gets done: from every state it keeps, the kthread queues the message that is
 first in the FIFO, and a reader whose port has a message receives it.
 */
module RawRuns {
  import opened Axiom
  import opened SlotPool
  import opened RawReceive

  lemma RunCons(s: State, step: Step, rest: seq<Step>)
    requires Enabled(s, step) && IsRun(Next(s, step), rest)
    ensures IsRun(s, [step] + rest) && After(s, [step] + rest) == After(Next(s, step), rest)
  {
    assert ([step] + rest)[1..] == rest;
  }

  lemma Run1(s: State, a: Step)
    requires Enabled(s, a)
    ensures IsRun(s, [a]) && After(s, [a]) == Next(s, a)
  {
    RunCons(s, a, []);
    assert [a] == [a] + [];
  }

  lemma Run2(s: State, a: Step, b: Step)
    requires Enabled(s, a) && Enabled(Next(s, a), b)
    ensures IsRun(s, [a, b]) && After(s, [a, b]) == Next(Next(s, a), b)
  {
    Run1(Next(s, a), b);
    RunCons(s, a, [b]);
    assert [a, b] == [a] + [b];
  }

  lemma Run3(s: State, a: Step, b: Step, c: Step)
    requires Enabled(s, a) && Enabled(Next(s, a), b) && Enabled(Next(Next(s, a), b), c)
    ensures IsRun(s, [a, b, c]) && After(s, [a, b, c]) == Next(Next(Next(s, a), b), c)
  {
    Run2(Next(s, a), b, c);
    RunCons(s, a, [b, c]);
    assert [a, b, c] == [a] + [b, c];
  }

  // ---------------------------------------------------------------- readers

  /** The step by which thread t gets port p's mutex for a receive. */
  ghost predicate Starts(s: State, t: nat, p: nat, first: Step) {
    && Enabled(s, first)
    && (first == Lock(t, p) || (first == Retry(t) && s.threads[t] == Blocked(p)))
  }

  /** A reader, at its first try or after it was blocked, receives the first message of its port. */
  lemma ReaderReceives(s: State, t: nat, p: nat, first: Step)
    requires Starts(s, t, p, first) && p < PORT_NUM && s.pool.queues[p] != []
    ensures IsRun(s, [first, Check(t), Take(t)])
    ensures var e, x := After(s, [first, Check(t), Take(t)]), s.pool.queues[p][0];
            && e.threads == s.threads[t := Reading(p, x, s.desc[x])] && e.pool == s.pool.Dequeue(p)
            && e.served == s.served[p := s.served[p] + [s.desc[x]]] && e.mutex == s.mutex
            && e.desc == s.desc && e.fifo == s.fifo && e.k == s.k
  {
    Locks(s, t, p, first);
    var l := Next(s, first);
    CheckSees(l, t, p);
    assert s.mutex[p := Some(t)][p := None] == s.mutex;
    assert s.threads[t := Locked(p)][t := Checked(p)][t := Reading(p, s.pool.queues[p][0], s.desc[s.pool.queues[p][0]])]
        == s.threads[t := Reading(p, s.pool.queues[p][0], s.desc[s.pool.queues[p][0]])];
    hide Sized, Starts;
    Run3(s, first, Check(t), Take(t));
  }

  lemma Locks(s: State, t: nat, p: nat, first: Step)
    requires Starts(s, t, p, first) && p < PORT_NUM
    ensures Next(s, first) == s.(threads := s.threads[t := Locked(p)], mutex := s.mutex[p := Some(t)])
    ensures t < |s.threads| && s.mutex[p] == None && Sized(Next(s, first)) && Enabled(Next(s, first), Check(t))
  {}

  lemma CheckSees(l: State, t: nat, p: nat)
    requires Enabled(l, Check(t)) && l.threads[t] == Locked(p)
    ensures var c := Next(l, Check(t));
            && Sized(c) && t < |c.threads|
            && c == if l.pool.queues[p] != [] then l.(threads := l.threads[t := Checked(p)])
                    else l.(threads := l.threads[t := Blocked(p)], mutex := l.mutex[p := None])
  {}

  /** Without a message it blocks and leaves the mutex, and a signal sends it back. */
  lemma ReaderBlocks(s: State, t: nat, p: nat, first: Step)
    requires Starts(s, t, p, first) && p < PORT_NUM && s.pool.queues[p] == []
    ensures IsRun(s, [first, Check(t)]) && IsRun(s, [first, Check(t), GiveUp(t)])
    ensures After(s, [first, Check(t)]) == s.(threads := s.threads[t := Blocked(p)])
    ensures After(s, [first, Check(t), GiveUp(t)]) == s.(threads := s.threads[t := Idle])
  {
    Locks(s, t, p, first);
    var l := Next(s, first);
    CheckSees(l, t, p);
    assert s.mutex[p := Some(t)][p := None] == s.mutex;
    assert s.threads[t := Locked(p)][t := Blocked(p)] == s.threads[t := Blocked(p)];
    assert s.threads[t := Blocked(p)][t := Idle] == s.threads[t := Idle];
    hide Sized, Starts;
    Run2(s, first, Check(t));
    Run3(s, first, Check(t), GiveUp(t));
  }

  /** Done with its message it frees the slot; if that was the only free one it wakes the kthread. */
  lemma ReaderReturns(s: State, t: nat)
    requires Sized(s) && t < |s.threads| && s.threads[t].Reading?
    ensures s.pool.free != [] ==>
              && IsRun(s, [GiveBack(t)])
              && After(s, [GiveBack(t)]) ==
                 s.(threads := s.threads[t := Idle], pool := s.pool.PushFree(s.threads[t].slot))
    ensures s.pool.free == [] ==>
              && IsRun(s, [GiveBack(t), CountUp(t), WakeUp(t)])
              && After(s, [GiveBack(t), CountUp(t), WakeUp(t)]) ==
                 Told(s.(threads := s.threads[t := Idle], pool := s.pool.PushFree(s.threads[t].slot)))
  {
    assert Sized(GiveSlotBack(s, t, s.threads[t].slot));
    hide Sized;
    if s.pool.free != [] { Run1(s, GiveBack(t)); } else { ThenWakes(s, t, GiveBack(t)); }
  }

  /** The kthread has been counted up and woken. */
  ghost function Told(s: State): State {
    s.(scheduled := (s.scheduled + 1) % 0x1_0000_0000, wakes := s.wakes + 1, woken := true)
  }

  lemma ThenWakes(s: State, t: nat, step: Step)
    requires Enabled(s, step) && Sized(Next(s, step))
    requires t < |Next(s, step).threads| && Next(s, step).threads[t] == MustCount
    ensures IsRun(s, [step, CountUp(t), WakeUp(t)])
    ensures var e := Next(s, step);
            After(s, [step, CountUp(t), WakeUp(t)]) == Told(e.(threads := e.threads[t := Idle]))
  {
    var e := Next(s, step);
    hide Sized;
    var c := Next(e, CountUp(t));
    assert Sized(c) by { SizedSame(e, c); }
    assert e.threads[t := MustWake][t := Idle] == e.threads[t := Idle];
    Run3(s, step, CountUp(t), WakeUp(t));
  }

  lemma SizedSame(s: State, s': State)
    requires Sized(s) && s'.desc == s.desc && s'.pool == s.pool && s'.mutex == s.mutex && s'.served == s.served
    ensures Sized(s')
  {}

  /** A flush empties the queue onto the free list, takes off all its messages and wakes the kthread. */
  lemma FlushRuns(s: State, t: nat, p: nat)
    requires Inv(s) && Enabled(s, FlushLock(t, p))
    ensures IsRun(s, [FlushLock(t, p), Flush(t)] + [CountUp(t), WakeUp(t)])
    ensures After(s, [FlushLock(t, p), Flush(t)] + [CountUp(t), WakeUp(t)]) ==
            Told(s.(threads := s.threads[t := Idle], pool := s.pool.Flush(p),
                    served := s.served[p := s.served[p] + Contents(s.desc, s.pool.queues[p])]))
  {
    assert s.pool.Wf();
    hide Inv;
    var l := Next(s, FlushLock(t, p));
    FlushSized(l, t, p);
    assert s.mutex[p := Some(t)][p := None] == s.mutex;
    assert s.threads[t := FlushLocked(p)][t := MustCount][t := Idle] == s.threads[t := Idle];
    hide Sized;
    ThenWakes(l, t, Flush(t));
    RunCons(s, FlushLock(t, p), [Flush(t), CountUp(t), WakeUp(t)]);
    assert [FlushLock(t, p), Flush(t)] + [CountUp(t), WakeUp(t)]
        == [FlushLock(t, p)] + [Flush(t), CountUp(t), WakeUp(t)];
  }

  lemma FlushSized(s: State, t: nat, p: nat)
    requires Sized(s) && s.pool.Wf() && p < PORT_NUM && t < |s.threads|
    ensures Sized(FlushPort(s, t, p))
  {
    FlushKeeps(s.pool, p);
  }

  /** For the ports that can be bound, messages leave only into readers' hands and by flushes. */
  lemma ServedExactly(s: State, step: Step, p: nat)
    requires Enabled(s, step) && p < PORT_NUM
    ensures |Next(s, step).served| == PORT_VALUES
    ensures Next(s, step).served[p] == s.served[p] +
              match step
              case Take(t) =>
                if s.threads[t].port == p && s.pool.queues[p] != [] then [s.desc[s.pool.queues[p][0]]] else []
              case Flush(t) => if s.threads[t].port == p then Contents(s.desc, s.pool.queues[p]) else []
              case _ => []
  {
    hide KNext, Contents;
    if step.Kthread? { KthreadServesNone(s, p); }
  }

  lemma KthreadServesNone(s: State, p: nat)
    requires Sized(s) && KEnabled(s) && p < PORT_NUM
    ensures |KNext(s).served| == PORT_VALUES && KNext(s).served[p] == s.served[p]
  {}

  // ---------------------------------------------------------------- the kthread

  /**
   With a message in the FIFO and a free slot the kthread, in four steps, puts the message into
   the slot that was first and the slot at the end of its port's queue; only for port 7 the slot
   is free again.
   */
  lemma KthreadQueues(s: State)
    requires Inv(s) && s.k.Loop? && s.WorkToDo()
    ensures IsRun(s, [Kthread, Kthread] + [Kthread, Kthread])
    ensures var e, x, msg := After(s, [Kthread, Kthread] + [Kthread, Kthread]), s.pool.free[0], s.fifo[0];
            && e.k.Loop? && e.fifo == s.fifo[1..] && e.desc == s.desc[x := msg] && e.threads == s.threads
            && msg.port <= 7
            && if msg.port < 7 then e.pool.free == s.pool.free[1..] && e.served == s.served
                                    && e.pool.queues == s.pool.queues[msg.port := s.pool.queues[msg.port] + [x]]
               else e.pool == s.pool && e.served == s.served[7 := s.served[7] + [msg]]
  {
    var a := KNext(s);
    WorkFacts(s);
    KthreadShape(s);
    hide Inv, Sized, KNext, KEnabled;
    Run2(KNext(a), Kthread, Kthread);
    RunCons(a, Kthread, [Kthread, Kthread]);
    RunCons(s, Kthread, [Kthread, Kthread, Kthread]);
    assert [Kthread, Kthread] + [Kthread, Kthread] == [Kthread] + [Kthread, Kthread, Kthread];
    assert [Kthread] + [Kthread, Kthread] == [Kthread, Kthread, Kthread];
  }

  lemma WorkFacts(s: State)
    requires Inv(s) && s.WorkToDo()
    ensures Sized(s) && s.pool.free[0] < |s.desc| && s.fifo[0].port < PORT_VALUES
  {}

  lemma KthreadShape(s: State)
    requires Sized(s) && s.k.Loop? && s.WorkToDo() && s.pool.free[0] < |s.desc| && s.fifo[0].port < PORT_VALUES
    ensures KEnabled(s)
    ensures var a := KNext(s);
            && Sized(a) && KEnabled(a) && Sized(KNext(a)) && KEnabled(KNext(a))
            && var f := KNext(KNext(a));
               && Sized(f) && KEnabled(f)
               && var e, x, msg := KNext(f), s.pool.free[0], s.fifo[0];
                  && e.k.Loop? && e.fifo == s.fifo[1..] && e.desc == s.desc[x := msg] && e.threads == s.threads
                  && if msg.port < 7 then e.pool.free == s.pool.free[1..] && e.served == s.served
                                          && e.pool.queues == s.pool.queues[msg.port := s.pool.queues[msg.port] + [x]]
                     else e.pool == s.pool && e.served == s.served[7 := s.served[7] + [msg]]
  {
    assert [s.pool.free[0]] + s.pool.free[1..] == s.pool.free;
  }

  // ---------------------------------------------------------------- interrupts

  function Interrupts(steps: seq<Step>): nat {
    if steps == [] then 0 else (if steps[0].Interrupt? then 1 else 0) + Interrupts(steps[1..])
  }

  /** Arrivals at an empty FIFO. */
  ghost function Raised(s: State, steps: seq<Step>): nat
    requires IsRun(s, steps)
    decreases |steps|
  {
    if steps == [] then 0
    else (if steps[0].Arrive? && s.fifo == [] then 1 else 0) + Raised(Next(s, steps[0]), steps[1..])
  }

  /** The handler clears what it handles: it runs at most once for each message that found the FIFO empty. */
  lemma {:induction false} InterruptsBounded(s: State, steps: seq<Step>)
    requires IsRun(s, steps)
    ensures Interrupts(steps) + (if After(s, steps).irq then 1 else 0) <= (if s.irq then 1 else 0) + Raised(s, steps)
    decreases |steps|
  {
    if steps != [] {
      IrqStep(s, steps[0]);
      hide Next, Enabled;
      InterruptsBounded(Next(s, steps[0]), steps[1..]);
    }
  }

  lemma IrqStep(s: State, step: Step)
    requires Enabled(s, step)
    ensures Next(s, step).irq == if step.Interrupt? then false else s.irq || (step.Arrive? && s.fifo == [])
    ensures step.Interrupt? ==> s.irq
  {}
}
