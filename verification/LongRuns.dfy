/**
 What LONG reception gets done: from every state it keeps, the kthread queues the message that is
 first in the FIFO, a reader whose port has a message receives it, and the buffer it was in is
 armed again.
 */
module LongRuns {
  import opened Axiom
  import opened LongLayout
  import opened LongReceive
  import opened LongProofs

  lemma RunCons(s: State, step: Step, rest: seq<Step>)
    requires Enabled(s, step) && IsRun(Next(s, step), rest)
    ensures IsRun(s, [step] + rest) && After(s, [step] + rest) == After(Next(s, step), rest)
  {
    assert ([step] + rest)[1..] == rest;
  }

  lemma Run1(s: State, a: Step)
    requires Enabled(s, a)
    ensures IsRun(s, [a]) && After(s, [a]) == Next(s, a)
  {
    RunCons(s, a, []);
    assert [a] == [a] + [];
  }

  lemma Run2(s: State, a: Step, b: Step)
    requires Enabled(s, a) && Enabled(Next(s, a), b)
    ensures IsRun(s, [a, b]) && After(s, [a, b]) == Next(Next(s, a), b)
  {
    Run1(Next(s, a), b);
    RunCons(s, a, [b]);
    assert [a, b] == [a] + [b];
  }

  lemma Run3(s: State, a: Step, b: Step, c: Step)
    requires Enabled(s, a) && Enabled(Next(s, a), b) && Enabled(Next(Next(s, a), b), c)
    ensures IsRun(s, [a, b, c]) && After(s, [a, b, c]) == Next(Next(Next(s, a), b), c)
  {
    Run2(Next(s, a), b, c);
    RunCons(s, a, [b, c]);
    assert [a, b, c] == [a] + [b, c];
  }

  // ---------------------------------------------------------------- readers

  /** The step by which thread t gets port p's mutex for a receive. */
  ghost predicate Starts(s: State, t: nat, p: nat, first: Step) {
    && Enabled(s, first)
    && (first == Lock(t, p) || (first == Retry(t) && s.threads[t] == Blocked(p)))
  }

  lemma Locks(s: State, t: nat, p: nat, first: Step)
    requires Starts(s, t, p, first) && p < PORT_NUM
    ensures Next(s, first) == s.(threads := s.threads[t := Locked(p)], mutex := s.mutex[p := Some(t)])
    ensures t < |s.threads| && s.mutex[p] == None && Sized(Next(s, first)) && Enabled(Next(s, first), Check(t))
  {}

  lemma CheckSees(l: State, t: nat, p: nat)
    requires Enabled(l, Check(t)) && l.threads[t] == Locked(p)
    ensures var c := Next(l, Check(t));
            && Sized(c) && t < |c.threads|
            && c == if l.pool.queues[p] != [] then l.(threads := l.threads[t := Checked(p)])
                    else l.(threads := l.threads[t := Blocked(p)], mutex := l.mutex[p := None])
  {}

  /** A reader, at its first try or after it was blocked, receives the first message of its port. */
  lemma ReaderReceives(s: State, t: nat, p: nat, first: Step)
    requires Starts(s, t, p, first) && p < PORT_NUM && s.pool.queues[p] != []
    ensures IsRun(s, [first, Check(t), Take(t)])
    ensures var x := s.pool.queues[p][0];
            After(s, [first, Check(t), Take(t)]) ==
            s.(threads := s.threads[t := Reading(x, s.desc[x])], pool := s.pool.Dequeue(p))
  {
    Locks(s, t, p, first);
    var l, x := Next(s, first), s.pool.queues[p][0];
    CheckSees(l, t, p);
    assert s.mutex[p := Some(t)][p := None] == s.mutex;
    var reading := Reading(x, s.desc[x]);
    assert s.threads[t := Locked(p)][t := Checked(p)][t := reading] == s.threads[t := reading];
    hide Sized, Starts;
    Run3(s, first, Check(t), Take(t));
  }

  /** Without a message it blocks and leaves the mutex, and a signal sends it back. */
  lemma ReaderBlocks(s: State, t: nat, p: nat, first: Step)
    requires Starts(s, t, p, first) && p < PORT_NUM && s.pool.queues[p] == []
    ensures IsRun(s, [first, Check(t)]) && IsRun(s, [first, Check(t), GiveUp(t)])
    ensures After(s, [first, Check(t)]) == s.(threads := s.threads[t := Blocked(p)])
    ensures After(s, [first, Check(t), GiveUp(t)]) == s.(threads := s.threads[t := Idle])
  {
    Locks(s, t, p, first);
    var l := Next(s, first);
    CheckSees(l, t, p);
    assert s.mutex[p := Some(t)][p := None] == s.mutex;
    assert s.threads[t := Locked(p)][t := Blocked(p)] == s.threads[t := Blocked(p)];
    assert s.threads[t := Blocked(p)][t := Idle] == s.threads[t := Idle];
    hide Sized, Starts;
    Run2(s, first, Check(t));
    Run3(s, first, Check(t), GiveUp(t));
  }

  /** Done with its message a reader frees the slot and then, if it found the buffer, arms it. */
  lemma ReaderReturns(s: State, t: nat)
    requires Sized(s) && t < |s.threads| && s.threads[t].Reading?
    requires s.BufOf(s.threads[t].header).Some? ==> s.BufOf(s.threads[t].header).value < BUFS
    ensures IsRun(s, [GiveBack(t)]) && After(s, [GiveBack(t)]).pool == s.pool.PushFree(s.threads[t].slot)
    ensures var found := s.BufOf(s.threads[t].header);
            if found.Some? then
              && IsRun(s, [GiveBack(t), Arm(t)])
              && After(s, [GiveBack(t), Arm(t)]) ==
                 s.(threads := s.threads[t := Idle], pool := s.pool.PushFree(s.threads[t].slot),
                    armed := s.armed[found.value := true])
            else After(s, [GiveBack(t)]).threads == s.threads[t := Idle] && After(s, [GiveBack(t)]).armed == s.armed
  {
    var g, found := Next(s, GiveBack(t)), s.BufOf(s.threads[t].header);
    assert Sized(g);
    hide Sized;
    Run1(s, GiveBack(t));
    if found.Some? {
      assert s.threads[t := Rearm(found.value)][t := Idle] == s.threads[t := Idle];
      Run2(s, GiveBack(t), Arm(t));
    }
  }

  /** A flush whose buffers are all found frees every queued slot and arms every buffer of the queue. */
  lemma FlushRuns(s: State, t: nat, p: nat)
    requires Enabled(s, FlushLock(t, p)) && forall x :: x in s.pool.queues[p] ==> FoundAt(s, x)
    ensures IsRun(s, [FlushLock(t, p), Flush(t)])
    ensures var e := After(s, [FlushLock(t, p), Flush(t)]);
            && e.pool == s.pool.Flush(p) && e.threads == s.threads[t := Idle] && e.mutex == s.mutex
            && e.desc == s.desc && e.fifo == s.fifo && e.k == s.k && ArmedBy(s, e, s.pool.queues[p])
  {
    var l := Next(s, FlushLock(t, p));
    var u := Unlocked(l, t, p);
    assert s.mutex[p := Some(t)][p := None] == s.mutex;
    assert s.threads[t := FlushLocked(p)][t := Idle] == s.threads[t := Idle];
    FlushFrees(u, p);
    ArmedSame(s, u, FlushPort(u, p), s.pool.queues[p]);
    Run2(s, FlushLock(t, p), Flush(t));
  }

  ghost predicate FoundAt(s: State, x: nat) {
    x < |s.desc| && s.BufOf(s.desc[x]).Some? && s.BufOf(s.desc[x]).value < BUFS
  }

  /** The buffers of the queue, and no others, have been armed. */
  ghost predicate ArmedBy(s: State, e: State, q: seq<nat>) {
    && |e.armed| == |s.armed| == BUFS
    && forall b :: 0 <= b < BUFS ==>
         (e.armed[b] <==> s.armed[b] || exists x :: x in q && FoundAt(s, x) && s.BufOf(s.desc[x]) == Some(b))
  }

  lemma ArmedSame(s: State, u: State, e: State, q: seq<nat>)
    requires ArmedBy(u, e, q) && u.desc == s.desc && u.rdmaSize == s.rdmaSize && u.armed == s.armed
    ensures ArmedBy(s, e, q)
  {
    assert forall x :: FoundAt(s, x) == FoundAt(u, x);
  }

  lemma {:induction false} FlushFrees(s: State, p: nat)
    requires Sized(s) && p < PORT_NUM && forall x :: x in s.pool.queues[p] ==> FoundAt(s, x)
    ensures var e := FlushPort(s, p);
            && e == s.(pool := s.pool.Flush(p), armed := e.armed) && ArmedBy(s, e, s.pool.queues[p])
    decreases |s.pool.queues[p]|
  {
    var q := s.pool.queues[p];
    if q != [] {
      var x := q[0];
      assert x in q && FoundAt(s, x) && forall y :: y in q[1..] ==> y in q;
      var b := s.BufOf(s.desc[x]).value;
      var s1 := s.(pool := s.pool.Dequeue(p).PushFree(x), armed := s.armed[b := true]);
      assert forall y :: FoundAt(s1, y) == FoundAt(s, y);
      FlushFrees(s1, p);
      ArmedCons(s, s1, FlushPort(s, p), q);
    }
  }

  lemma ArmedCons(s: State, s1: State, e: State, q: seq<nat>)
    requires q != [] && FoundAt(s, q[0]) && ArmedBy(s1, e, q[1..]) && |s.armed| == BUFS
    requires s1.desc == s.desc && s1.rdmaSize == s.rdmaSize
    requires s1.armed == s.armed[s.BufOf(s.desc[q[0]]).value := true]
    ensures ArmedBy(s, e, q)
  {
    assert forall y :: FoundAt(s1, y) == FoundAt(s, y);
    assert forall y :: y in q <==> y == q[0] || y in q[1..];
  }

  // ---------------------------------------------------------------- the kthread

  /**
   The kthread, in three steps, puts a LONG message into the slot that was first in the free list
   and the slot at the end of its port's queue; for a port above 6 the slot is free again.
   */
  lemma KthreadQueues(s: State)
    requires Inv(s) && s.k.KIdle? && s.fifo != [] && s.fifo[0].long
    ensures IsRun(s, [Kthread, Kthread, Kthread]) && s.pool.free != []
    ensures var e, x, h := After(s, [Kthread, Kthread, Kthread]), s.pool.free[0], s.fifo[0];
            && e.k == KIdle && e.fifo == s.fifo[1..] && e.desc == s.desc[x := h] && e.threads == s.threads
            && e.armed == s.armed
            && if h.port < 7 then e.pool.free == s.pool.free[1..] && e.discards == s.discards
                                  && e.pool.queues == s.pool.queues[h.port := s.pool.queues[h.port] + [x]]
               else e.pool == s.pool && e.discards == s.discards + 1
  {
    MessageFacts(s);
    hide Inv;
    KthreadShape(s);
    hide Sized, KNext;
    Run3(s, Kthread, Kthread, Kthread);
  }

  /** Fetching the message leaves a slot free for it. */
  lemma MessageFacts(s: State)
    requires Inv(s) && s.k.KIdle? && s.fifo != [] && s.fifo[0].long
    ensures Sized(s) && s.pool.free != [] && s.pool.free[0] < |s.desc|
  {
    StepKeeps(s, Kthread);
    var bown :| BufInv(Next(s, Kthread), bown);
    SlotLeft(Next(s, Kthread), bown);
  }

  lemma KthreadShape(s: State)
    requires Sized(s) && s.k.KIdle? && s.fifo != [] && s.fifo[0].long && s.pool.free != [] && s.pool.free[0] < |s.desc|
    ensures Enabled(s, Kthread) && Enabled(KNext(s), Kthread) && Enabled(KNext(KNext(s)), Kthread)
    ensures var e, x, h := KNext(KNext(KNext(s))), s.pool.free[0], s.fifo[0];
            && e.k == KIdle && e.fifo == s.fifo[1..] && e.desc == s.desc[x := h] && e.threads == s.threads
            && e.armed == s.armed
            && if h.port < 7 then e.pool.free == s.pool.free[1..] && e.discards == s.discards
                                  && e.pool.queues == s.pool.queues[h.port := s.pool.queues[h.port] + [x]]
               else e.pool == s.pool && e.discards == s.discards + 1
  {
    assert [s.pool.free[0]] + s.pool.free[1..] == s.pool.free;
  }

  /** Any other descriptor it drops. */
  lemma KthreadDrops(s: State)
    requires Enabled(s, Kthread) && s.k.KIdle? && !s.fifo[0].long
    ensures Next(s, Kthread) == s.(fifo := s.fifo[1..])
  {}
}
