/** Every step of RAW reception keeps the invariant; the theorems over all runs are at the end. */
module RawProofs {
  import opened Axiom
  import opened SlotPool
  import opened RawReceive

  // ---------------------------------------------------------------- slots

  /** Steps that move no slot. */
  lemma SlotsFollow(s: State, s': State, own: seq<Owner>)
    requires SlotInv(s, own) && s'.pool == s.pool && Sized(s')
    requires KSlot(s'.k) == KSlot(s.k) && |s'.threads| == |s.threads|
    requires forall t :: 0 <= t < |s.threads| ==>
               s'.threads[t].Reading? == s.threads[t].Reading?
               && (s.threads[t].Reading? ==> s'.threads[t].slot == s.threads[t].slot)
    ensures SlotInv(s', own)
  {}

  lemma PopOwns(s: State, own: seq<Owner>)
    requires SlotInv(s, own) && s.k.Pop? && s.pool.free != []
    ensures SlotInv(KNext(s), own[s.pool.free[0] := HeldByKthread])
  {}

  lemma PlaceOwns(s: State, own: seq<Owner>, slot: nat)
    requires SlotInv(s, own) && s.k == Filled(slot) && slot < |s.desc| && s.desc[slot].port < PORT_VALUES
    ensures SlotInv(Place(s, slot), own[slot := Listed])
  {
    if s.desc[slot].port >= PORT_NUM {
      PushFreeKeeps(s.pool, slot);
    } else {
      EnqueueKeeps(s.pool, s.desc[slot].port, slot);
    }
  }

  lemma TakeOwns(s: State, own: seq<Owner>, t: nat, p: nat)
    requires SlotInv(s, own) && t < |s.threads| && s.threads[t] == Checked(p) && p < PORT_NUM
    requires s.pool.queues[p] != []
    ensures s.pool.queues[p][0] < |own| && SlotInv(TakeMsg(s, t, p), own[s.pool.queues[p][0] := HeldBy(t)])
  {
    DequeueKeeps(s.pool, p);
  }

  lemma GiveBackOwns(s: State, own: seq<Owner>, t: nat)
    requires SlotInv(s, own) && t < |s.threads| && s.threads[t].Reading?
    ensures s.threads[t].slot < |own| && s.pool.Held(s.threads[t].slot)
    ensures SlotInv(GiveSlotBack(s, t, s.threads[t].slot), own[s.threads[t].slot := Listed])
  {}

  lemma FlushOwns(s: State, own: seq<Owner>, t: nat, p: nat)
    requires SlotInv(s, own) && t < |s.threads| && s.threads[t] == FlushLocked(p) && p < PORT_NUM
    ensures SlotInv(FlushPort(s, t, p), own)
  {
    FlushKeeps(s.pool, p);
  }

  lemma SlotStepKthread(s: State)
    requires Owned(s) && KEnabled(s)
    ensures Owned(KNext(s))
  {
    var own :| SlotInv(s, own);
    if s.k.Pop? && s.pool.free != [] {
      PopOwns(s, own);
    } else if s.k.Filled? {
      PlaceOwns(s, own, s.k.slot);
      assert KNext(s) == Place(s, s.k.slot);
    } else {
      SlotStepQuiet(s, own);
    }
  }

  lemma SlotStepQuiet(s: State, own: seq<Owner>)
    requires SlotInv(s, own) && KEnabled(s) && !s.k.Filled? && (s.k.Pop? ==> s.pool.free == [])
    ensures SlotInv(KNext(s), own)
  {
    SlotsFollow(s, KNext(s), own);
  }

  lemma SlotStepMove(s: State, step: Step)
    requires Owned(s) && Enabled(s, step)
    requires !step.Kthread? && !step.Take? && !step.GiveBack? && !step.Flush?
    ensures Owned(Next(s, step))
  {
    var own :| SlotInv(s, own);
    SlotsFollow(s, Next(s, step), own);
  }

  lemma SlotStep(s: State, step: Step)
    requires Owned(s) && CheckInv(s) && Enabled(s, step)
    ensures Owned(Next(s, step))
  {
    hide SlotInv;
    match step
    case Take(t) =>
      var own :| SlotInv(s, own);
      TakeOwns(s, own, t, s.threads[t].port);
    case GiveBack(t) =>
      var own :| SlotInv(s, own);
      GiveBackOwns(s, own, t);
    case Flush(t) =>
      var own :| SlotInv(s, own);
      FlushOwns(s, own, t, s.threads[t].port);
    case Kthread => SlotStepKthread(s);
    case _ => SlotStepMove(s, step);
  }

  // ---------------------------------------------------------------- checks stay true

  /** Thread t moved, within the mutex it has or into a free one; no other queue shrank. */
  lemma ChecksFollow(s: State, s': State, t: nat, p: nat)
    requires CheckInv(s) && Sized(s') && t < |s.threads| == |s'.threads| && p < PORT_NUM
    requires s'.threads == s.threads[t := s'.threads[t]] && s'.k == s.k && s'.fifo == s.fifo
    requires s.mutex[p] in {None, Some(t)} && s'.mutex == s.mutex[p := s'.mutex[p]]
    requires InMutex(s'.threads[t]) ==> s'.threads[t].port == p && s'.mutex[p] == Some(t)
    requires s'.threads[t].Checked? ==> s'.pool.queues[p] != []
    requires forall q :: 0 <= q < PORT_NUM && q != p ==> s'.pool.queues[q] == s.pool.queues[q]
    requires s.pool.free != [] ==> s'.pool.free != []
    ensures CheckInv(s')
  {}

  /** Nothing is taken off a list. */
  lemma ChecksGrow(s: State, s': State)
    requires CheckInv(s) && Sized(s') && s'.mutex == s.mutex && |s'.threads| == |s.threads|
    requires forall t :: 0 <= t < |s.threads| ==>
               InMutex(s'.threads[t]) ==> s'.threads[t] == s.threads[t]
    requires forall q :: 0 <= q < PORT_NUM && s.pool.queues[q] != [] ==> s'.pool.queues[q] != []
    requires s'.k.Pop? ==> s'.WorkToDo()
    requires s'.k.Got? ==> s'.fifo != []
    ensures CheckInv(s')
  {}

  lemma CheckStepMutex(s: State, step: Step)
    requires CheckInv(s) && Enabled(s, step) && Sized(Next(s, step))
    requires OnMutex(step)
    ensures CheckInv(Next(s, step))
  {
    var p := if step.Lock? || step.FlushLock? then step.port else s.threads[step.t].port;
    ChecksFollow(s, Next(s, step), step.t, p);
  }

  lemma CheckStepTake(s: State, t: nat)
    requires CheckInv(s) && t < |s.threads| && s.threads[t].Checked? && Sized(TakeMsg(s, t, s.threads[t].port))
    ensures CheckInv(TakeMsg(s, t, s.threads[t].port))
  {
    ChecksFollow(s, TakeMsg(s, t, s.threads[t].port), t, s.threads[t].port);
  }

  lemma CheckStepFlush(s: State, t: nat)
    requires CheckInv(s) && s.pool.Wf() && t < |s.threads| && s.threads[t].FlushLocked?
    requires Sized(FlushPort(s, t, s.threads[t].port))
    ensures CheckInv(FlushPort(s, t, s.threads[t].port))
  {
    FlushKeeps(s.pool, s.threads[t].port);
    ChecksFollow(s, FlushPort(s, t, s.threads[t].port), t, s.threads[t].port);
  }

  lemma CheckStepQuiet(s: State, step: Step)
    requires CheckInv(s) && Enabled(s, step) && Sized(Next(s, step))
    requires !step.Lock? && !step.FlushLock? && !step.Check? && !step.Retry? && !step.Take? && !step.Flush?
    ensures CheckInv(Next(s, step))
  {
    ChecksGrow(s, Next(s, step));
  }

  /** The steps that touch a port's mutex without touching its queue. */
  ghost predicate OnMutex(step: Step) {
    step.Lock? || step.FlushLock? || step.Check? || step.Retry?
  }

  lemma CheckStep(s: State, step: Step)
    requires CheckInv(s) && s.pool.Wf() && Enabled(s, step) && Sized(Next(s, step))
    ensures CheckInv(Next(s, step))
  {
    hide Next, Enabled, Sized, CheckInv, Pool.Wf;
    if step.Take? || step.Flush? {
      CheckStepQueue(s, step);
    } else if OnMutex(step) {
      CheckStepMutex(s, step);
    } else {
      CheckStepQuiet(s, step);
    }
  }

  lemma CheckStepQueue(s: State, step: Step)
    requires CheckInv(s) && s.pool.Wf() && Enabled(s, step) && Sized(Next(s, step)) && (step.Take? || step.Flush?)
    ensures CheckInv(Next(s, step))
  {
    hide CheckInv, Sized, Pool.Wf;
    if step.Take? {
      CheckStepTake(s, step.t);
    } else {
      CheckStepFlush(s, step.t);
    }
  }

  // ---------------------------------------------------------------- wake-ups

  /** Only an arrival, a freed slot or a flush makes work; the last two go on to wake the kthread. */
  lemma GivesWork(s: State, step: Step)
    requires Enabled(s, step) && !step.Arrive? && !step.Kthread? && !s.WorkToDo() && Next(s, step).WorkToDo()
    ensures (step.GiveBack? || step.Flush?) && WillWake(Next(s, step), step.t)
  {}

  lemma WakeStep(s: State, step: Step)
    requires WakeInv(s) && s.pool.Wf() && Enabled(s, step)
    ensures WakeInv(Next(s, step))
  {
    var s' := Next(s, step);
    if s'.k.Asleep? && s'.WorkToDo() {
      if step.Kthread? {
      } else if s.WorkToDo() {
        if t :| WillWake(s, t) {
          assert step.WakeUp? || WillWake(s', t);
        }
      } else if !step.Arrive? {
        GivesWork(s, step);
      }
    }
  }

  lemma NextCount(n: nat)
    ensures (n % SCHEDULED_MOD + 1) % SCHEDULED_MOD == (n + 1) % SCHEDULED_MOD
  {}

  lemma CounterStep(s: State, step: Step)
    requires CounterInv(s) && Enabled(s, step)
    ensures CounterInv(Next(s, step))
  {
    hide Sized;
    NextCount(s.wakes);
  }

  lemma NoticeStep(s: State, step: Step)
    requires NoticeInv(s) && Enabled(s, step)
    ensures NoticeInv(Next(s, step))
  {
    var s' := Next(s, step);
    if (s'.k.CheckWork? || s'.k.Asleep?) && s'.scheduled != s'.seen && !s'.woken {
      if step.CountUp? {
        assert s'.threads[step.t].MustWake?;
      } else if t :| 0 <= t < |s.threads| && s.threads[t].MustWake? {
        assert s'.threads[t].MustWake?;
      }
    }
  }

  // ---------------------------------------------------------------- contents

  lemma {:induction false} OnPortAppend(a: seq<Msg>, b: seq<Msg>, p: nat)
    ensures OnPort(a + b, p) == OnPort(a, p) + OnPort(b, p)
  {
    if a == [] {
      assert a + b == b;
    } else {
      assert (a + b)[1..] == a[1..] + b;
      OnPortAppend(a[1..], b, p);
    }
  }

  lemma ArriveDelivers(s: State, msg: Msg, p: nat)
    requires Enabled(s, Arrive(msg)) && p < PORT_VALUES && Delivered(s, p)
    ensures Delivered(Next(s, Arrive(msg)), p)
  {
    OnPortAppend(s.fifo, [msg], p);
    OnPortAppend(s.arrived, [msg], p);
    var before := s.served[p] + Queued(s, p) + InHand(s, p);
    assert before + (OnPort(s.fifo, p) + OnPort([msg], p)) == (before + OnPort(s.fifo, p)) + OnPort([msg], p);
  }

  /** Filling a held slot changes the contents of no queue. */
  lemma FillDelivers(s: State, own: seq<Owner>, slot: nat, p: nat)
    requires SlotInv(s, own) && s.k == Got(slot) && s.fifo != [] && p < PORT_VALUES && Delivered(s, p)
    ensures Delivered(KNext(s), p)
  {
    var s', m := KNext(s), s.fifo[0];
    assert Queued(s', p) == Queued(s, p) by {
      if p < PORT_NUM {
        var q := s.pool.queues[p];
        assert slot !in q;
        assert forall i :: 0 <= i < |q| ==> s'.desc[q[i]] == s.desc[q[i]];
      }
    }
    assert s.fifo == [m] + s.fifo[1..];
    assert InHand(s, p) == [];
    var before := s.served[p] + Queued(s, p);
    if m.port == p {
      assert before + [] + ([m] + OnPort(s'.fifo, p)) == before + [m] + OnPort(s'.fifo, p);
    }
  }

  lemma PlaceDelivers(s: State, slot: nat, p: nat)
    requires Sized(s) && s.k == Filled(slot) && slot < |s.desc| && s.desc[slot].port < PORT_VALUES
    requires p < PORT_VALUES && Delivered(s, p) && Sized(Place(s, slot))
    ensures Delivered(Place(s, slot), p)
  {
    var s', m := Place(s, slot), s.desc[slot];
    if m.port == p {
      if p < PORT_NUM {
        assert Queued(s', p) == Queued(s, p) + [m];
        assert s.served[p] + Queued(s, p) + [m] == s.served[p] + (Queued(s, p) + [m]) + [];
      } else {
        assert s.served[p] + [] + [m] == s'.served[p] + [] + [];
      }
    }
  }

  lemma TakeDelivers(s: State, t: nat, q: nat, p: nat)
    requires Sized(s) && t < |s.threads| && q < PORT_NUM && s.pool.queues[q] != []
    requires p < PORT_VALUES && Delivered(s, p) && Sized(TakeMsg(s, t, q))
    ensures Delivered(TakeMsg(s, t, q), p)
  {
    var s' := TakeMsg(s, t, q);
    if p == q {
      var m := s.desc[s.pool.queues[q][0]];
      assert Queued(s, p) == [m] + Queued(s', p);
      assert s.served[p] + ([m] + Queued(s', p)) == s.served[p] + [m] + Queued(s', p);
    }
  }

  lemma FlushDelivers(s: State, t: nat, q: nat, p: nat)
    requires Sized(s) && s.pool.Wf() && t < |s.threads| && q < PORT_NUM
    requires p < PORT_VALUES && Delivered(s, p) && Sized(FlushPort(s, t, q))
    ensures Delivered(FlushPort(s, t, q), p)
  {
    FlushKeeps(s.pool, q);
    var s' := FlushPort(s, t, q);
    if p == q {
      assert Queued(s', p) == [];
      assert s.served[p] + Queued(s, p) == (s.served[p] + Queued(s, p)) + [];
    }
  }

  /** No other step touches what Delivered is about. */
  lemma ContentsFollow(s: State, s': State)
    requires ContentInv(s) && Sized(s') && s'.fifo == s.fifo && s'.arrived == s.arrived && s'.desc == s.desc
    requires s'.pool.queues == s.pool.queues && s'.served == s.served
    requires s'.k.Filled? == s.k.Filled? && (s.k.Filled? ==> s'.k == s.k)
    requires |s'.threads| == |s.threads|
    requires forall t :: 0 <= t < |s.threads| && s'.threads[t].Reading? ==> s'.threads[t] == s.threads[t]
    ensures ContentInv(s')
  {
    forall p | 0 <= p < PORT_VALUES ensures Delivered(s', p) {
      assert Delivered(s, p);
    }
  }

  lemma ContentStepFill(s: State, own: seq<Owner>, slot: nat)
    requires SlotInv(s, own) && ContentInv(s) && s.k == Got(slot) && KEnabled(s) && Sized(KNext(s))
    ensures ContentInv(KNext(s))
  {
    hide Delivered;
    forall p | 0 <= p < PORT_VALUES ensures Delivered(KNext(s), p) {
      FillDelivers(s, own, slot, p);
    }
  }

  lemma ContentStepKthread(s: State)
    requires Owned(s) && ContentInv(s) && KEnabled(s) && Sized(KNext(s))
    ensures ContentInv(KNext(s))
  {
    if s.k.Got? {
      var own :| SlotInv(s, own);
      ContentStepFill(s, own, s.k.slot);
    } else if s.k.Filled? {
      forall p | 0 <= p < PORT_VALUES ensures Delivered(KNext(s), p) {
        PlaceDelivers(s, s.k.slot, p);
      }
    } else {
      ContentsFollow(s, KNext(s));
    }
  }

  lemma ContentStepArrive(s: State, msg: Msg)
    requires ContentInv(s) && Enabled(s, Arrive(msg))
    ensures ContentInv(Next(s, Arrive(msg)))
  {
    var s' := Next(s, Arrive(msg));
    forall p | 0 <= p < PORT_VALUES ensures Delivered(s', p) {
      ArriveDelivers(s, msg, p);
    }
  }

  lemma ContentStepTake(s: State, t: nat)
    requires CheckInv(s) && ContentInv(s) && t < |s.threads| && s.threads[t].Checked?
    requires Sized(TakeMsg(s, t, s.threads[t].port))
    ensures ContentInv(TakeMsg(s, t, s.threads[t].port))
  {
    var q := s.threads[t].port;
    forall p | 0 <= p < PORT_VALUES ensures Delivered(TakeMsg(s, t, q), p) {
      TakeDelivers(s, t, q, p);
    }
  }

  lemma ContentStepFlush(s: State, t: nat)
    requires s.pool.Wf() && ContentInv(s) && t < |s.threads| && s.threads[t].FlushLocked?
    requires s.threads[t].port < PORT_NUM && Sized(FlushPort(s, t, s.threads[t].port))
    ensures ContentInv(FlushPort(s, t, s.threads[t].port))
  {
    var q := s.threads[t].port;
    forall p | 0 <= p < PORT_VALUES ensures Delivered(FlushPort(s, t, q), p) {
      FlushDelivers(s, t, q, p);
    }
  }

  lemma ContentStep(s: State, step: Step)
    requires Owned(s) && CheckInv(s) && ContentInv(s) && Enabled(s, step) && Sized(Next(s, step))
    ensures ContentInv(Next(s, step))
  {
    match step
    case Kthread => ContentStepKthread(s);
    case Arrive(msg) => ContentStepArrive(s, msg);
    case Take(t) => ContentStepTake(s, t);
    case Flush(t) => ContentStepFlush(s, t);
    case _ => ContentStepQuiet(s, step);
  }

  lemma ContentStepQuiet(s: State, step: Step)
    requires ContentInv(s) && Enabled(s, step) && Sized(Next(s, step))
    requires !step.Kthread? && !step.Arrive? && !step.Take? && !step.Flush?
    ensures ContentInv(Next(s, step))
  {
    ContentsFollow(s, Next(s, step));
  }

  // ---------------------------------------------------------------- all runs

  lemma StepKeeps(s: State, step: Step)
    requires Inv(s) && Enabled(s, step)
    ensures Inv(Next(s, step))
  {
    assert s.pool.Wf();
    SlotStep(s, step);
    assert Sized(Next(s, step));
    CheckStep(s, step);
    ContentStep(s, step);
    WakeStep(s, step);
    CounterStep(s, step);
    NoticeStep(s, step);
  }

  lemma InitInv(threads: nat, slots: nat)
    ensures Inv(Init(threads, slots))
  {
    var s := Init(threads, slots);
    FreshIsWf(PORT_NUM, slots);
    var own := seq(slots, _ => Listed);
    assert SlotInv(s, own);
    forall p | 0 <= p < PORT_VALUES ensures Delivered(s, p) {
      assert Queued(s, p) == [];
    }
  }

  lemma {:induction false} RunKeeps(s: State, steps: seq<Step>)
    requires Inv(s) && IsRun(s, steps)
    ensures Inv(After(s, steps))
    decreases |steps|
  {
    if steps != [] {
      StepKeeps(s, steps[0]);
      RunKeeps(Next(s, steps[0]), steps[1..]);
    }
  }

  ghost predicate Reachable(s: State) {
    exists threads: nat, slots: nat, steps ::
      IsRun(Init(threads, slots), steps) && s == After(Init(threads, slots), steps)
  }

  lemma ReachableInv(s: State)
    requires Reachable(s)
    ensures Inv(s)
  {
    var threads: nat, slots: nat, steps :|
      IsRun(Init(threads, slots), steps) && s == After(Init(threads, slots), steps);
    InitInv(threads, slots);
    RunKeeps(Init(threads, slots), steps);
  }

  /**
   No lost wake-up: whenever the kthread sleeps although a message and a free slot are there, a
   wake-up is on its way. The counter's width plays no part.
   */
  lemma NoLostWakeup(s: State)
    requires Reachable(s)
    ensures s.k.Asleep? && s.WorkToDo() ==> WakePending(s)
  {
    ReachableInv(s);
  }

  /**
   The counter's part: a kthread that looks at it finds any number of wake-ups since its last
   look, short of a multiple of 2^32; one that has looked and sleeps is woken for later ones.
   */
  lemma CounterTellsWakeups(s: State)
    requires Reachable(s)
    ensures s.seenWakes <= s.wakes
    ensures s.k.CheckCounter? ==> Sized(s) && (KNext(s).k.Start? <==> (s.wakes - s.seenWakes) % SCHEDULED_MOD != 0)
    ensures s.k.Asleep? && (s.wakes - s.seenWakes) % SCHEDULED_MOD != 0 ==>
              s.woken || exists t :: 0 <= t < |s.threads| && s.threads[t].MustWake?
  {
    ReachableInv(s);
    SameRemainder(s.wakes, s.seenWakes);
  }

  lemma SameRemainder(a: nat, b: nat)
    requires b <= a
    ensures a % SCHEDULED_MOD == b % SCHEDULED_MOD <==> (a - b) % SCHEDULED_MOD == 0
  {}

  ghost function KthreadAlone(s: State, n: nat): State
    decreases n
  {
    if n > 0 && Sized(s) && KEnabled(s) then KthreadAlone(KNext(s), n - 1) else s
  }

  /** Once woken, the kthread takes a slot for the message within seven steps of its own. */
  lemma WokenKthreadServes(s: State)
    requires Sized(s) && s.k.Asleep? && s.woken && s.WorkToDo()
    ensures KthreadAlone(s, if s.scheduled != s.seen then 6 else 7).k == Got(s.pool.free[0])
  {
    var a := KNext(s);
    var b := KNext(a);
    var c := KNext(b);
    assert c.k == if s.scheduled != s.seen then Start else CheckWork;
    if s.scheduled == s.seen {
      assert KthreadAlone(s, 7) == KthreadAlone(KNext(c), 3);
      StartServes(KNext(c));
    } else {
      assert KthreadAlone(s, 6) == KthreadAlone(c, 3);
      StartServes(c);
    }
  }

  lemma StartServes(s: State)
    requires Sized(s) && s.k.Start? && s.WorkToDo()
    ensures KthreadAlone(s, 3).k == Got(s.pool.free[0])
  {}

  /**
   RAW delivery: for each port, what readers and flushes took off its queue, followed by what is
   queued, in the kthread's hands and in the FIFO, is exactly the arrivals for that port in
   order. For port 7 nothing is ever queued. A reader still sees the message it dequeued.
   */
  lemma PortDelivery(s: State, p: nat)
    requires Reachable(s) && p < PORT_VALUES
    ensures Sized(s) && s.served[p] + Queued(s, p) + InHand(s, p) + OnPort(s.fifo, p) == OnPort(s.arrived, p)
    ensures p >= PORT_NUM ==> Queued(s, p) == []
    ensures forall t :: 0 <= t < |s.threads| && s.threads[t].Reading? ==>
              s.threads[t].slot < |s.desc| && s.desc[s.threads[t].slot] == s.threads[t].msg
  {
    ReachableInv(s);
    assert Delivered(s, p);
  }

  ghost predicate HasSlot(s: State, x: nat) {
    KSlot(s.k) == Some(x) || exists t :: 0 <= t < |s.threads| && s.threads[t].Reading? && s.threads[t].slot == x
  }

  /** Free, queued and held slots always add up, and every held slot has exactly one holder. */
  lemma SlotConservation(s: State)
    requires Reachable(s)
    ensures |s.pool.free| + TotalQueued(s.pool.queues) + |HeldSet(s.pool)| == s.pool.size
    ensures forall x: nat :: x in HeldSet(s.pool) <==> HasSlot(s, x)
    ensures forall t, u :: 0 <= t < |s.threads| && 0 <= u < |s.threads| ==>
              s.threads[t].Reading? && s.threads[u].Reading? ==>
              (s.threads[t].slot == s.threads[u].slot ==> t == u) && KSlot(s.k) != Some(s.threads[t].slot)
  {
    ReachableInv(s);
    var own :| SlotInv(s, own);
    Conservation(s.pool);
  }

  /** The branches marked impossible, and the FIFO read that follows a pop. */
  lemma ChecksHold(s: State, t: nat)
    requires Reachable(s)
    ensures Enabled(s, Take(t)) ==> s.pool.queues[s.threads[t].port] != []
    ensures s.k.Pop? ==> s.pool.free != []
    ensures s.k.Got? ==> s.fifo != []
  {
    ReachableInv(s);
  }
}
