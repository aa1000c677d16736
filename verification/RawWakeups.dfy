/**
 The RAW kthread and its wake-ups in closer view: how soon it serves a message whatever the
 others do, and the interrupt handler in its two steps, the wake-up and the clearing of the
 interrupt.
 */
module RawWakeups {
  import opened SlotPool
  import opened RawReceive
  import opened RawProofs

  // ---------------------------------------------------------------- the kthread serves

  /** How many steps of its own the kthread needs, with work to do, until it has a slot for a message. */
  function Distance(k: KPc): nat {
    match k
    case Asleep => 7
    case Prepare => 6
    case CheckCounter => 5
    case CheckWork => 4
    case Start => 3
    case Filled(_) => 3
    case Loop => 2
    case Pop => 1
    case Got(_) => 0
  }

  function KthreadSteps(steps: seq<Step>): nat {
    if steps == [] then 0 else (if steps[0].Kthread? then 1 else 0) + KthreadSteps(steps[1..])
  }

  /** Nobody but the kthread takes from the FIFO or from the free list. */
  lemma OthersLeaveWork(s: State, step: Step)
    requires s.pool.Wf() && Enabled(s, step) && !step.Kthread? && s.WorkToDo()
    ensures Next(s, step).WorkToDo() && Next(s, step).k == s.k && Next(s, step).fifo[0] == s.fifo[0]
  {
    if step.Flush? { FlushKeeps(s.pool, s.threads[step.t].port); }
  }

  lemma KthreadCloser(s: State)
    requires Sized(s) && KEnabled(s) && s.WorkToDo() && !s.k.Got?
    ensures Distance(KNext(s).k) < Distance(s.k)
    ensures KNext(s).fifo == s.fifo && (KNext(s).WorkToDo() || KNext(s).k.Got?)
  {}

  /**
   In every run in which the kthread gets that many steps, whatever the others do in between,
   it comes to hold a slot for the message that is first in the FIFO now.
   */
  lemma {:induction false} KthreadServes(s: State, steps: seq<Step>) returns (n: nat)
    requires Inv(s) && IsRun(s, steps) && (s.WorkToDo() || s.k.Got?) && KthreadSteps(steps) >= Distance(s.k)
    ensures n <= |steps| && IsRun(s, steps[..n])
    ensures var e := After(s, steps[..n]); e.k.Got? && s.fifo != [] && e.fifo != [] && e.fifo[0] == s.fifo[0]
    decreases |steps|
  {
    if s.k.Got? {
      n := 0;
    } else {
      StepKeeps(s, steps[0]);
      Closer(s, steps[0]);
      var rest := KthreadServes(Next(s, steps[0]), steps[1..]);
      n := rest + 1;
      assert steps[..n][1..] == steps[1..][..rest];
    }
  }

  lemma Closer(s: State, step: Step)
    requires Inv(s) && Enabled(s, step) && s.WorkToDo() && !s.k.Got?
    ensures var e := Next(s, step);
            && (e.WorkToDo() || e.k.Got?) && e.fifo != [] && e.fifo[0] == s.fifo[0]
            && Distance(e.k) + (if step.Kthread? then 1 else 0) <= Distance(s.k)
  {
    if step.Kthread? { KthreadCloser(s); } else { OthersLeaveWork(s, step); }
  }

  // ---------------------------------------------------------------- the handler in two steps

  /** `handling`: the handler has woken the kthread (151) and not yet cleared the interrupt (172). */
  datatype World = World(s: State, handling: bool)

  datatype Event = Do(step: Step) | Begin | Clear

  predicate Possible(w: World, ev: Event) {
    match ev
    case Do(step) => Enabled(w.s, step) && !step.Interrupt?
    case Begin => Enabled(w.s, Interrupt) && !w.handling
    case Clear => w.handling
  }

  function Follow(w: World, ev: Event): World
    requires Possible(w, ev)
  {
    match ev
    case Do(step) => w.(s := Next(w.s, step))
    case Begin => World(Next(w.s, Interrupt).(irq := true), true)
    case Clear => World(w.s.(irq := false), false)
  }

  ghost predicate IsHistory(w: World, evs: seq<Event>)
    decreases |evs|
  {
    evs == [] || (Possible(w, evs[0]) && IsHistory(Follow(w, evs[0]), evs[1..]))
  }

  ghost function End(w: World, evs: seq<Event>): World
    requires IsHistory(w, evs)
    decreases |evs|
  {
    if evs == [] then w else End(Follow(w, evs[0]), evs[1..])
  }

  /** A wake-up is on its way; an interrupt that is being handled already is not one. */
  ghost predicate Coming(w: World) {
    w.s.woken || (w.s.irq && !w.handling) || exists t :: WillWake(w.s, t)
  }

  ghost predicate Safe(w: World) {
    w.s.k.Asleep? && w.s.WorkToDo() ==> Coming(w)
  }

  /** A message arrives at an empty FIFO between the two steps, and the kthread has gone to sleep again. */
  ghost predicate Missed(w: World, ev: Event) {
    && ev.Do? && ev.step.Arrive? && w.handling && w.s.fifo == []
    && w.s.pool.free != [] && w.s.k.Asleep? && !Coming(w)
  }

  lemma OwnWakeStep(w: World, step: Step)
    requires Safe(w) && w.s.pool.Wf() && Possible(w, Do(step)) && !step.Arrive?
    ensures Safe(Follow(w, Do(step)))
  {
    var s, s' := w.s, Next(w.s, step);
    if s'.k.Asleep? && s'.WorkToDo() && !step.Kthread? {
      if !s.WorkToDo() {
        GivesWork(s, step);
      } else if t :| WillWake(s, t) {
        assert step.WakeUp? || WillWake(s', t);
      }
    }
  }

  lemma ArriveSafeIff(w: World, msg: Msg)
    requires Safe(w) && Possible(w, Do(Arrive(msg)))
    ensures Safe(Follow(w, Do(Arrive(msg)))) <==> !Missed(w, Do(Arrive(msg)))
  {
    var e := Follow(w, Do(Arrive(msg)));
    assert forall t :: WillWake(e.s, t) <==> WillWake(w.s, t);
  }

  /** No wake-up is lost by an event exactly when it is not such an arrival. */
  lemma HandlerSafeIff(w: World, ev: Event)
    requires Safe(w) && w.s.pool.Wf() && Possible(w, ev)
    ensures Safe(Follow(w, ev)) <==> !Missed(w, ev)
  {
    match ev
    case Do(step) => if step.Arrive? { ArriveSafeIff(w, step.msg); } else { OwnWakeStep(w, step); }
    case Begin =>
    case Clear => if t :| WillWake(w.s, t) { assert WillWake(Follow(w, ev).s, t); }
  }

  ghost predicate NoneMissed(w: World, evs: seq<Event>)
    requires IsHistory(w, evs)
    decreases |evs|
  {
    evs == [] || (!Missed(w, evs[0]) && NoneMissed(Follow(w, evs[0]), evs[1..]))
  }

  /** The pool is well formed in every state the two-step handler can lead to. */
  lemma EventKeepsSlots(w: World, ev: Event)
    requires Owned(w.s) && CheckInv(w.s) && Possible(w, ev)
    ensures Owned(Follow(w, ev).s) && CheckInv(Follow(w, ev).s)
  {
    match ev
    case Do(step) =>
      SlotStep(w.s, step);
      CheckStep(w.s, step);
    case Begin =>
      SlotStep(w.s, Interrupt);
      CheckStep(w.s, Interrupt);
      var own :| SlotInv(Next(w.s, Interrupt), own);
      SlotsFollow(Next(w.s, Interrupt), Follow(w, ev).s, own);
    case Clear =>
      var own :| SlotInv(w.s, own);
      SlotsFollow(w.s, Follow(w, ev).s, own);
  }

  lemma {:induction false} HistorySafe(w: World, evs: seq<Event>)
    requires Owned(w.s) && CheckInv(w.s) && Safe(w) && IsHistory(w, evs) && NoneMissed(w, evs)
    ensures Safe(End(w, evs))
    decreases |evs|
  {
    if evs != [] {
      HandlerSafeIff(w, evs[0]);
      EventKeepsSlots(w, evs[0]);
      HistorySafe(Follow(w, evs[0]), evs[1..]);
    }
  }

  function Booted(threads: nat, slots: nat): World { World(Init(threads, slots), false) }

  /**
   Over every history of the two-step handler without such an arrival, a kthread that sleeps
   although there is work has a wake-up coming.
   */
  lemma NoLostWakeupTwoSteps(threads: nat, slots: nat, evs: seq<Event>)
    requires IsHistory(Booted(threads, slots), evs) && NoneMissed(Booted(threads, slots), evs)
    ensures Safe(End(Booted(threads, slots), evs))
  {
    InitInv(threads, slots);
    HistorySafe(Booted(threads, slots), evs);
  }

  // ---------------------------------------------------------------- a kthread left asleep

  ghost predicate Reached(w: World) {
    exists evs :: IsHistory(Booted(0, 2), evs) && w == End(Booted(0, 2), evs)
  }

  lemma {:induction false} HistorySnoc(w: World, evs: seq<Event>, ev: Event)
    requires IsHistory(w, evs) && Possible(End(w, evs), ev)
    ensures IsHistory(w, evs + [ev]) && End(w, evs + [ev]) == Follow(End(w, evs), ev)
    decreases |evs|
  {
    if evs == [] {
      assert evs + [ev] == [ev] && [ev][1..] == [];
    } else {
      HistorySnoc(Follow(w, evs[0]), evs[1..], ev);
      assert (evs + [ev])[1..] == evs[1..] + [ev];
    }
  }

  lemma ReachedNext(w: World, ev: Event)
    requires Reached(w) && Possible(w, ev)
    ensures Reached(Follow(w, ev))
  {
    var evs :| IsHistory(Booted(0, 2), evs) && w == End(Booted(0, 2), evs);
    HistorySnoc(Booted(0, 2), evs, ev);
  }

  lemma KthreadMoves(w: World) returns (e: World)
    requires Reached(w) && Sized(w.s) && KEnabled(w.s)
    ensures Reached(e) && e == w.(s := KNext(w.s))
  {
    ReachedNext(w, Do(Kthread));
    e := Follow(w, Do(Kthread));
  }

  /** What the kthread has to do with while the handler is between its two steps. */
  ghost predicate During(w: World, k: KPc, fifo: seq<Msg>, free: seq<nat>) {
    && Reached(w) && Sized(w.s) && w.handling && w.s.threads == []
    && w.s.k == k && w.s.fifo == fifo && w.s.pool.free == free
  }

  /** Woken for the first message, for port 0, the kthread starts. */
  lemma Woken() returns (w: World)
    ensures During(w, Start, [Msg(0, 0)], [0, 1])
    ensures !w.s.woken && |w.s.desc| == 2
  {
    w := Booted(0, 2);
    assert IsHistory(w, []);
    ReachedNext(w, Do(Arrive(Msg(0, 0))));
    w := Follow(w, Do(Arrive(Msg(0, 0))));
    ReachedNext(w, Begin);
    w := Follow(w, Begin);
    assert w.s.pool.free == [0, 1];
    w := KthreadMoves(w);
    w := KthreadMoves(w);
  }

  /** It queues the message and finds no other. */
  lemma Queues(w: World) returns (e: World)
    requires During(w, Start, [Msg(0, 0)], [0, 1]) && !w.s.woken && |w.s.desc| == 2
    ensures During(e, Loop, [], [1])
    ensures !e.s.woken && e.s.scheduled == e.s.seen
  {
    hide Reached;
    e := KthreadMoves(w);
    e := KthreadMoves(e);
    e := KthreadMoves(e);
    e := KthreadMoves(e);
    assert e.s.k == Filled(0) && e.s.desc[0] == Msg(0, 0);
    e := KthreadMoves(e);
  }

  lemma FallsAsleep(w: World) returns (e: World)
    requires During(w, Loop, [], [1]) && w.s.scheduled == w.s.seen
    ensures During(e, Asleep, [], [1]) && !e.s.woken
  {
    e := KthreadMoves(w);
    e := KthreadMoves(e);
    e := KthreadMoves(e);
    e := KthreadMoves(e);
  }

  /**
   The failing history: the kthread serves the first message and sleeps before the handler clears
   the interrupt; a second message arrives, the clearing drops its interrupt, and it is left in
   the FIFO beside a free slot with no wake-up on its way.
   */
  lemma MissedWakeup() returns (e: World)
    ensures Reached(e) && !e.handling && e.s.k.Asleep? && e.s.WorkToDo() && !WakePending(e.s)
  {
    var w := Woken();
    w := Queues(w);
    w := FallsAsleep(w);
    ReachedNext(w, Do(Arrive(Msg(0, 1))));
    w := Follow(w, Do(Arrive(Msg(0, 1))));
    ReachedNext(w, Clear);
    e := Follow(w, Clear);
  }
}
