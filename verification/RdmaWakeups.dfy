/**
 Sleeping senders. A sender that finds no free slot, or no free LONG buffer, sleeps until a
 wake-up is sent. The source sends one with some pushes and not with others; this machine adds
 the sleepers to the RDMA protocol.
 */
module RdmaWakeups {
  import opened Axiom
  import opened SlotPool
  import opened RdmaProtocol

  /** The threads asleep for want of an RDMA slot and of a LONG buffer. */
  datatype World = World(s: State, tx: set<nat>, long: set<nat>)

  /** `Sleep...` is a condition found false in wait_event; `TxSpace` the NIC's TX interrupt or the watchdog. */
  datatype Event = Do(step: Step) | SleepTx(t: nat) | SleepLong(t: nat) | TxSpace

  predicate Possible(w: World, ev: Event) {
    match ev
    case Do(step) =>
      Enabled(w.s, step) && (step.TxRetry? ==> step.t !in w.tx) && (step.LongRetry? ==> step.t !in w.long)
    case SleepTx(t) => t < |w.s.threads| && w.s.threads[t].TxBlocked? && w.s.rdma.free == []
    case SleepLong(t) => t < |w.s.threads| && w.s.threads[t].LongBlocked? && w.s.long.free == []
    case TxSpace => true
  }

  /** The acknowledgement ends an operation nobody waits for, so that the kthread frees the slot. */
  predicate Frees(s: State, step: Step)
    requires Enabled(s, step)
  {
    step.Ack? && Judge(s.status[step.slot], step.src, step.error) == Final && !s.status[step.slot].ackWaiting
  }

  /** Lines 670 and 916: the pushing sender wakes if the list was empty, the kthread if it was not. */
  predicate WakesTx(s: State, step: Step)
    requires Enabled(s, step)
  {
    (step.Release? && s.rdma.free == []) || (Frees(s, step) && s.rdma.free != [])
  }

  /** Lines 1135 and 1018: the error path wakes if the list was empty, the callback always. */
  predicate WakesLong(s: State, step: Step)
    requires Enabled(s, step)
  {
    (step.LongPush? && s.long.free == []) || (Frees(s, step) && s.status[step.slot].callback.Some?)
  }

  function Follow(w: World, ev: Event): World
    requires Possible(w, ev)
  {
    match ev
    case Do(step) =>
      World(Next(w.s, step),
            if WakesTx(w.s, step) then {} else if step.TxGiveUp? then w.tx - {step.t} else w.tx,
            if WakesLong(w.s, step) then {} else if step.LongGiveUp? then w.long - {step.t} else w.long)
    case SleepTx(t) => w.(tx := w.tx + {t})
    case SleepLong(t) => w.(long := w.long + {t})
    case TxSpace => w.(tx := {})
  }

  ghost predicate IsHistory(w: World, evs: seq<Event>)
    decreases |evs|
  {
    evs == [] || (Possible(w, evs[0]) && IsHistory(Follow(w, evs[0]), evs[1..]))
  }

  ghost function End(w: World, evs: seq<Event>): World
    requires IsHistory(w, evs)
    decreases |evs|
  {
    if evs == [] then w else End(Follow(w, evs[0]), evs[1..])
  }

  /** Nobody sleeps for want of something that is there. */
  ghost predicate TxRested(w: World) { w.tx != {} ==> w.s.rdma.free == [] }
  ghost predicate LongRested(w: World) { w.long != {} ==> w.s.long.free == [] }

  /** LONG senders never sleep beside a free buffer, in any history. */
  lemma {:induction false} LongSendersWoken(w: World, evs: seq<Event>)
    requires LongRested(w) && IsHistory(w, evs)
    ensures LongRested(End(w, evs))
    decreases |evs|
  {
    if evs != [] {
      LongSendersWoken(Follow(w, evs[0]), evs[1..]);
    }
  }

  /**
   RDMA senders stay woken over an event exactly when it is not an acknowledgement that makes
   the kthread free a slot while one of them sleeps.
   */
  lemma TxSendersWokenIff(w: World, ev: Event)
    requires TxRested(w) && Possible(w, ev)
    ensures TxRested(Follow(w, ev)) <==> !(ev.Do? && Frees(w.s, ev.step) && w.tx != {})
  {}

  /** No such acknowledgement happens in the history. */
  ghost predicate NoneLost(w: World, evs: seq<Event>)
    requires IsHistory(w, evs)
    decreases |evs|
  {
    evs == [] ||
    (!(evs[0].Do? && Frees(w.s, evs[0].step) && w.tx != {}) && NoneLost(Follow(w, evs[0]), evs[1..]))
  }

  lemma {:induction false} TxSendersWoken(w: World, evs: seq<Event>)
    requires TxRested(w) && IsHistory(w, evs) && NoneLost(w, evs)
    ensures TxRested(End(w, evs))
    decreases |evs|
  {
    if evs != [] {
      TxSendersWokenIff(w, evs[0]);
      TxSendersWoken(Follow(w, evs[0]), evs[1..]);
    }
  }

  // ---------------------------------------------------------------- a sender left asleep

  function Start(threads: nat): World { World(Init(threads, RETRIES_MOD), {}, {}) }

  ghost predicate Reached(w: World, threads: nat) {
    exists evs :: IsHistory(Start(threads), evs) && w == End(Start(threads), evs)
  }

  lemma {:induction false} HistorySnoc(w: World, evs: seq<Event>, ev: Event)
    requires IsHistory(w, evs) && Possible(End(w, evs), ev)
    ensures IsHistory(w, evs + [ev]) && End(w, evs + [ev]) == Follow(End(w, evs), ev)
    decreases |evs|
  {
    if evs == [] {
      assert evs + [ev] == [ev] && [ev][1..] == [];
    } else {
      HistorySnoc(Follow(w, evs[0]), evs[1..], ev);
      assert (evs + [ev])[1..] == evs[1..] + [ev];
    }
  }

  lemma ReachedNext(w: World, threads: nat, ev: Event)
    requires Reached(w, threads) && Possible(w, ev)
    ensures Reached(Follow(w, ev), threads)
  {
    var evs :| IsHistory(Start(threads), evs) && w == End(Start(threads), evs);
    HistorySnoc(Start(threads), evs, ev);
  }

  /** Two idle threads, nobody asleep, and slot 0 either free or awaiting an acknowledgement from node 1. */
  ghost predicate Quiet(w: World) {
    && w.s.threads == [Idle, Idle] && w.s.rdmaMutex == None && w.tx == {}
    && |w.s.status| == |w.s.completions| == |w.s.current| == MSG_ID_NUM && Below(w.s.rdma.free, MSG_ID_NUM)
    && (0 in w.s.rdma.free || (w.s.status[0].dst == 1 && !w.s.status[0].ackWaiting))
  }

  /** Thread 0 gets through the check and has the next free slot. */
  lemma TakeNext(w: World) returns (e: World)
    requires Reached(w, 2) && Quiet(w) && w.s.rdma.free != []
    ensures Reached(e, 2) && e.tx == {}
    ensures e.s == w.s.(threads := [TxHeld(Async, w.s.rdma.free[0]), Idle],
                        rdma := w.s.rdma.PopFree(), rdmaMutex := None)
  {
    hide Reached;
    ReachedNext(w, 2, Do(TxCall(0, true)));
    var w1 := Follow(w, Do(TxCall(0, true)));
    ReachedNext(w1, 2, Do(TxCheck(0, true)));
    var w2 := Follow(w1, Do(TxCheck(0, true)));
    ReachedNext(w2, 2, Do(TxPop(0)));
    e := Follow(w2, Do(TxPop(0)));
  }

  /** It sends asynchronously to node 1. */
  lemma SendNext(w: World) returns (e: World)
    requires Reached(w, 2) && Quiet(w) && w.s.rdma.free != []
    ensures Reached(e, 2) && Quiet(e) && e.s.rdma.free == w.s.rdma.free[1..]
  {
    hide Reached;
    var held := TakeNext(w);
    ReachedNext(held, 2, Do(Transmit(0, 1)));
    e := Follow(held, Do(Transmit(0, 1)));
    assert w.s.rdma.free == [w.s.rdma.free[0]] + e.s.rdma.free;
  }

  lemma {:induction false} SendAll(w: World) returns (e: World)
    requires Reached(w, 2) && Quiet(w)
    ensures Reached(e, 2) && Quiet(e) && e.s.rdma.free == []
    decreases |w.s.rdma.free|
  {
    e := w;
    if w.s.rdma.free != [] {
      e := SendNext(w);
      e := SendAll(e);
    }
  }

  /** Thread 1 finds every slot in flight and goes to sleep. */
  lemma Blocked(w: World) returns (e: World)
    requires Reached(w, 2) && Quiet(w) && w.s.rdma.free == []
    ensures Reached(e, 2) && e.tx == {1} && e.s.rdma.free == []
    ensures e.s.status == w.s.status && e.s.completions == w.s.completions && e.s.current == w.s.current
  {
    hide Reached;
    ReachedNext(w, 2, Do(TxCall(1, true)));
    var w1 := Follow(w, Do(TxCall(1, true)));
    ReachedNext(w1, 2, Do(TxCheck(1, true)));
    var w2 := Follow(w1, Do(TxCheck(1, true)));
    ReachedNext(w2, 2, SleepTx(1));
    e := Follow(w2, SleepTx(1));
  }

  /** With all slots in flight the next acknowledgement frees one and leaves the sender asleep beside it. */
  lemma SenderLeftAsleep() returns (e: World)
    ensures Reached(e, 2) && e.tx == {1} && e.s.rdma.free != []
  {
    var w := Start(2);
    assert IsHistory(w, []);
    assert w.s.rdma.free[0] == 0;
    var all := SendAll(w);
    var asleep := Blocked(all);
    ReachedNext(asleep, 2, Do(Ack(0, 1, false)));
    e := Follow(asleep, Do(Ack(0, 1, false)));
  }
}
