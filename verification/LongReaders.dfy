/**
 Sleeping LONG readers. A reader that finds its port's queue empty sleeps until the kthread,
 having put a message on the empty queue and let go of the queue lock, wakes the port's readers. The
 machine adds the sleepers and the wake-up that is still to come.
 */
module LongReaders {
  import opened Axiom
  import opened LongLayout
  import opened LongReceive
  import opened LongProofs

  /** `due` is the port the kthread has put a first message on without having woken its readers yet. */
  datatype World = World(s: State, asleep: set<nat>, due: Option<nat>)

  datatype Event = Do(step: Step) | Sleep(t: nat) | Wake

  predicate Possible(w: World, ev: Event) {
    match ev
    case Do(step) =>
      && Enabled(w.s, step) && (step.Retry? ==> step.t !in w.asleep)
      && (step.Kthread? ==> w.due.None?)
    case Sleep(t) => Sized(w.s) && t < |w.s.threads| && FoundEmpty(w.s, w.s.threads[t])
    case Wake => w.due.Some?
  }

  predicate FoundEmpty(s: State, pc: Pc)
    requires Sized(s)
  {
    pc.Blocked? && pc.port < PORT_NUM && s.pool.queues[pc.port] == []
  }

  /** The port whose empty queue the kthread's step puts a message on. */
  function Fills(s: State): Option<nat>
    requires Sized(s)
  {
    if s.k.KFilled? && s.k.slot < |s.desc| && s.desc[s.k.slot].port < PORT_NUM
       && s.pool.queues[s.desc[s.k.slot].port] == []
    then Some(s.desc[s.k.slot].port) else None
  }

  function Follow(w: World, ev: Event): World
    requires Possible(w, ev)
  {
    match ev
    case Do(step) =>
      World(Next(w.s, step),
            if step.GiveUp? then w.asleep - {step.t} else w.asleep,
            if step.Kthread? then Fills(w.s) else w.due)
    case Sleep(t) => w.(asleep := w.asleep + {t})
    case Wake => World(w.s, (set t | t in w.asleep && !WaitsOn(w.s, t, w.due.value)), None)
  }

  predicate WaitsOn(s: State, t: nat, p: nat) {
    t < |s.threads| && s.threads[t] == Blocked(p)
  }

  ghost predicate IsHistory(w: World, evs: seq<Event>)
    decreases |evs|
  {
    evs == [] || (Possible(w, evs[0]) && IsHistory(Follow(w, evs[0]), evs[1..]))
  }

  ghost function End(w: World, evs: seq<Event>): World
    requires IsHistory(w, evs)
    decreases |evs|
  {
    if evs == [] then w else End(Follow(w, evs[0]), evs[1..])
  }

  /** A sleeping reader's queue is empty, or the wake-up for its port is about to come. */
  ghost predicate Rested(w: World) {
    && Sized(w.s)
    && forall t :: t in w.asleep ==>
         && t < |w.s.threads| && w.s.threads[t].Blocked? && w.s.threads[t].port < PORT_NUM
         && (w.s.pool.queues[w.s.threads[t].port] == [] || w.due == Some(w.s.threads[t].port))
  }

  /** A flush moves no thread and fills no empty queue. */
  lemma {:induction false} FlushMoves(s: State, p: nat, r: nat)
    requires Sized(s) && p < PORT_NUM && r < PORT_NUM
    ensures var e := FlushPort(s, p);
            && e.threads == s.threads && |e.pool.queues| == PORT_NUM
            && (s.pool.queues[r] == [] ==> e.pool.queues[r] == [])
    decreases |s.pool.queues[p]|
  {
    if s.pool.queues[p] != [] {
      var x := s.pool.queues[p][0];
      match s.BufOf(s.desc[x])
      case None =>
      case Some(b) =>
        var armed := if b < BUFS then s.armed[b := true] else s.armed;
        FlushMoves(s.(pool := s.pool.Dequeue(p).PushFree(x), armed := armed), p, r);
    }
  }

  /** Only the kthread's placing step makes an empty queue of a port non-empty. */
  lemma StaysEmpty(s: State, step: Step, p: nat)
    requires Enabled(s, step) && p < PORT_NUM && s.pool.queues[p] == []
    ensures |Next(s, step).pool.queues| == PORT_NUM
    ensures Next(s, step).pool.queues[p] == [] || (step.Kthread? && Fills(s) == Some(p))
  {
    if step.Flush? { FlushMoves(Unlocked(s, step.t, s.threads[step.t].port), s.threads[step.t].port, p); }
  }

  /** A blocked reader is moved only by its own retry or by a signal. */
  lemma StaysBlocked(s: State, step: Step, t: nat)
    requires Enabled(s, step) && t < |s.threads| && s.threads[t].Blocked?
    requires !(step.Retry? && step.t == t) && !(step.GiveUp? && step.t == t)
    ensures |Next(s, step).threads| == |s.threads| && Next(s, step).threads[t] == s.threads[t]
  {
    if step.Flush? { FlushMoves(Unlocked(s, step.t, s.threads[step.t].port), s.threads[step.t].port, 0); }
  }

  lemma EventRests(w: World, ev: Event)
    requires Rested(w) && Possible(w, ev) && Sized(Follow(w, ev).s)
    ensures Rested(Follow(w, ev))
  {
    var e := Follow(w, ev);
    if ev.Do? {
      hide Next, Enabled;
      forall t | t in e.asleep
        ensures && t < |e.s.threads| && e.s.threads[t].Blocked? && e.s.threads[t].port < PORT_NUM
                && (e.s.pool.queues[e.s.threads[t].port] == [] || e.due == Some(e.s.threads[t].port))
      {
        StaysBlocked(w.s, ev.step, t);
        if w.s.pool.queues[w.s.threads[t].port] == [] { StaysEmpty(w.s, ev.step, w.s.threads[t].port); }
      }
    }
  }

  lemma EventKeeps(w: World, ev: Event)
    requires Inv(w.s) && Possible(w, ev)
    ensures Inv(Follow(w, ev).s) && Sized(Follow(w, ev).s)
  {
    if ev.Do? { StepKeeps(w.s, ev.step); }
  }

  lemma {:induction false} HistoryRests(w: World, evs: seq<Event>)
    requires Inv(w.s) && Rested(w) && IsHistory(w, evs)
    ensures Rested(End(w, evs))
    decreases |evs|
  {
    hide Inv, Rested, Possible, Follow;
    if evs != [] {
      EventKeeps(w, evs[0]);
      EventRests(w, evs[0]);
      HistoryRests(Follow(w, evs[0]), evs[1..]);
    }
  }

  /**
   Over every history no reader is left asleep: one that sleeps beside a message on its port is
   about to be woken.
   */
  lemma LongReadersWoken(threads: nat, rdmaSize: nat, evs: seq<Event>, t: nat)
    requires IsHistory(World(Init(threads, rdmaSize), {}, None), evs)
    requires t in End(World(Init(threads, rdmaSize), {}, None), evs).asleep
    ensures var w := End(World(Init(threads, rdmaSize), {}, None), evs);
            && Sized(w.s) && t < |w.s.threads| && w.s.threads[t].Blocked? && w.s.threads[t].port < PORT_NUM
            && (w.s.pool.queues[w.s.threads[t].port] != [] ==> w.due == Some(w.s.threads[t].port))
  {
    InitInv(threads, rdmaSize);
    HistoryRests(World(Init(threads, rdmaSize), {}, None), evs);
  }
}
