/**
 RAW reception as a machine over its atomic steps: the NIC filling the RX FIFO and raising its
 interrupt, the interrupt handler, the RAW kthread, and any number of threads receiving from or
 flushing a port.

 One step each: the interrupt handler; one evaluation of either half of the kthread's wait
 condition; each access to the software queue under its spin lock; a mutex operation; the
 increment and the wake-up inside axiom_kthread_wakeup, which are two steps.
 */
module RawReceive {
  import opened Axiom
  import opened SlotPool

  const SCHEDULED_MOD: nat := 0x1_0000_0000

  datatype Msg = Msg(port: nat, body: nat)

  /** The kthread: axkt_worker's wait, then axiom_raw_rx_dequeue. */
  datatype KPc =
    | Prepare | CheckCounter | CheckWork | Asleep
    | Start | Loop | Pop | Got(slot: nat) | Filled(slot: nat)

  /** A thread in axiomnet_raw_recv or axiomnet_raw_flush. */
  datatype Pc =
    | Idle
    | Locked(port: nat) | Checked(port: nat) | Blocked(port: nat)
    | Reading(port: nat, slot: nat, msg: Msg)
    | FlushLocked(port: nat)
    | MustCount | MustWake

  /**
   The last four fields only record history: all arrivals, what left each port's queue, and how
   often the kthread was told to look, in all and before it last read the counter.
   */
  datatype State = State(fifo: seq<Msg>, irq: bool, pool: Pool, desc: seq<Msg>,
                         mutex: seq<Option<nat>>, threads: seq<Pc>,
                         k: KPc, seen: nat, scheduled: nat, woken: bool,
                         arrived: seq<Msg>, served: seq<seq<Msg>>, wakes: nat, seenWakes: nat)
  {
    /** axiomnet_raw_rx_work_todo */
    predicate WorkToDo() { fifo != [] && pool.free != [] }
  }

  function Init(threads: nat, slots: nat): State {
    State([], false, Fresh(PORT_NUM, slots), seq(slots, _ => Msg(0, 0)),
          seq(PORT_NUM, _ => None), seq(threads, _ => Idle),
          Prepare, 0, 0, false, [], seq(PORT_VALUES, _ => []), 0, 0)
  }

  datatype Step =
    | Arrive(msg: Msg) | Interrupt | Kthread
    | Lock(t: nat, port: nat) | FlushLock(t: nat, port: nat)
    | Check(t: nat) | Retry(t: nat) | GiveUp(t: nat)
    | Take(t: nat) | GiveBack(t: nat) | Flush(t: nat) | CountUp(t: nat) | WakeUp(t: nat)

  predicate Sized(s: State) {
    && |s.desc| == s.pool.size && |s.pool.queues| == |s.mutex| == PORT_NUM && |s.served| == PORT_VALUES
    && forall i :: 0 <= i < |s.pool.queues| ==>
         forall j :: 0 <= j < |s.pool.queues[i]| ==> s.pool.queues[i][j] < |s.desc|
  }

  predicate Enabled(s: State, step: Step) {
    Sized(s) &&
    match step
    case Arrive(msg) => msg.port < PORT_VALUES
    case Interrupt => s.irq
    case Kthread => KEnabled(s)
    case _ => step.t < |s.threads| && EnabledAt(s, step, s.threads[step.t])
  }

  predicate KEnabled(s: State) {
    match s.k
    case Asleep => s.woken
    case Got(slot) => slot < |s.desc| && s.fifo != []
    case Filled(slot) => slot < |s.desc| && s.desc[slot].port < PORT_VALUES
    case _ => true
  }

  predicate EnabledAt(s: State, step: Step, pc: Pc)
    requires Sized(s) && !step.Arrive? && !step.Interrupt? && !step.Kthread?
  {
    match step
    case Lock(_, p) => pc.Idle? && p < PORT_NUM && s.mutex[p].None?
    case FlushLock(_, p) => pc.Idle? && p < PORT_NUM && s.mutex[p].None?
    case Check(_) => pc.Locked? && pc.port < PORT_NUM
    case Retry(_) => pc.Blocked? && pc.port < PORT_NUM && s.mutex[pc.port].None?
    case GiveUp(_) => pc.Blocked?
    case Take(_) => pc.Checked? && pc.port < PORT_NUM
    case GiveBack(_) => pc.Reading?
    case Flush(_) => pc.FlushLocked? && pc.port < PORT_NUM
    case CountUp(_) => pc.MustCount?
    case WakeUp(_) => pc.MustWake?
  }

  function Goto(s: State, t: nat, pc: Pc): State
    requires t < |s.threads|
  {
    s.(threads := s.threads[t := pc])
  }

  function Next(s: State, step: Step): State
    requires Enabled(s, step)
  {
    match step
    case Arrive(msg) => s.(fifo := s.fifo + [msg], irq := s.irq || s.fifo == [], arrived := s.arrived + [msg])
    case Interrupt =>
      s.(irq := false, scheduled := (s.scheduled + 1) % SCHEDULED_MOD, wakes := s.wakes + 1, woken := true)
    case Kthread => KNext(s)
    case Lock(t, p) => Goto(s, t, Locked(p)).(mutex := s.mutex[p := Some(t)])
    case FlushLock(t, p) => Goto(s, t, FlushLocked(p)).(mutex := s.mutex[p := Some(t)])
    case Check(t) =>
      var p := s.threads[t].port;
      if s.pool.queues[p] != [] then Goto(s, t, Checked(p))
      else Goto(s, t, Blocked(p)).(mutex := s.mutex[p := None])
    case Retry(t) =>
      var p := s.threads[t].port;
      Goto(s, t, Locked(p)).(mutex := s.mutex[p := Some(t)])
    case GiveUp(t) => Goto(s, t, Idle)
    case Take(t) => TakeMsg(s, t, s.threads[t].port)
    case GiveBack(t) => GiveSlotBack(s, t, s.threads[t].slot)
    case Flush(t) => FlushPort(s, t, s.threads[t].port)
    case CountUp(t) =>
      Goto(s, t, MustWake).(scheduled := (s.scheduled + 1) % SCHEDULED_MOD, wakes := s.wakes + 1)
    case WakeUp(t) => Goto(s, t, Idle).(woken := true)
  }

  function KNext(s: State): State
    requires Sized(s) && KEnabled(s)
  {
    match s.k
    case Prepare => s.(woken := false, k := CheckCounter)
    case CheckCounter => s.(k := if s.scheduled != s.seen then Start else CheckWork)
    case CheckWork => s.(k := if s.WorkToDo() then Start else Asleep)
    case Asleep => s.(k := Prepare)
    case Start => s.(seen := s.scheduled, seenWakes := s.wakes, k := Loop)
    case Loop => s.(k := if s.WorkToDo() then KPc.Pop else Prepare)
    case Pop =>
      if s.pool.free == [] then s.(k := Prepare)
      else s.(pool := s.pool.PopFree(), k := Got(s.pool.free[0]))
    case Got(slot) => s.(desc := s.desc[slot := s.fifo[0]], fifo := s.fifo[1..], k := Filled(slot))
    case Filled(slot) => Place(s, slot)
  }

  /** A message for a port above AXIOM_PORT_MAX is dropped, any other is queued. */
  function Place(s: State, slot: nat): State
    requires Sized(s) && slot < |s.desc| && s.desc[slot].port < PORT_VALUES
  {
    var p := s.desc[slot].port;
    if p >= PORT_NUM then
      s.(pool := s.pool.PushFree(slot), served := s.served[p := s.served[p] + [s.desc[slot]]], k := Loop)
    else
      s.(pool := s.pool.Enqueue(p, slot), k := Loop)
  }

  /** An empty queue here is the branch marked impossible. */
  function TakeMsg(s: State, t: nat, p: nat): State
    requires Sized(s) && t < |s.threads| && p < PORT_NUM
  {
    var s := s.(mutex := s.mutex[p := None]);
    if s.pool.queues[p] == [] then Goto(s, t, Idle)
    else
      var slot := s.pool.queues[p][0];
      var msg := s.desc[slot];
      Goto(s, t, Reading(p, slot, msg)).(pool := s.pool.Dequeue(p), served := s.served[p := s.served[p] + [msg]])
  }

  /** The kthread is told only if the free list was empty. */
  function GiveSlotBack(s: State, t: nat, slot: nat): State
    requires t < |s.threads|
  {
    Goto(s, t, if s.pool.free == [] then MustCount else Idle).(pool := s.pool.PushFree(slot))
  }

  function FlushPort(s: State, t: nat, p: nat): State
    requires Sized(s) && t < |s.threads| && p < PORT_NUM
  {
    Goto(s, t, MustCount).(
      pool := s.pool.Flush(p), served := s.served[p := s.served[p] + Contents(s.desc, s.pool.queues[p])],
      mutex := s.mutex[p := None])
  }

  function Contents(desc: seq<Msg>, q: seq<nat>): seq<Msg>
    requires forall i :: 0 <= i < |q| ==> q[i] < |desc|
  {
    seq(|q|, i requires 0 <= i < |q| => desc[q[i]])
  }

  function OnPort(ms: seq<Msg>, p: nat): seq<Msg> {
    if ms == [] then []
    else if ms[0].port == p then [ms[0]] + OnPort(ms[1..], p) else OnPort(ms[1..], p)
  }

  ghost predicate IsRun(s: State, steps: seq<Step>)
    decreases |steps|
  {
    steps == [] || (Enabled(s, steps[0]) && IsRun(Next(s, steps[0]), steps[1..]))
  }

  ghost function After(s: State, steps: seq<Step>): State
    requires IsRun(s, steps)
    decreases |steps|
  {
    if steps == [] then s else After(Next(s, steps[0]), steps[1..])
  }

  // ---------------------------------------------------------------- slots and mutexes

  /** A slot is on one of the pool's lists, or has one holder. */
  datatype Owner = Listed | HeldByKthread | HeldBy(t: nat)

  function KSlot(k: KPc): Option<nat> {
    match k
    case Got(slot) => Some(slot)
    case Filled(slot) => Some(slot)
    case _ => None
  }

  ghost predicate SlotInv(s: State, own: seq<Owner>) {
    && Sized(s) && s.pool.Wf() && |own| == s.pool.size
    && (forall x :: 0 <= x < |own| ==> (own[x] == Listed <==> !s.pool.Held(x)))
    && (forall x :: 0 <= x < |own| && own[x] == HeldByKthread ==> KSlot(s.k) == Some(x))
    && (KSlot(s.k).Some? ==> KSlot(s.k).value < |own| && own[KSlot(s.k).value] == HeldByKthread)
    && (forall x :: 0 <= x < |own| && own[x].HeldBy? ==>
          own[x].t < |s.threads| && s.threads[own[x].t].Reading? && s.threads[own[x].t].slot == x)
    && (forall t :: 0 <= t < |s.threads| && s.threads[t].Reading? ==>
          s.threads[t].slot < |own| && own[s.threads[t].slot] == HeldBy(t))
  }

  ghost predicate Owned(s: State) {
    exists own :: SlotInv(s, own)
  }

  ghost predicate InMutex(pc: Pc) { pc.Locked? || pc.Checked? || pc.FlushLocked? }

  /** What a check has seen is still there when it is used. */
  ghost predicate CheckInv(s: State) {
    && Sized(s)
    && (forall t :: 0 <= t < |s.threads| && InMutex(s.threads[t]) ==>
          && s.threads[t].port < PORT_NUM && s.mutex[s.threads[t].port] == Some(t)
          && (s.threads[t].Checked? ==> s.pool.queues[s.threads[t].port] != []))
    && (s.k.Pop? ==> s.WorkToDo())
    && (s.k.Got? ==> s.fifo != [])
  }

  // ---------------------------------------------------------------- contents

  /** The message the kthread has taken off the FIFO and not yet placed. */
  function InHand(s: State, p: nat): seq<Msg> {
    if s.k.Filled? && s.k.slot < |s.desc| && s.desc[s.k.slot].port == p then [s.desc[s.k.slot]] else []
  }

  function Queued(s: State, p: nat): seq<Msg>
    requires Sized(s)
  {
    if p < PORT_NUM then Contents(s.desc, s.pool.queues[p]) else []
  }

  ghost predicate Delivered(s: State, p: nat)
    requires Sized(s) && p < PORT_VALUES
  {
    s.served[p] + Queued(s, p) + InHand(s, p) + OnPort(s.fifo, p) == OnPort(s.arrived, p)
  }

  ghost predicate ContentInv(s: State) {
    && Sized(s)
    && (forall p :: 0 <= p < PORT_VALUES ==> Delivered(s, p))
    && (forall i :: 0 <= i < |s.fifo| ==> s.fifo[i].port < PORT_VALUES)
    && (s.k.Filled? ==> s.k.slot < |s.desc| && s.desc[s.k.slot].port < PORT_VALUES)
    && (forall t :: 0 <= t < |s.threads| && s.threads[t].Reading? ==>
          s.threads[t].slot < |s.desc| && s.desc[s.threads[t].slot] == s.threads[t].msg)
  }

  // ---------------------------------------------------------------- wake-ups

  ghost predicate WillWake(s: State, t: nat) {
    t < |s.threads| && (s.threads[t].MustCount? || s.threads[t].MustWake?)
  }

  /** The kthread has been woken, or the interrupt is pending, or some thread is about to wake it. */
  ghost predicate WakePending(s: State) {
    s.woken || s.irq || exists t :: WillWake(s, t)
  }

  ghost predicate WakeInv(s: State) {
    s.k.Asleep? && s.WorkToDo() ==> WakePending(s)
  }

  /** A kthread past its look at the counter learns of every later change by being woken. */
  ghost predicate NoticeInv(s: State) {
    (s.k.CheckWork? || s.k.Asleep?) && s.scheduled != s.seen ==>
      s.woken || exists t :: 0 <= t < |s.threads| && s.threads[t].MustWake?
  }

  /** The kthread's counters are the recorded numbers of wake-ups, in 32 bits. */
  ghost predicate CounterInv(s: State) {
    && s.scheduled == s.wakes % SCHEDULED_MOD && s.seen == s.seenWakes % SCHEDULED_MOD
    && s.seenWakes <= s.wakes
  }

  ghost predicate Inv(s: State) {
    Owned(s) && CheckInv(s) && ContentInv(s) && WakeInv(s) && CounterInv(s) && NoticeInv(s)
  }
}
