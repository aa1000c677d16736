/**
 The RDMA transmit protocol as a machine over its atomic steps: any number of threads inside
 `axiomnet_rdma_tx` (synchronous, asynchronous, or called by `axiomnet_long_send` with a
 callback), and the receive kthread handling acknowledgements.

 One step each: taking a mutex; the availability check made under it; the pop that follows
 together with the unlock; filling in a slot and transmitting it; leaving the wait because the
 acknowledgement arrived; leaving it because of a signal; a push; handling one acknowledgement.
 */
module RdmaProtocol {
  import opened Axiom
  import opened SlotPool

  const LONG_BUFS: nat := 32
  const MAX_RETRY: nat := 1000
  /** `msg_id_counter` and a token's value have 32 bits. */
  const COUNTER_MOD: nat := 0x1_0000_0000
  /** `retries` has 8 bits. */
  const RETRIES_MOD: Width := 256

  /** `axiom_rdma_status_t`; a callback is the LONG buffer it will give back. */
  datatype Status = Status(counter: nat, retries: nat, ackReceived: bool, ackWaiting: bool,
                           queueSlot: nat, callback: Option<nat>, dst: nat)

  type Width = n: nat | n > 0 witness 1

  datatype Call = Sync | Async | Long(buf: nat)

  /** Where a thread is. The Long... points are in axiomnet_long_send, the others in axiomnet_rdma_tx. */
  datatype Pc =
    | Idle
    | LongLocked | LongChecked | LongBlocked
    | LongHeld(buf: nat) | LongFailed(buf: nat)
    | TxLocked(call: Call) | TxChecked(call: Call) | TxBlocked(call: Call)
    | TxHeld(call: Call, slot: nat)
    | Waiting(slot: nat) | Releasing(slot: nat)

  /** History: one transmitted operation, its slot, the token value it was given, whereto, and for what call. */
  datatype Operation = Operation(slot: nat, value: nat, birth: nat, dst: nat, call: Call)

  /**
   The last four fields only record history: final acknowledgements per slot, the operation
   last transmitted from each slot, all operations, and those finally acknowledged.
   */
  datatype State = State(retriesMod: Width, rdma: Pool, status: seq<Status>, long: Pool,
                         rdmaMutex: Option<nat>, longMutex: Option<nat>, threads: seq<Pc>,
                         completions: seq<nat>, current: seq<nat>, ops: seq<Operation>, done: set<nat>)
  {
    /** An operation was transmitted from slot m, and current[m] is the last. */
    predicate LastFrom(m: nat)
      requires m < |current|
    {
      current[m] < |ops| && ops[current[m]].slot == m
    }
  }

  function Init(threads: nat, retriesMod: Width): State {
    State(retriesMod, Fresh(0, MSG_ID_NUM),
          seq(MSG_ID_NUM, _ => Status(0, 0, false, false, 0, None, NULL_NODE)),
          Fresh(0, LONG_BUFS), None, None, seq(threads, _ => Idle),
          seq(MSG_ID_NUM, _ => 0), seq(MSG_ID_NUM, _ => 0), [], {})
  }

  datatype Step =
    | LongCall(t: nat) | LongCheck(t: nat) | LongRetry(t: nat) | LongGiveUp(t: nat)
    | LongPop(t: nat) | LongReject(t: nat) | LongSubmit(t: nat) | LongPush(t: nat)
    | TxCall(t: nat, async: bool) | TxCheck(t: nat, hwSpace: bool) | TxRetry(t: nat) | TxGiveUp(t: nat)
    | TxPop(t: nat) | Transmit(t: nat, dst: nat)
    | WakeAcked(t: nat) | Release(t: nat) | Interrupt(t: nat)
    | Ack(slot: nat, src: nat, error: bool)

  predicate Enabled(s: State, step: Step) {
    if step.Ack? then step.slot < |s.status| == |s.completions| == |s.current| && step.src < NULL_NODE
    else step.t < |s.threads| && EnabledAt(s, step, s.threads[step.t])
  }

  predicate EnabledAt(s: State, step: Step, pc: Pc)
    requires !step.Ack?
  {
    match step
    case LongCall(_) => pc.Idle? && s.longMutex.None?
    case LongCheck(_) => pc.LongLocked?
    case LongRetry(_) => pc.LongBlocked? && s.longMutex.None?
    case LongGiveUp(_) => pc.LongBlocked?
    case LongPop(_) => pc.LongChecked?
    case LongReject(_) => pc.LongHeld?
    case LongSubmit(_) => pc.LongHeld? && s.rdmaMutex.None?
    case LongPush(_) => pc.LongFailed?
    case TxCall(_, _) => pc.Idle? && s.rdmaMutex.None?
    case TxCheck(_, _) => pc.TxLocked?
    case TxRetry(_) => pc.TxBlocked? && s.rdmaMutex.None?
    case TxGiveUp(_) => pc.TxBlocked?
    case TxPop(_) => pc.TxChecked?
    case Transmit(_, dst) => pc.TxHeld? && dst <= NULL_NODE && pc.slot < |s.status| == |s.completions| == |s.current|
    case WakeAcked(_) => pc.Waiting? && pc.slot < |s.status| && s.status[pc.slot].ackReceived
    case Release(_) => pc.Releasing?
    case Interrupt(_) => pc.Waiting? && pc.slot < |s.status| && !s.status[pc.slot].ackReceived
  }

  /** What an error return of axiomnet_rdma_tx leads to: axiomnet_long_send still has its buffer. */
  function Failed(call: Call): Pc {
    if call.Long? then LongFailed(call.buf) else Idle
  }

  function Goto(s: State, t: nat, pc: Pc): State
    requires t < |s.threads|
  {
    s.(threads := s.threads[t := pc])
  }

  function Next(s: State, step: Step): State
    requires Enabled(s, step)
  {
    if step.Ack? then HandleAck(s, step.slot, step.src, step.error)
    else ThreadStep(s, step, step.t, s.threads[step.t])
  }

  function ThreadStep(s: State, step: Step, t: nat, pc: Pc): State
    requires !step.Ack? && step.t == t < |s.threads| && s.threads[t] == pc && EnabledAt(s, step, pc)
  {
    match step
    case LongCall(_) => Goto(s, t, LongLocked).(longMutex := Some(t))
    case LongCheck(_) =>
      if s.long.free != [] then Goto(s, t, LongChecked) else Goto(s, t, LongBlocked).(longMutex := None)
    case LongRetry(_) => Goto(s, t, LongLocked).(longMutex := Some(t))
    case LongGiveUp(_) => Goto(s, t, Idle)
    case LongPop(_) => PopBuf(s, t)
    case LongReject(_) => Goto(s, t, LongFailed(pc.buf))
    case LongSubmit(_) => Goto(s, t, TxLocked(Long(pc.buf))).(rdmaMutex := Some(t))
    case LongPush(_) => PushBuf(s, t, pc.buf)
    case TxCall(_, async) => Goto(s, t, TxLocked(if async then Async else Sync)).(rdmaMutex := Some(t))
    case TxCheck(_, hwSpace) =>
      if hwSpace && s.rdma.free != [] then Goto(s, t, TxChecked(pc.call))
      else Goto(s, t, TxBlocked(pc.call)).(rdmaMutex := None)
    case TxRetry(_) => Goto(s, t, TxLocked(pc.call)).(rdmaMutex := Some(t))
    case TxGiveUp(_) => Goto(s, t, Failed(pc.call))
    case TxPop(_) => PopSlot(s, t, pc.call)
    case Transmit(_, dst) => DoTransmit(s, t, pc.call, pc.slot, dst)
    case WakeAcked(_) => CollectAck(s, t, pc.slot)
    case Release(_) => PushSlot(s, t, pc.slot)
    case Interrupt(_) => StopWaiting(s, t, pc.slot)
  }

  /** The pops; an empty free list is the branch marked impossible. */
  function PopBuf(s: State, t: nat): State
    requires t < |s.threads|
  {
    if s.long.free == [] then Goto(s, t, Idle).(longMutex := None)
    else Goto(s, t, LongHeld(s.long.free[0])).(longMutex := None, long := s.long.PopFree())
  }

  function PopSlot(s: State, t: nat, call: Call): State
    requires t < |s.threads|
  {
    if s.rdma.free == [] then Goto(s, t, Failed(call)).(rdmaMutex := None)
    else Goto(s, t, TxHeld(call, s.rdma.free[0])).(rdmaMutex := None, rdma := s.rdma.PopFree())
  }

  function PushBuf(s: State, t: nat, b: nat): State
    requires t < |s.threads|
  {
    Goto(s, t, Idle).(long := s.long.PushFree(b))
  }

  function PushSlot(s: State, t: nat, m: nat): State
    requires t < |s.threads|
  {
    Goto(s, t, Idle).(rdma := s.rdma.PushFree(m))
  }

  /** The acknowledgement has arrived: the waiting sender marks its slot idle. */
  function CollectAck(s: State, t: nat, m: nat): State
    requires t < |s.threads| && m < |s.status|
  {
    Goto(s, t, Releasing(m)).(status := s.status[m := s.status[m].(ackReceived := false, dst := NULL_NODE)])
  }

  /** A signal ends the wait: nobody will collect the acknowledgement any more. */
  function StopWaiting(s: State, t: nat, m: nat): State
    requires t < |s.threads| && m < |s.status|
  {
    Goto(s, t, Idle).(status := s.status[m := s.status[m].(ackWaiting := false)])
  }

  /** The fields a sender writes before handing the slot's header to the NIC. */
  function Prepared(st: Status, m: nat, call: Call, dst: nat): Status {
    st.(ackReceived := false, queueSlot := m, retries := 0, dst := dst, ackWaiting := call.Sync?,
        callback := if call.Long? then Some(call.buf) else None)
  }

  function DoTransmit(s: State, t: nat, call: Call, m: nat, dst: nat): State
    requires t < |s.threads| && m < |s.status| == |s.completions| == |s.current|
  {
    var st := s.status[m];
    Goto(s, t, if call.Sync? then Waiting(m) else Idle).(
      status := s.status[m := Prepared(st, m, call, dst)],
      current := s.current[m := |s.ops|],
      ops := s.ops + [Operation(m, st.counter, s.completions[m], dst, call)])
  }

  datatype Verdict = Discarded | Resent | Final

  /** What the kthread does with an acknowledgement for a slot in status `st`. */
  function Judge(st: Status, src: nat, error: bool): Verdict {
    if st.dst != src then Discarded
    else if error && st.retries < MAX_RETRY then Resent
    else Final
  }

  function Resend(st: Status, retriesMod: Width): Status {
    st.(retries := (st.retries + 1) % retriesMod)
  }

  /** The status a final acknowledgement leaves, for a waiting sender or for nobody. */
  function Completed(st: Status): Status {
    var st := st.(counter := (st.counter + 1) % COUNTER_MOD);
    if st.ackWaiting then st.(ackReceived := true) else st.(ackReceived := false, dst := NULL_NODE)
  }

  function HandleAck(s: State, m: nat, src: nat, error: bool): State
    requires m < |s.status| == |s.completions| == |s.current|
  {
    var st := s.status[m];
    match Judge(st, src, error)
    case Discarded => s
    case Resent => s.(status := s.status[m := Resend(st, s.retriesMod)])
    case Final =>
      var s := s.(status := s.status[m := Completed(st)],
                  completions := s.completions[m := s.completions[m] + 1],
                  done := if s.LastFrom(m) then s.done + {s.current[m]} else s.done);
      if st.ackWaiting then s
      else s.(rdma := s.rdma.PushFree(st.queueSlot),
              long := if st.callback.Some? then s.long.PushFree(st.callback.value) else s.long)
  }

  // ---------------------------------------------------------------- runs

  ghost predicate IsRun(s: State, steps: seq<Step>)
    decreases |steps|
  {
    steps == [] || (Enabled(s, steps[0]) && IsRun(Next(s, steps[0]), steps[1..]))
  }

  ghost function After(s: State, steps: seq<Step>): State
    requires IsRun(s, steps)
    decreases |steps|
  {
    if steps == [] then s else After(Next(s, steps[0]), steps[1..])
  }

  // ---------------------------------------------------------------- who has what

  function SlotOf(pc: Pc): Option<nat> {
    match pc
    case TxHeld(_, m) => Some(m)
    case Waiting(m) => Some(m)
    case Releasing(m) => Some(m)
    case _ => None
  }

  function CallBuf(call: Call): Option<nat> {
    if call.Long? then Some(call.buf) else None
  }

  function BufOf(pc: Pc): Option<nat> {
    match pc
    case LongHeld(b) => Some(b)
    case LongFailed(b) => Some(b)
    case TxLocked(call) => CallBuf(call)
    case TxChecked(call) => CallBuf(call)
    case TxBlocked(call) => CallBuf(call)
    case TxHeld(call, _) => CallBuf(call)
    case _ => None
  }

  /** The owner of an RDMA slot and of a LONG buffer. `InFlight` slots belong to the NIC. */
  datatype Owner = Free | Thread(t: nat) | InFlight
  datatype BufOwner = BufFree | BufThread(t: nat) | BufInFlight(slot: nat)

  ghost predicate Shape(s: State) {
    && s.rdma.Wf() && s.rdma.queues == []
    && s.rdma.size == |s.status| == |s.completions| == |s.current|
  }

  ghost predicate SlotsOwned(s: State, own: seq<Owner>) {
    && Shape(s) && |own| == |s.status|
    && (forall m :: 0 <= m < |own| ==> (own[m] == Free <==> m in s.rdma.free))
    && (forall m :: 0 <= m < |own| && own[m].Thread? ==>
          own[m].t < |s.threads| && SlotOf(s.threads[own[m].t]) == Some(m))
    && (forall t :: 0 <= t < |s.threads| && SlotOf(s.threads[t]).Some? ==>
          SlotOf(s.threads[t]).value < |own| && own[SlotOf(s.threads[t]).value] == Thread(t))
  }

  /** A slot nobody has transmitted from since it was last free; an operation waited for is done. */
  ghost predicate Unused(s: State, m: nat)
    requires m < |s.status| == |s.current|
  {
    s.status[m].dst == NULL_NODE && (s.status[m].ackWaiting ==> s.current[m] in s.done)
  }

  ghost predicate StatusFits(s: State, own: seq<Owner>, m: nat)
    requires SlotsOwned(s, own) && m < |own|
  {
    var st := s.status[m];
    match own[m]
    case Free => Unused(s, m)
    case InFlight => !st.ackWaiting && !st.ackReceived && st.queueSlot == m && s.current[m] !in s.done
    case Thread(t) =>
      if s.threads[t].Waiting? then
        st.ackWaiting && st.queueSlot == m && st.callback == None && (st.ackReceived <==> s.current[m] in s.done)
      else Unused(s, m)
  }

  ghost predicate SlotInv(s: State, own: seq<Owner>) {
    && SlotsOwned(s, own)
    && forall m :: 0 <= m < |own| ==> StatusFits(s, own, m)
  }

  ghost predicate Names(s: State, own: seq<Owner>, m: nat, b: nat)
    requires SlotsOwned(s, own) && m < |own|
  {
    own[m] == InFlight && s.status[m].callback == Some(b)
  }

  ghost predicate BufsFree(long: Pool, bown: seq<BufOwner>) {
    && long.Wf() && long.queues == [] && |bown| == long.size
    && (forall b :: 0 <= b < |bown| ==> (bown[b] == BufFree <==> b in long.free))
  }

  ghost predicate BufsHeld(threads: seq<Pc>, bown: seq<BufOwner>) {
    && (forall b :: 0 <= b < |bown| && bown[b].BufThread? ==>
          bown[b].t < |threads| && BufOf(threads[bown[b].t]) == Some(b))
    && (forall t :: 0 <= t < |threads| && BufOf(threads[t]).Some? ==>
          BufOf(threads[t]).value < |bown| && bown[BufOf(threads[t]).value] == BufThread(t))
  }

  ghost predicate BufsInFlight(s: State, own: seq<Owner>, bown: seq<BufOwner>)
    requires SlotsOwned(s, own)
  {
    && (forall b :: 0 <= b < |bown| && bown[b].BufInFlight? ==>
          bown[b].slot < |own| && Names(s, own, bown[b].slot, b))
    && (forall m :: 0 <= m < |own| && own[m] == InFlight && s.status[m].callback.Some? ==>
          s.status[m].callback.value < |bown| && bown[s.status[m].callback.value] == BufInFlight(m))
  }

  ghost predicate BufInv(s: State, own: seq<Owner>, bown: seq<BufOwner>) {
    SlotsOwned(s, own) && BufsFree(s.long, bown) && BufsHeld(s.threads, bown) && BufsInFlight(s, own, bown)
  }

  ghost predicate InTxMutex(pc: Pc) { pc.TxLocked? || pc.TxChecked? }
  ghost predicate InLongMutex(pc: Pc) { pc.LongLocked? || pc.LongChecked? }

  /** The mutexes exclude, so what a check under a mutex has seen is still there at the pop. */
  ghost predicate MutexInv(s: State) {
    forall t :: 0 <= t < |s.threads| ==>
      && (InTxMutex(s.threads[t]) ==> s.rdmaMutex == Some(t))
      && (InLongMutex(s.threads[t]) ==> s.longMutex == Some(t))
      && (s.threads[t].TxChecked? ==> s.rdma.free != [])
      && (s.threads[t].LongChecked? ==> s.long.free != [])
  }

  /** The slot's last operation has been transmitted and its slot not yet given up. */
  ghost predicate Live(s: State, own: seq<Owner>, m: nat)
    requires SlotsOwned(s, own) && m < |own|
  {
    own[m] == InFlight || (own[m].Thread? && s.threads[own[m].t].Waiting?)
  }

  ghost predicate TokenInv(s: State, own: seq<Owner>) {
    && SlotsOwned(s, own)
    && (forall m :: 0 <= m < |own| ==> s.status[m].counter == s.completions[m] % COUNTER_MOD)
    && (forall k :: k in s.done ==> k < |s.ops|)
    && (forall m :: 0 <= m < |own| && Live(s, own, m) ==>
          && s.LastFrom(m) && s.status[m].dst == s.ops[s.current[m]].dst
          && s.status[m].callback == CallBuf(s.ops[s.current[m]].call))
    && (forall k :: 0 <= k < |s.ops| ==>
          && s.ops[k].slot < |own|
          && s.ops[k].value == s.ops[k].birth % COUNTER_MOD
          && s.ops[k].birth <= s.completions[s.ops[k].slot]
          && (k in s.done <==> s.ops[k].birth < s.completions[s.ops[k].slot])
          && (k !in s.done ==> s.current[s.ops[k].slot] == k && Live(s, own, s.ops[k].slot)))
  }

  ghost predicate InvWith(s: State, own: seq<Owner>, bown: seq<BufOwner>) {
    SlotInv(s, own) && BufInv(s, own, bown) && MutexInv(s) && TokenInv(s, own)
  }

  ghost predicate Inv(s: State) {
    exists own, bown :: InvWith(s, own, bown)
  }
}
