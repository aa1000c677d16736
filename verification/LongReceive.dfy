/**
 LONG reception as a machine over its atomic steps. The NIC writes a message into a buffer that
 is flagged free, marks it busy and queues a descriptor with the buffer's address; the RDMA
 kthread moves descriptors to software slots; readers copy a buffer out, free the slot and only
 then arm the buffer again.
 Two pools of 32, hardware buffers and software slots, have to stay in step.
 */
module LongReceive {
  import opened Axiom
  import opened SlotPool
  import opened LongLayout

  /** A received descriptor; `long` tells LONG data from the types the kthread discards. */
  datatype Header = Header(long: bool, addr: nat, port: nat, payload: nat)

  datatype KPc = KIdle | KHas(header: Header) | KFilled(slot: nat)

  /** A thread in axiomnet_long_recv or axiomnet_long_flush. */
  datatype Pc =
    | Idle
    | Locked(port: nat) | Checked(port: nat) | Blocked(port: nat)
    | Reading(slot: nat, header: Header)
    | Rearm(buf: nat)
    | FlushLocked(port: nat)

  /**
   `armed` is the hardware's FREE flag of each buffer, `mem` what the NIC last wrote into it. The
   last four fields only record history: the buffers of discarded messages and their number, the
   buffers of messages read at an address in no buffer, and the slots a failing flush leaves out.
   */
  datatype State = State(rdmaSize: nat, armed: seq<bool>, mem: seq<nat>, fifo: seq<Header>,
                         pool: Pool, desc: seq<Header>, mutex: seq<Option<nat>>, threads: seq<Pc>,
                         k: KPc, lost: set<nat>, discards: nat, unfound: set<nat>, leaked: set<nat>)
  {
    /** The buffer the driver finds for a descriptor, and the one it is really about. */
    function BufOf(h: Header): Option<nat> { Rdma2Buf(h.addr, rdmaSize) }
    function Origin(h: Header): nat { GivenTo(h.addr, rdmaSize) }
  }

  function Init(threads: nat, rdmaSize: nat): State {
    State(rdmaSize, seq(BUFS, _ => true), seq(BUFS, _ => 0), [], Fresh(PORT_NUM, BUFS),
          seq(BUFS, _ => Header(false, 0, 0, 0)), seq(PORT_NUM, _ => None), seq(threads, _ => Idle),
          KIdle, {}, 0, {}, {})
  }

  datatype Step =
    | NicLong(buf: nat, header: Header) | NicOther(header: Header) | Kthread
    | Lock(t: nat, port: nat) | FlushLock(t: nat, port: nat)
    | Check(t: nat) | Retry(t: nat) | GiveUp(t: nat)
    | Take(t: nat) | GiveBack(t: nat) | Arm(t: nat) | Flush(t: nat)

  predicate Sized(s: State) {
    && |s.armed| == |s.mem| == BUFS && |s.desc| == s.pool.size == BUFS && |s.pool.queues| == |s.mutex| == PORT_NUM
    && forall i :: 0 <= i < |s.pool.queues| ==>
         forall j :: 0 <= j < |s.pool.queues[i]| ==> s.pool.queues[i][j] < |s.desc|
  }

  predicate Enabled(s: State, step: Step) {
    Sized(s) &&
    match step
    case NicLong(b, h) => b < BUFS && s.armed[b] && h.long && h.addr == HwAddr(s.rdmaSize, b)
    case NicOther(h) => !h.long
    case Kthread => (s.k.KIdle? ==> s.fifo != []) && (s.k.KFilled? ==> s.k.slot < |s.desc|)
    case _ => step.t < |s.threads| && EnabledAt(s, step, s.threads[step.t])
  }

  predicate EnabledAt(s: State, step: Step, pc: Pc)
    requires Sized(s) && !step.NicLong? && !step.NicOther? && !step.Kthread?
  {
    match step
    case Lock(_, p) => pc.Idle? && p < PORT_NUM && s.mutex[p].None?
    case FlushLock(_, p) => pc.Idle? && p < PORT_NUM && s.mutex[p].None?
    case Check(_) => pc.Locked? && pc.port < PORT_NUM
    case Retry(_) => pc.Blocked? && pc.port < PORT_NUM && s.mutex[pc.port].None?
    case GiveUp(_) => pc.Blocked?
    case Take(_) => pc.Checked? && pc.port < PORT_NUM
    case GiveBack(_) => pc.Reading?
    case Arm(_) => pc.Rearm? && pc.buf < BUFS
    case Flush(_) => pc.FlushLocked? && pc.port < PORT_NUM
  }

  function Goto(s: State, t: nat, pc: Pc): State
    requires t < |s.threads|
  {
    s.(threads := s.threads[t := pc])
  }

  function Next(s: State, step: Step): State
    requires Enabled(s, step)
  {
    match step
    case NicLong(b, h) => s.(armed := s.armed[b := false], mem := s.mem[b := h.payload], fifo := s.fifo + [h])
    case NicOther(h) => s.(fifo := s.fifo + [h])
    case Kthread => KNext(s)
    case Lock(t, p) => Goto(s, t, Locked(p)).(mutex := s.mutex[p := Some(t)])
    case FlushLock(t, p) => Goto(s, t, FlushLocked(p)).(mutex := s.mutex[p := Some(t)])
    case Check(t) =>
      var p := s.threads[t].port;
      if s.pool.queues[p] != [] then Goto(s, t, Checked(p))
      else Goto(s, t, Blocked(p)).(mutex := s.mutex[p := None])
    case Retry(t) =>
      var p := s.threads[t].port;
      Goto(s, t, Locked(p)).(mutex := s.mutex[p := Some(t)])
    case GiveUp(t) => Goto(s, t, Idle)
    case Take(t) => TakeMsg(s, t, s.threads[t].port)
    case GiveBack(t) => GiveSlotBack(s, t, s.threads[t].slot, s.threads[t].header)
    case Arm(t) => Goto(s, t, Idle).(armed := s.armed[s.threads[t].buf := true])
    case Flush(t) =>
      var p := s.threads[t].port;
      FlushPort(Goto(s, t, Idle).(mutex := s.mutex[p := None]), p)
  }

  function KNext(s: State): State
    requires Enabled(s, Kthread)
  {
    match s.k
    case KIdle =>
      if s.fifo[0].long then s.(fifo := s.fifo[1..], k := KHas(s.fifo[0])) else s.(fifo := s.fifo[1..])
    case KHas(h) => FillSlot(s, h)
    case KFilled(slot) => Place(s, slot)
  }

  /** Without a free slot the message is discarded: the branch "LONG SW queue empty". */
  function FillSlot(s: State, h: Header): State {
    if s.pool.free == [] || s.pool.free[0] >= |s.desc| then Discard(s, h)
    else
      var x := s.pool.free[0];
      s.(pool := s.pool.PopFree(), desc := s.desc[x := h], k := KFilled(x))
  }

  /** A message dropped after it was taken off the FIFO; nothing arms its buffer again. */
  function Discard(s: State, h: Header): State {
    s.(k := KIdle, discards := s.discards + 1, lost := s.lost + {s.Origin(h)})
  }

  function Place(s: State, slot: nat): State
    requires Sized(s) && slot < |s.desc|
  {
    var p := s.desc[slot].port;
    if p >= PORT_NUM then Discard(s, s.desc[slot]).(pool := s.pool.PushFree(slot))
    else s.(pool := s.pool.Enqueue(p, slot), k := KIdle)
  }

  function TakeMsg(s: State, t: nat, p: nat): State
    requires Sized(s) && t < |s.threads| && p < PORT_NUM
  {
    var s := s.(mutex := s.mutex[p := None]);
    if s.pool.queues[p] == [] then Goto(s, t, Idle)
    else
      var x := s.pool.queues[p][0];
      Goto(s, t, Reading(x, s.desc[x])).(pool := s.pool.Dequeue(p))
  }

  /** The slot is freed first; an address in no buffer leaves nothing to arm. */
  function GiveSlotBack(s: State, t: nat, slot: nat, h: Header): State
    requires t < |s.threads|
  {
    var s := s.(pool := s.pool.PushFree(slot));
    match s.BufOf(h)
    case Some(b) => Goto(s, t, Rearm(b))
    case None => Goto(s, t, Idle).(unfound := s.unfound + {s.Origin(h)})
  }

  /** The loop of axiomnet_long_flush, all of it under the queue lock. */
  function FlushPort(s: State, p: nat): State
    requires Sized(s) && p < PORT_NUM
    decreases |s.pool.queues[p]|
  {
    if s.pool.queues[p] == [] then s
    else
      var x := s.pool.queues[p][0];
      var s := s.(pool := s.pool.Dequeue(p));
      match s.BufOf(s.desc[x])
      case None => s.(leaked := s.leaked + {x})
      case Some(b) =>
        var armed := if b < BUFS then s.armed[b := true] else s.armed;
        FlushPort(s.(pool := s.pool.PushFree(x), armed := armed), p)
  }

  ghost predicate IsRun(s: State, steps: seq<Step>)
    decreases |steps|
  {
    steps == [] || (Enabled(s, steps[0]) && IsRun(Next(s, steps[0]), steps[1..]))
  }

  ghost function After(s: State, steps: seq<Step>): State
    requires IsRun(s, steps)
    decreases |steps|
  {
    if steps == [] then s else After(Next(s, steps[0]), steps[1..])
  }

  // ---------------------------------------------------------------- who has what

  datatype Owner = Listed | HeldByKthread | HeldBy(t: nat) | Leaked

  /** A hardware buffer is armed, or exactly one party still has its message, or it is gone. */
  datatype BufOwner = Armed | InFifo | WithKthread | InSlot(slot: nat) | Rearming(t: nat) | Lost | Unfound

  ghost predicate SlotInv(s: State, own: seq<Owner>) {
    && Sized(s) && s.pool.Wf() && |own| == s.pool.size
    && (forall x :: 0 <= x < |own| ==> (own[x] == Listed <==> !s.pool.Held(x)))
    && (forall x :: 0 <= x < |own| && own[x] == HeldByKthread ==> s.k == KFilled(x))
    && (s.k.KFilled? ==> s.k.slot < |own| && own[s.k.slot] == HeldByKthread)
    && (forall x :: 0 <= x < |own| && own[x].HeldBy? ==>
          own[x].t < |s.threads| && s.threads[own[x].t].Reading? && s.threads[own[x].t].slot == x)
    && (forall t :: 0 <= t < |s.threads| && s.threads[t].Reading? ==>
          s.threads[t].slot < |own| && own[s.threads[t].slot] == HeldBy(t))
    && (forall x :: 0 <= x < |own| ==> (own[x] == Leaked <==> x in s.leaked))
    && (forall x :: x in s.leaked ==> x < |own|)
  }

  ghost predicate Owned(s: State) {
    exists own :: SlotInv(s, own)
  }

  ghost predicate InMutex(pc: Pc) { pc.Locked? || pc.Checked? || pc.FlushLocked? }

  ghost predicate CheckInv(s: State) {
    && Sized(s)
    && (forall t :: 0 <= t < |s.threads| && InMutex(s.threads[t]) ==>
          && s.threads[t].port < PORT_NUM && s.mutex[s.threads[t].port] == Some(t)
          && (s.threads[t].Checked? ==> s.pool.queues[s.threads[t].port] != []))
  }

  /** The driver finds the header's buffer, or none if the buffer's address is too large. */
  ghost predicate Looked(s: State, h: Header) {
    s.BufOf(h) == if Findable(s.rdmaSize, s.Origin(h)) then Some(s.Origin(h)) else None
  }

  /** The header is about a buffer owned as `o` that still has the header's payload. */
  ghost predicate Fits(s: State, bown: seq<BufOwner>, h: Header, o: BufOwner) {
    && s.Origin(h) < |bown| == |s.mem| && Looked(s, h)
    && bown[s.Origin(h)] == o && s.mem[s.Origin(h)] == h.payload
  }

  ghost predicate FifoHas(s: State, b: nat) {
    exists i :: 0 <= i < |s.fifo| && s.fifo[i].long && s.Origin(s.fifo[i]) == b
  }

  ghost predicate FifoInv(s: State, bown: seq<BufOwner>) {
    && (forall i :: 0 <= i < |s.fifo| && s.fifo[i].long ==> Fits(s, bown, s.fifo[i], InFifo))
    && (forall i, j :: 0 <= i < j < |s.fifo| && s.fifo[i].long && s.fifo[j].long ==>
          s.Origin(s.fifo[i]) != s.Origin(s.fifo[j]))
    && (forall b :: 0 <= b < |bown| && bown[b] == InFifo ==> FifoHas(s, b))
  }

  /** The buffers of slots in use, of the kthread and of re-arming threads. */
  ghost predicate HolderInv(s: State, bown: seq<BufOwner>) {
    && (s.k.KHas? ==> Fits(s, bown, s.k.header, WithKthread))
    && (forall b :: 0 <= b < |bown| && bown[b] == WithKthread ==> s.k.KHas? && s.Origin(s.k.header) == b)
    && (forall x :: 0 <= x < |s.desc| && x !in s.pool.free ==> Fits(s, bown, s.desc[x], InSlot(x)))
    && (forall b :: 0 <= b < |bown| && bown[b].InSlot? ==>
          bown[b].slot < |s.desc| && bown[b].slot !in s.pool.free && s.Origin(s.desc[bown[b].slot]) == b)
    && (forall t :: 0 <= t < |s.threads| && s.threads[t].Rearm? ==>
          s.threads[t].buf < |bown| && bown[s.threads[t].buf] == Rearming(t))
    && (forall b :: 0 <= b < |bown| && bown[b].Rearming? ==>
          bown[b].t < |s.threads| && s.threads[bown[b].t] == Rearm(b))
    && (forall t :: 0 <= t < |s.threads| && s.threads[t].Reading? ==>
          s.threads[t].slot < |s.desc| && s.desc[s.threads[t].slot] == s.threads[t].header)
  }

  /** The hardware's flags and the recorded losses. */
  ghost predicate FlagInv(s: State, bown: seq<BufOwner>) {
    && |s.armed| == |bown| == BUFS
    && (forall b :: 0 <= b < |bown| ==> (bown[b] == Armed <==> s.armed[b]))
    && (forall b :: 0 <= b < |bown| ==> (bown[b] == Lost <==> b in s.lost))
    && (forall b :: 0 <= b < |bown| ==> (bown[b] == Unfound <==> b in s.unfound))
    && (forall b :: b in s.lost || b in s.unfound ==> b < BUFS) && |s.lost| == s.discards
    && (Addressable(s.rdmaSize) ==> s.unfound == {} && s.leaked == {})
  }

  ghost predicate BufInv(s: State, bown: seq<BufOwner>) {
    Sized(s) && FlagInv(s, bown) && FifoInv(s, bown) && HolderInv(s, bown)
  }

  ghost predicate Inv(s: State) {
    Owned(s) && CheckInv(s) && exists bown :: BufInv(s, bown)
  }
}
