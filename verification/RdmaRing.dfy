/**
 The driver's RDMA transmit ring itself: an array of statuses updated in place and two queue
 managers. Each method is one atomic section of the source and is proved to do to the arrays
 what the corresponding step does to the protocol state.
 */
module RdmaRings {
  import opened Axiom
  import opened EviQueues
  import opened RdmaProtocol
  import opened RdmaOwnership
  import opened RdmaWakeups

  datatype AckHeader = AckHeader(msgId: nat, src: nat, error: bool)

  /** Whatever the acknowledgement makes the driver push, it holds. */
  ghost predicate AckLegal(s: State, ack: AckHeader) {
    && Enabled(s, Ack(ack.msgId, ack.src, ack.error))
    && var st := s.status[ack.msgId];
       Judge(st, ack.src, ack.error) == Final && !st.ackWaiting ==>
         s.rdma.Held(st.queueSlot) && (st.callback.Some? ==> s.long.Held(st.callback.value))
  }

  ghost predicate AcksLegal(s: State, acks: seq<AckHeader>)
    decreases |acks|
  {
    acks == [] || (AckLegal(s, acks[0]) && AcksLegal(AfterAck(s, acks[0]), acks[1..]))
  }

  ghost function AfterAck(s: State, ack: AckHeader): State
    requires AckLegal(s, ack)
  {
    HandleAck(s, ack.msgId, ack.src, ack.error)
  }

  ghost function AfterAcks(s: State, acks: seq<AckHeader>): State
    requires AcksLegal(s, acks)
    decreases |acks|
  {
    if acks == [] then s else AfterAcks(AfterAck(s, acks[0]), acks[1..])
  }

  class RdmaRing {
    const desc: array<Status>
    const slots: EviQueue
    const bufs: EviQueue

    ghost predicate Valid()
      reads this, desc, slots, slots.Repr, bufs, bufs.Repr
    {
      && slots.Valid() && bufs.Valid()
      && slots.Repr !! bufs.Repr
      && {desc as object, this} !! slots.Repr + bufs.Repr
    }

    /** The arrays hold this protocol state. */
    ghost predicate Shows(s: State)
      reads this, desc, slots, slots.Repr, bufs, bufs.Repr
    {
      && Valid() && s.retriesMod == RETRIES_MOD
      && desc[..] == s.status && slots.model == s.rdma && bufs.model == s.long
    }

    /** `axiomnet_rdma_tx_hwring_init` */
    constructor (ghost threads: nat)
      ensures Shows(Init(threads, RETRIES_MOD))
    {
      var d := new Status[MSG_ID_NUM];
      for i := 0 to MSG_ID_NUM
        invariant forall j :: 0 <= j < i ==> d[j] == Status(0, 0, false, false, 0, None, NULL_NODE)
      {
        d[i] := Status(0, 0, false, false, 0, None, NULL_NODE);
      }
      desc := d;
      var q := new EviQueue(0, MSG_ID_NUM);
      var l := new EviQueue(0, LONG_BUFS);
      slots, bufs := q, l;
      new;
      assert desc[..] == Init(threads, RETRIES_MOD).status;
    }

    /** The pop made under the mutex (581-585); NONE is the branch marked impossible. */
    method TakeSlot(ghost s: State, ghost t: nat) returns (slot: int)
      requires Shows(s) && Enabled(s, TxPop(t))
      modifies slots
      ensures Shows(Next(s, TxPop(t)))
      ensures slot == NONE <==> s.rdma.free == []
      ensures slot != NONE ==> 0 <= slot && Next(s, TxPop(t)).threads[t] == TxHeld(s.threads[t].call, slot)
    {
      slot := slots.FreePop();
    }

    /** Fills in a slot for transmission and returns the token's value (593-627). */
    method Submit(ghost s: State, ghost t: nat, call: Call, slot: nat, dst: nat) returns (token: nat)
      requires Shows(s) && Enabled(s, Transmit(t, dst)) && s.threads[t] == TxHeld(call, slot)
      modifies desc
      ensures Shows(Next(s, Transmit(t, dst)))
      ensures Next(s, Transmit(t, dst)).ops == s.ops + [Operation(slot, token, s.completions[slot], dst, call)]
    {
      var st := desc[slot];
      token := st.counter;
      st := st.(ackReceived := false, queueSlot := slot, retries := 0, dst := dst);
      if call.Long? {
        st := st.(ackWaiting := false, callback := Some(call.buf));
      } else {
        st := st.(ackWaiting := call != Async, callback := None);
      }
      desc[slot] := st;
    }

    /** The waiting sender's stores when the acknowledgement has arrived (659-660). */
    method Collect(ghost s: State, ghost t: nat, slot: nat)
      requires Shows(s) && Enabled(s, WakeAcked(t)) && s.threads[t] == Waiting(slot)
      modifies desc
      ensures Shows(Next(s, WakeAcked(t)))
    {
      desc[slot] := desc[slot].(ackReceived := false, dst := NULL_NODE);
    }

    /** The store of a sender whose wait was interrupted (651), early or late. */
    method StopWait(ghost s: State, ghost t: nat, slot: nat)
      requires Shows(s) && t < |s.threads| && slot < |s.status|
      modifies desc
      ensures Shows(StopWaiting(s, t, slot))
    {
      desc[slot] := desc[slot].(ackWaiting := false);
    }

    /** The push that follows (665-670); the other senders are woken only if the list was empty. */
    method ReleaseSlot(ghost s: State, ghost t: nat, slot: nat) returns (wake: bool)
      requires Shows(s) && Enabled(s, Release(t)) && s.threads[t] == Releasing(slot) && s.rdma.Held(slot)
      modifies slots, slots.next
      ensures Shows(Next(s, Release(t)))
      ensures wake <==> s.rdma.free == []
      ensures wake <==> WakesTx(s, Release(t))
    {
      var avail := slots.FreeAvail();
      slots.FreePush(slot);
      wake := !avail;
    }

    /** The pop of a LONG buffer under its mutex (1059-1069); NONE is the branch marked impossible. */
    method TakeBuf(ghost s: State, ghost t: nat) returns (buf: int)
      requires Shows(s) && Enabled(s, LongPop(t))
      modifies bufs
      ensures Shows(Next(s, LongPop(t)))
      ensures buf == NONE <==> s.long.free == []
      ensures buf != NONE ==> 0 <= buf && Next(s, LongPop(t)).threads[t] == LongHeld(buf)
    {
      buf := bufs.FreePop();
    }

    /** The error path of `axiomnet_long_send` (1130-1136). */
    method ReturnBuf(ghost s: State, ghost t: nat, buf: nat) returns (wake: bool)
      requires Shows(s) && Enabled(s, LongPush(t)) && s.threads[t] == LongFailed(buf) && s.long.Held(buf)
      modifies bufs, bufs.next
      ensures Shows(Next(s, LongPush(t)))
      ensures wake <==> s.long.free == []
      ensures wake <==> WakesLong(s, LongPush(t))
    {
      var avail := bufs.FreeAvail();
      bufs.FreePush(buf);
      wake := !avail;
    }

    /**
     One acknowledgement in `axiom_rdma_rx_dequeue` (829-921) with `axiomnet_long_callback`, and
     whether the blocked RDMA senders (917) and LONG senders (1018) are woken.
     */
    method HandleOneAck(ghost s: State, ack: AckHeader) returns (wakeTx: bool, wakeLong: bool)
      requires Shows(s) && AckLegal(s, ack)
      modifies desc, slots, slots.next, bufs, bufs.next
      ensures Shows(AfterAck(s, ack))
      ensures wakeTx <==> WakesTx(s, AckStep(ack))
      ensures wakeLong <==> WakesLong(s, AckStep(ack))
    {
      AckEffect(s, ack);
      hide AfterAck, WakesTx, WakesLong;
      wakeTx, wakeLong := false, false;
      var m := ack.msgId;
      if desc[m].dst != ack.src { return; }
      if ack.error && desc[m].retries < MAX_RETRY {
        desc[m] := desc[m].(retries := (desc[m].retries + 1) % RETRIES_MOD);
        return;
      }
      desc[m] := desc[m].(counter := (desc[m].counter + 1) % COUNTER_MOD);
      if desc[m].ackWaiting {
        desc[m] := desc[m].(ackReceived := true);
      } else {
        wakeTx, wakeLong := FreeUnwaited(m);
      }
    }

    /** Nobody waits for the acknowledgement (899-917): the callback, and the slot is free. */
    method FreeUnwaited(m: nat) returns (wakeTx: bool, wakeLong: bool)
      requires Valid() && m < desc.Length && slots.model.Held(desc[m].queueSlot)
      requires desc[m].callback.Some? ==> bufs.model.Held(desc[m].callback.value)
      modifies desc, slots, slots.next, bufs, bufs.next
      ensures Valid()
      ensures desc[..] == old(desc[..])[m := old(desc[m]).(ackReceived := false, dst := NULL_NODE)]
      ensures slots.model == old(slots.model.PushFree(desc[m].queueSlot))
      ensures wakeTx <==> old(slots.model.free) != []
      ensures wakeLong <==> old(desc[m]).callback.Some?
      ensures bufs.model == match old(desc[m]).callback
                            case Some(b) => old(bufs.model).PushFree(b)
                            case None => old(bufs.model)
    {
      wakeLong := desc[m].callback.Some?;
      if desc[m].callback.Some? {
        bufs.FreePush(desc[m].callback.value);
      }
      desc[m] := desc[m].(ackReceived := false, dst := NULL_NODE);
      wakeTx := slots.FreeAvail();
      slots.FreePush(desc[m].queueSlot);
    }

    /** The receive loop over a batch of acknowledgements. */
    method RxDequeue(ghost s: State, acks: seq<AckHeader>)
      requires Shows(s) && AcksLegal(s, acks)
      modifies desc, slots, slots.next, bufs, bufs.next
      ensures Shows(AfterAcks(s, acks))
    {
      ghost var now := s;
      var i := 0;
      while i < |acks|
        invariant 0 <= i <= |acks|
        invariant Shows(now) && AcksLegal(now, acks[i..])
        invariant AfterAcks(now, acks[i..]) == AfterAcks(s, acks)
      {
        assert acks[i..][0] == acks[i] && acks[i..][1..] == acks[i + 1..];
        var _, _ := HandleOneAck(now, acks[i]);
        now := AfterAck(now, acks[i]);
        i := i + 1;
      }
    }
  }

  /** What an acknowledgement does to the arrays, case by case. */
  lemma AckEffect(s: State, ack: AckHeader)
    requires AckLegal(s, ack)
    ensures var st, e := s.status[ack.msgId], AfterAck(s, ack);
            var final := Judge(st, ack.src, ack.error) == Final;
            && e.retriesMod == s.retriesMod
            && e.status == (match Judge(st, ack.src, ack.error)
                            case Discarded => s.status
                            case Resent => s.status[ack.msgId := Resend(st, s.retriesMod)]
                            case Final => s.status[ack.msgId := Completed(st)])
            && e.rdma == (if final && !st.ackWaiting then s.rdma.PushFree(st.queueSlot) else s.rdma)
            && e.long == (if final && !st.ackWaiting && st.callback.Some?
                          then s.long.PushFree(st.callback.value) else s.long)
            && (WakesTx(s, AckStep(ack)) <==> final && !st.ackWaiting && s.rdma.free != [])
            && (WakesLong(s, AckStep(ack)) <==> final && !st.ackWaiting && st.callback.Some?)
            && (final && !st.ackWaiting ==>
                  s.rdma.Held(st.queueSlot) && (st.callback.Some? ==> s.long.Held(st.callback.value)))
  {}

  lemma AckIsLegal(s: State, ack: AckHeader)
    requires Inv(s) && Enabled(s, Ack(ack.msgId, ack.src, ack.error))
    ensures AckLegal(s, ack)
  {
    var own, bown :| InvWith(s, own, bown);
    if Judge(s.status[ack.msgId], ack.src, ack.error) == Final {
      AcceptedIsLive(s, own, ack.msgId, ack.src, ack.error);
      FinalOwns(s, ack.msgId, ack.src, ack.error, own);
      FinalBufs(s, ack.msgId, ack.src, ack.error, own, bown);
    }
  }

  function AckStep(ack: AckHeader): Step { Ack(ack.msgId, ack.src, ack.error) }

  function AckSteps(acks: seq<AckHeader>): seq<Step> {
    if acks == [] then [] else [AckStep(acks[0])] + AckSteps(acks[1..])
  }

  lemma AckIsStep(s: State, ack: AckHeader)
    requires Inv(s) && Enabled(s, AckStep(ack))
    ensures AckLegal(s, ack) && Inv(AfterAck(s, ack)) && |AfterAck(s, ack).status| == |s.status|
    ensures AfterAck(s, ack) == Next(s, AckStep(ack))
  {
    AckIsLegal(s, ack);
    StepKeeps(s, AckStep(ack));
  }

  /** In every state the protocol keeps, any batch of acknowledgements is legal and is a run of it. */
  lemma {:induction false} AcksAreRun(s: State, acks: seq<AckHeader>)
    requires Inv(s)
    requires forall i :: 0 <= i < |acks| ==> acks[i].msgId < |s.status| && acks[i].src < NULL_NODE
    ensures AcksLegal(s, acks) && Inv(AfterAcks(s, acks))
    ensures IsRun(s, AckSteps(acks)) && After(s, AckSteps(acks)) == AfterAcks(s, acks)
    decreases |acks|
  {
    if acks != [] {
      var step := AckStep(acks[0]);
      AckIsStep(s, acks[0]);
      AcksAreRun(AfterAck(s, acks[0]), acks[1..]);
      assert AckSteps(acks)[0] == step && AckSteps(acks)[1..] == AckSteps(acks[1..]);
    }
  }

  ghost predicate PushesHeld(s: State, t: nat) {
    && (Enabled(s, Release(t)) ==> s.rdma.Held(s.threads[t].slot))
    && (Enabled(s, LongPush(t)) ==> s.long.Held(s.threads[t].buf))
  }

  /** A sender that has collected its acknowledgement, or failed, holds the slot or buffer it is about to push. */
  lemma ReleaseIsLegal(s: State, t: nat)
    requires Inv(s)
    ensures PushesHeld(s, t)
  {
    hide SlotInv, BufInv, MutexInv, TokenInv;
    var own, bown :| InvWith(s, own, bown);
    if Enabled(s, Release(t)) { SlotIsHeld(s, own, t); }
    if Enabled(s, LongPush(t)) { BufIsHeld(s, own, bown, t); }
  }

  lemma SlotIsHeld(s: State, own: seq<Owner>, t: nat)
    requires SlotInv(s, own) && Enabled(s, Release(t))
    ensures s.rdma.Held(s.threads[t].slot)
  {
    assert own[s.threads[t].slot] == Thread(t);
  }

  lemma BufIsHeld(s: State, own: seq<Owner>, bown: seq<BufOwner>, t: nat)
    requires BufInv(s, own, bown) && Enabled(s, LongPush(t))
    ensures s.long.Held(s.threads[t].buf)
  {
    assert bown[s.threads[t].buf] == BufThread(t);
  }
}
