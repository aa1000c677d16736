/** Every step of the RDMA protocol, and so every run, keeps the ownership of slots, LONG buffers and tokens. */
module RdmaOwnership {
  import opened Axiom
  import opened SlotPool
  import opened RdmaProtocol

  // ---------------------------------------------------------------- steps that only move a thread

  /** A move of thread t that takes and gives back nothing. */
  ghost predicate Moves(s: State, s': State, t: nat) {
    && t < |s.threads| == |s'.threads|
    && s' == s.(threads := s'.threads, rdmaMutex := s'.rdmaMutex, longMutex := s'.longMutex)
    && s'.threads == s.threads[t := s'.threads[t]]
    && SlotOf(s'.threads[t]) == SlotOf(s.threads[t]) && BufOf(s'.threads[t]) == BufOf(s.threads[t])
    && !s.threads[t].Waiting? && !s'.threads[t].Waiting?
  }

  // ---------------------------------------------------------------- what carries over

  /** Thread t moved; what it may have done to the RDMA mutex and free list leaves the others right. */
  ghost predicate TxMutexOk(s: State, s': State, t: nat)
    requires t < |s'.threads|
  {
    && (InTxMutex(s'.threads[t]) ==> s'.rdmaMutex == Some(t))
    && (s'.threads[t].TxChecked? ==> s'.rdma.free != [])
    && (s.rdmaMutex in {None, Some(t)}
        || (s'.rdmaMutex == s.rdmaMutex && (s.rdma.free != [] ==> s'.rdma.free != [])))
  }

  ghost predicate LongMutexOk(s: State, s': State, t: nat)
    requires t < |s'.threads|
  {
    && (InLongMutex(s'.threads[t]) ==> s'.longMutex == Some(t))
    && (s'.threads[t].LongChecked? ==> s'.long.free != [])
    && (s.longMutex in {None, Some(t)}
        || (s'.longMutex == s.longMutex && (s.long.free != [] ==> s'.long.free != [])))
  }

  lemma MutexFollows(s: State, s': State, t: nat)
    requires MutexInv(s) && t < |s.threads| == |s'.threads| && s'.threads == s.threads[t := s'.threads[t]]
    requires TxMutexOk(s, s', t) && LongMutexOk(s, s', t)
    ensures MutexInv(s')
  {}

  ghost predicate SameMessage(a: Status, b: Status) { b.dst == a.dst && b.callback == a.callback }

  lemma TokensFollow(s: State, s': State, own: seq<Owner>, own': seq<Owner>)
    requires TokenInv(s, own) && SlotsOwned(s', own') && |own'| == |own|
    requires s'.completions == s.completions && s'.current == s.current && s'.ops == s.ops && s'.done == s.done
    requires forall m :: 0 <= m < |own| ==> s'.status[m].counter == s.status[m].counter
    requires forall m :: 0 <= m < |own| ==>
               && (Live(s', own', m) ==> Live(s, own, m) && SameMessage(s.status[m], s'.status[m]))
               && (Live(s, own, m) && s.current[m] !in s.done ==> Live(s', own', m))
    ensures TokenInv(s', own')
  {}

  /** Buffer facts survive when buffers, their holders, and the in-flight slots are the same. */
  lemma BufsFollow(s: State, s': State, own: seq<Owner>, own': seq<Owner>, bown: seq<BufOwner>)
    requires BufInv(s, own, bown) && SlotsOwned(s', own') && s'.long == s.long
    requires |own'| == |own| && |s'.threads| == |s.threads|
    requires forall t :: 0 <= t < |s.threads| ==> BufOf(s'.threads[t]) == BufOf(s.threads[t])
    requires forall m, b :: 0 <= m < |own| && 0 <= b ==> Names(s', own', m, b) == Names(s, own, m, b)
    ensures BufInv(s', own', bown)
  {
    forall m | 0 <= m < |own| && own'[m] == InFlight && s'.status[m].callback.Some?
      ensures s'.status[m].callback.value < |bown| && bown[s'.status[m].callback.value] == BufInFlight(m)
    {
      assert Names(s', own', m, s'.status[m].callback.value);
      assert Names(s, own, m, s'.status[m].callback.value);
    }
  }

  /** Who owns which slot stays the same when no thread's slot and no free list changes. */
  lemma OwnersStay(s: State, s': State, own: seq<Owner>)
    requires SlotsOwned(s, own) && s'.rdma == s.rdma && |s'.threads| == |s.threads|
    requires |s'.status| == |s.status| && |s'.completions| == |s.status| && |s'.current| == |s.status|
    requires forall t :: 0 <= t < |s.threads| ==> SlotOf(s'.threads[t]) == SlotOf(s.threads[t])
    ensures SlotsOwned(s', own)
  {}

  lemma MovesSlots(s: State, s': State, t: nat, own: seq<Owner>)
    requires SlotInv(s, own) && Moves(s, s', t)
    ensures SlotInv(s', own)
    ensures forall m :: 0 <= m < |own| ==> Live(s', own, m) == Live(s, own, m)
  {
    OwnersStay(s, s', own);
    forall m | 0 <= m < |own| ensures StatusFits(s', own, m) {
      assert StatusFits(s, own, m);
    }
  }

  lemma MovesTokens(s: State, s': State, t: nat, own: seq<Owner>)
    requires SlotInv(s, own) && TokenInv(s, own) && Moves(s, s', t)
    ensures TokenInv(s', own)
  {
    MovesSlots(s, s', t, own);
    TokensFollow(s, s', own, own);
  }

  lemma MovesBufs(s: State, s': State, t: nat, own: seq<Owner>, bown: seq<BufOwner>)
    requires BufInv(s, own, bown) && SlotsOwned(s', own) && Moves(s, s', t)
    ensures BufInv(s', own, bown)
  {
    BufsFollow(s, s', own, own, bown);
  }

  lemma MovesKeep(s: State, s': State, t: nat)
    requires Inv(s) && Moves(s, s', t) && TxMutexOk(s, s', t) && LongMutexOk(s, s', t)
    ensures Inv(s')
  {
    hide BufInv, TokenInv, MutexInv, StatusFits;
    var own, bown :| InvWith(s, own, bown);
    MutexFollows(s, s', t);
    MovesSlots(s, s', t, own);
    MovesTokens(s, s', t, own);
    MovesBufs(s, s', t, own, bown);
    assert InvWith(s', own, bown);
  }

  // ---------------------------------------------------------------- taking a slot from the free list

  lemma TxPopOwners(s: State, t: nat, own: seq<Owner>)
    requires SlotsOwned(s, own) && t < |s.threads| && s.threads[t].TxChecked? && s.rdma.free != []
    ensures s.rdma.free[0] < |own|
    ensures SlotsOwned(PopSlot(s, t, s.threads[t].call), own[s.rdma.free[0] := Thread(t)])
  {
    var s', m := PopSlot(s, t, s.threads[t].call), s.rdma.free[0];
    PopFreeKeeps(s.rdma);
    assert s.rdma.free == [m] + s'.rdma.free;
  }

  lemma TxPopOwns(s: State, t: nat, own: seq<Owner>)
    requires SlotInv(s, own) && t < |s.threads| && s.threads[t].TxChecked? && s.rdma.free != []
    ensures SlotInv(PopSlot(s, t, s.threads[t].call), own[s.rdma.free[0] := Thread(t)])
    ensures forall k :: 0 <= k < |own| ==>
              Live(PopSlot(s, t, s.threads[t].call), own[s.rdma.free[0] := Thread(t)], k) == Live(s, own, k)
  {
    var s', m := PopSlot(s, t, s.threads[t].call), s.rdma.free[0];
    var own' := own[m := Thread(t)];
    TxPopOwners(s, t, own);
    forall k | 0 <= k < |own| ensures StatusFits(s', own', k) {
      assert StatusFits(s, own, k);
    }
  }

  lemma TxPopKeeps(s: State, t: nat)
    requires Inv(s) && t < |s.threads| && s.threads[t].TxChecked?
    ensures Inv(PopSlot(s, t, s.threads[t].call))
  {
    hide BufInv, TokenInv, StatusFits;
    var own, bown :| InvWith(s, own, bown);
    assert s.rdma.free != [];
    var s', own' := PopSlot(s, t, s.threads[t].call), own[s.rdma.free[0] := Thread(t)];
    TxPopOwns(s, t, own);
    MutexFollows(s, s', t);
    TokensFollow(s, s', own, own');
    BufsFollow(s, s', own, own', bown);
    assert InvWith(s', own', bown);
  }

  lemma LongPopKeeps(s: State, t: nat)
    requires Inv(s) && t < |s.threads| && s.threads[t].LongChecked?
    ensures Inv(PopBuf(s, t))
  {
    hide BufInv, TokenInv, StatusFits;
    var own, bown :| InvWith(s, own, bown);
    var s' := PopBuf(s, t);
    LongPopOwns(s, t, own, bown);
    MutexFollows(s, s', t);
    SlotsFollow(s, s', own);
    TokensFollow(s, s', own, own);
    assert InvWith(s', own, bown[s.long.free[0] := BufThread(t)]);
  }

  lemma LongPopOwns(s: State, t: nat, own: seq<Owner>, bown: seq<BufOwner>)
    requires BufInv(s, own, bown) && t < |s.threads| && s.threads[t].LongChecked? && s.long.free != []
    ensures s.long.free[0] < |bown| && BufInv(PopBuf(s, t), own, bown[s.long.free[0] := BufThread(t)])
  {
    var s', b := PopBuf(s, t), s.long.free[0];
    PopFreeOwner(s.long, bown, t);
    PopBufHolder(s.threads, bown, t, b);
    OwnersStay(s, s', own);
    forall c | 0 <= c < |bown| && bown[b := BufThread(t)][c].BufInFlight? ensures Names(s', own, bown[c].slot, c) {
      assert Names(s, own, bown[c].slot, c);
    }
  }

  lemma PopFreeOwner(long: Pool, bown: seq<BufOwner>, t: nat)
    requires BufsFree(long, bown) && long.free != []
    ensures long.free[0] < |bown| && bown[long.free[0]] == BufFree
    ensures BufsFree(long.PopFree(), bown[long.free[0] := BufThread(t)])
  {
    PopFreeKeeps(long);
    assert long.free == [long.free[0]] + long.PopFree().free;
  }

  lemma PopBufHolder(threads: seq<Pc>, bown: seq<BufOwner>, t: nat, b: nat)
    requires BufsHeld(threads, bown) && t < |threads| && BufOf(threads[t]).None? && b < |bown| && bown[b] == BufFree
    ensures BufsHeld(threads[t := LongHeld(b)], bown[b := BufThread(t)])
  {}

  /** Slot facts survive when no status, no waiting thread and no slot holder changes. */
  lemma SlotsFollow(s: State, s': State, own: seq<Owner>)
    requires SlotInv(s, own) && SlotsOwned(s', own) && s'.status == s.status && s'.current == s.current
    requires s'.done == s.done && |s'.threads| == |s.threads|
    requires forall t :: 0 <= t < |s.threads| ==> s'.threads[t].Waiting? == s.threads[t].Waiting?
    ensures SlotInv(s', own)
  {
    forall m | 0 <= m < |own| ensures StatusFits(s', own, m) {
      assert StatusFits(s, own, m);
    }
  }

  // ---------------------------------------------------------------- giving a slot back

  lemma LongPushKeeps(s: State, t: nat)
    requires Inv(s) && t < |s.threads| && s.threads[t].LongFailed?
    ensures Inv(PushBuf(s, t, s.threads[t].buf))
  {
    hide BufInv, TokenInv, StatusFits;
    var own, bown :| InvWith(s, own, bown);
    var s' := PushBuf(s, t, s.threads[t].buf);
    LongPushOwns(s, t, own, bown);
    MutexFollows(s, s', t);
    SlotsFollow(s, s', own);
    TokensFollow(s, s', own, own);
    assert InvWith(s', own, bown[s.threads[t].buf := BufFree]);
  }

  lemma LongPushOwns(s: State, t: nat, own: seq<Owner>, bown: seq<BufOwner>)
    requires BufInv(s, own, bown) && t < |s.threads| && s.threads[t].LongFailed?
    ensures s.threads[t].buf < |bown| && s.threads[t].buf !in s.long.free
    ensures BufInv(PushBuf(s, t, s.threads[t].buf), own, bown[s.threads[t].buf := BufFree])
  {}

  lemma ReleaseKeeps(s: State, t: nat)
    requires Inv(s) && t < |s.threads| && s.threads[t].Releasing?
    ensures Inv(PushSlot(s, t, s.threads[t].slot))
  {
    hide BufInv, TokenInv, StatusFits;
    var own, bown :| InvWith(s, own, bown);
    var s', m := PushSlot(s, t, s.threads[t].slot), s.threads[t].slot;
    ReleaseOwns(s, t, own);
    MutexFollows(s, s', t);
    TokensFollow(s, s', own, own[m := Free]);
    BufsFollow(s, s', own, own[m := Free], bown);
    assert InvWith(s', own[m := Free], bown);
  }

  lemma ReleaseOwns(s: State, t: nat, own: seq<Owner>)
    requires SlotInv(s, own) && t < |s.threads| && s.threads[t].Releasing?
    ensures s.threads[t].slot < |own| && own[s.threads[t].slot] == Thread(t)
    ensures SlotInv(PushSlot(s, t, s.threads[t].slot), own[s.threads[t].slot := Free])
    ensures forall k :: 0 <= k < |own| ==>
              Live(PushSlot(s, t, s.threads[t].slot), own[s.threads[t].slot := Free], k) == Live(s, own, k)
  {
    var s', m := PushSlot(s, t, s.threads[t].slot), s.threads[t].slot;
    assert SlotOf(s.threads[t]) == Some(m) && StatusFits(s, own, m);
    PushFreeKeeps(s.rdma, m);
    assert s'.rdma.free == [m] + s.rdma.free;
    var own' := own[m := Free];
    assert SlotsOwned(s', own');
    forall k | 0 <= k < |own| ensures StatusFits(s', own', k) {
      assert StatusFits(s, own, k);
    }
  }

  // ---------------------------------------------------------------- transmitting and waiting

  lemma InterruptKeeps(s: State, t: nat)
    requires Inv(s) && Enabled(s, Interrupt(t))
    ensures Inv(StopWaiting(s, t, s.threads[t].slot))
  {
    hide BufInv, TokenInv, StatusFits;
    var own, bown :| InvWith(s, own, bown);
    var s', m := StopWaiting(s, t, s.threads[t].slot), s.threads[t].slot;
    InterruptOwns(s, t, own);
    MutexFollows(s, s', t);
    TokensFollow(s, s', own, own[m := InFlight]);
    BufsFollow(s, s', own, own[m := InFlight], bown);
    assert InvWith(s', own[m := InFlight], bown);
  }

  lemma InterruptOwners(s: State, t: nat, m: nat, own: seq<Owner>)
    requires SlotsOwned(s, own) && t < |s.threads| && s.threads[t] == Waiting(m)
    ensures m < |own| && own[m] == Thread(t) && SlotsOwned(StopWaiting(s, t, m), own[m := InFlight])
  {
    assert SlotOf(s.threads[t]) == Some(m);
  }

  lemma InterruptOwns(s: State, t: nat, own: seq<Owner>)
    requires SlotInv(s, own) && Enabled(s, Interrupt(t))
    ensures s.threads[t].slot < |own| && own[s.threads[t].slot] == Thread(t)
    ensures s.status[s.threads[t].slot].callback == None
    ensures SlotInv(StopWaiting(s, t, s.threads[t].slot), own[s.threads[t].slot := InFlight])
    ensures forall k :: 0 <= k < |own| ==>
              Live(StopWaiting(s, t, s.threads[t].slot), own[s.threads[t].slot := InFlight], k) == Live(s, own, k)
  {
    var s', m := StopWaiting(s, t, s.threads[t].slot), s.threads[t].slot;
    InterruptOwners(s, t, m, own);
    assert StatusFits(s, own, m);
    var own' := own[m := InFlight];
    forall k | 0 <= k < |own| ensures StatusFits(s', own', k) {
      assert StatusFits(s, own, k);
    }
  }

  lemma WakeAckedKeeps(s: State, t: nat)
    requires Inv(s) && Enabled(s, WakeAcked(t))
    ensures Inv(CollectAck(s, t, s.threads[t].slot))
  {
    hide BufInv, TokenInv, StatusFits;
    var own, bown :| InvWith(s, own, bown);
    var s' := CollectAck(s, t, s.threads[t].slot);
    WakeAckedOwns(s, t, own);
    MutexFollows(s, s', t);
    TokensFollow(s, s', own, own);
    BufsFollow(s, s', own, own, bown);
    assert InvWith(s', own, bown);
  }

  lemma WakeAckedOwns(s: State, t: nat, own: seq<Owner>)
    requires SlotInv(s, own) && Enabled(s, WakeAcked(t))
    ensures s.threads[t].slot < |own| && own[s.threads[t].slot] == Thread(t)
    ensures s.current[s.threads[t].slot] in s.done
    ensures SlotInv(CollectAck(s, t, s.threads[t].slot), own)
    ensures forall k :: 0 <= k < |own| && k != s.threads[t].slot ==>
              Live(CollectAck(s, t, s.threads[t].slot), own, k) == Live(s, own, k)
  {
    var s', m := CollectAck(s, t, s.threads[t].slot), s.threads[t].slot;
    assert SlotOf(s.threads[t]) == Some(m) && StatusFits(s, own, m);
    assert SlotsOwned(s', own);
    forall k | 0 <= k < |own| ensures StatusFits(s', own, k) {
      assert StatusFits(s, own, k);
    }
  }

  /** The slot, and for a LONG message its buffer, pass from the sender to the NIC. */
  function OwnersSent(own: seq<Owner>, m: nat, call: Call): seq<Owner>
    requires m < |own|
  {
    if call.Sync? then own else own[m := InFlight]
  }

  lemma TransmitOwners(s: State, t: nat, call: Call, m: nat, dst: nat, own: seq<Owner>)
    requires SlotsOwned(s, own) && Enabled(s, Transmit(t, dst)) && s.threads[t] == TxHeld(call, m)
    ensures m < |own| && own[m] == Thread(t)
    ensures SlotsOwned(DoTransmit(s, t, call, m, dst), OwnersSent(own, m, call))
  {
    assert SlotOf(s.threads[t]) == Some(m);
  }

  /** The sender's slot has the new operation; every other status is as it was. */
  lemma TransmitFits(s: State, t: nat, call: Call, m: nat, dst: nat, own: seq<Owner>, k: nat)
    requires SlotsOwned(s, own) && Enabled(s, Transmit(t, dst)) && s.threads[t] == TxHeld(call, m)
    requires k < |own| && StatusFits(s, own, k) && m < |own| && own[m] == Thread(t) && |s.ops| !in s.done
    requires SlotsOwned(DoTransmit(s, t, call, m, dst), OwnersSent(own, m, call))
    ensures StatusFits(DoTransmit(s, t, call, m, dst), OwnersSent(own, m, call), k)
  {}

  lemma TransmitOwns(s: State, t: nat, call: Call, m: nat, dst: nat, own: seq<Owner>)
    requires SlotInv(s, own) && TokenInv(s, own) && Enabled(s, Transmit(t, dst)) && s.threads[t] == TxHeld(call, m)
    ensures m < |own| && own[m] == Thread(t)
    ensures SlotInv(DoTransmit(s, t, call, m, dst), OwnersSent(own, m, call))
    ensures SlotsOwned(DoTransmit(s, t, call, m, dst), OwnersSent(own, m, call))
  {
    hide StatusFits, DoTransmit, OwnersSent;
    TransmitOwners(s, t, call, m, dst, own);
    assert |OwnersSent(own, m, call)| == |own| by { SentSize(own, m, call); }
    forall k | 0 <= k < |own| ensures StatusFits(DoTransmit(s, t, call, m, dst), OwnersSent(own, m, call), k) {
      TransmitFits(s, t, call, m, dst, own, k);
    }
  }

  lemma SentSize(own: seq<Owner>, m: nat, call: Call)
    requires m < |own|
    ensures |OwnersSent(own, m, call)| == |own|
  {}

  lemma TransmitTokens(s: State, t: nat, call: Call, m: nat, dst: nat, own: seq<Owner>)
    requires SlotInv(s, own) && TokenInv(s, own) && Enabled(s, Transmit(t, dst)) && s.threads[t] == TxHeld(call, m)
    requires m < |own| && own[m] == Thread(t)
    requires SlotsOwned(DoTransmit(s, t, call, m, dst), OwnersSent(own, m, call))
    ensures TokenInv(DoTransmit(s, t, call, m, dst), OwnersSent(own, m, call))
  {
    hide StatusFits;
    var s', own' := DoTransmit(s, t, call, m, dst), OwnersSent(own, m, call);
    assert Live(s', own', m) && !Live(s, own, m);
    forall k | 0 <= k < |own| && k != m ensures Live(s', own', k) == Live(s, own, k) {}
  }

  lemma TransmitBufs(s: State, t: nat, b: nat, m: nat, dst: nat, own: seq<Owner>, bown: seq<BufOwner>)
    requires BufInv(s, own, bown) && Enabled(s, Transmit(t, dst)) && s.threads[t] == TxHeld(Long(b), m)
    requires m < |own| && own[m] == Thread(t)
    requires SlotsOwned(DoTransmit(s, t, Long(b), m, dst), own[m := InFlight])
    ensures b < |bown|
    ensures BufInv(DoTransmit(s, t, Long(b), m, dst), own[m := InFlight], bown[b := BufInFlight(m)])
  {
    var s' := DoTransmit(s, t, Long(b), m, dst);
    var own', bown' := own[m := InFlight], bown[b := BufInFlight(m)];
    SendBufHolder(s.threads, bown, t, b, m);
    forall c | 0 <= c < |bown| && bown'[c].BufInFlight?
      ensures bown'[c].slot < |own'| && Names(s', own', bown'[c].slot, c)
    {
      assert c != b ==> Names(s, own, bown[c].slot, c);
    }
    forall k | 0 <= k < |own'| && own'[k] == InFlight && s'.status[k].callback.Some?
      ensures s'.status[k].callback.value < |bown'| && bown'[s'.status[k].callback.value] == BufInFlight(k)
    {
      assert k != m ==> own[k] == InFlight && s'.status[k] == s.status[k];
    }
  }

  lemma SendBufHolder(threads: seq<Pc>, bown: seq<BufOwner>, t: nat, b: nat, m: nat)
    requires BufsHeld(threads, bown) && t < |threads| && threads[t] == TxHeld(Long(b), m)
    ensures b < |bown| && bown[b] == BufThread(t)
    ensures BufsHeld(threads[t := Idle], bown[b := BufInFlight(m)])
  {
    assert BufOf(threads[t]) == Some(b);
  }

  /** Without a buffer to hand over, the buffers stay as they are. */
  lemma TransmitOtherBufs(s: State, t: nat, call: Call, m: nat, dst: nat, own: seq<Owner>, bown: seq<BufOwner>)
    requires BufInv(s, own, bown) && Enabled(s, Transmit(t, dst)) && s.threads[t] == TxHeld(call, m) && !call.Long?
    requires m < |own| && own[m] == Thread(t)
    requires SlotsOwned(DoTransmit(s, t, call, m, dst), OwnersSent(own, m, call))
    ensures BufInv(DoTransmit(s, t, call, m, dst), OwnersSent(own, m, call), bown)
  {
    BufsFollow(s, DoTransmit(s, t, call, m, dst), own, OwnersSent(own, m, call), bown);
  }

  lemma TransmitMutex(s: State, t: nat, call: Call, m: nat, dst: nat)
    requires MutexInv(s) && Enabled(s, Transmit(t, dst)) && s.threads[t] == TxHeld(call, m)
    ensures MutexInv(DoTransmit(s, t, call, m, dst))
  {
    MutexFollows(s, DoTransmit(s, t, call, m, dst), t);
  }

  lemma TransmitKeeps(s: State, t: nat, dst: nat)
    requires Inv(s) && Enabled(s, Transmit(t, dst))
    ensures Inv(DoTransmit(s, t, s.threads[t].call, s.threads[t].slot, dst))
  {
    hide SlotInv, BufInv, TokenInv, MutexInv;
    var own, bown :| InvWith(s, own, bown);
    var call, m := s.threads[t].call, s.threads[t].slot;
    TransmitOwns(s, t, call, m, dst, own);
    TransmitTokens(s, t, call, m, dst, own);
    TransmitMutex(s, t, call, m, dst);
    if call.Long? {
      TransmitBufs(s, t, call.buf, m, dst, own, bown);
      assert InvWith(DoTransmit(s, t, call, m, dst), own[m := InFlight], bown[call.buf := BufInFlight(m)]);
    } else {
      TransmitOtherBufs(s, t, call, m, dst, own, bown);
      assert InvWith(DoTransmit(s, t, call, m, dst), OwnersSent(own, m, call), bown);
    }
  }

  // ---------------------------------------------------------------- acknowledgements

  /** A transmitted slot knows its own number, and whether a sender waits for it. */
  lemma LiveStatus(s: State, own: seq<Owner>, m: nat)
    requires SlotInv(s, own) && m < |own| && Live(s, own, m)
    ensures s.status[m].queueSlot == m
    ensures own[m] == InFlight <==> !s.status[m].ackWaiting
  {
    assert StatusFits(s, own, m);
  }

  /** An acknowledgement from a real node is accepted only for a slot that was transmitted. */
  lemma AcceptedIsLive(s: State, own: seq<Owner>, m: nat, src: nat, error: bool)
    requires SlotInv(s, own) && m < |own| && src < NULL_NODE
    requires Judge(s.status[m], src, error) != Discarded
    ensures Live(s, own, m) && s.status[m].queueSlot == m
  {
    assert StatusFits(s, own, m);
  }

  function OwnersAcked(s: State, own: seq<Owner>, m: nat): seq<Owner>
    requires m < |s.status| == |own|
  {
    if s.status[m].ackWaiting then own else own[m := Free]
  }

  function BufOwnersAcked(s: State, bown: seq<BufOwner>, m: nat): seq<BufOwner>
    requires m < |s.status|
    requires !s.status[m].ackWaiting && s.status[m].callback.Some? ==> s.status[m].callback.value < |bown|
  {
    if !s.status[m].ackWaiting && s.status[m].callback.Some?
    then bown[s.status[m].callback.value := BufFree] else bown
  }

  lemma ResentKeeps(s: State, m: nat, src: nat, own: seq<Owner>, bown: seq<BufOwner>)
    requires InvWith(s, own, bown) && m < |own| && Judge(s.status[m], src, true) == Resent
    ensures InvWith(HandleAck(s, m, src, true), own, bown)
  {
    var s' := HandleAck(s, m, src, true);
    assert SlotsOwned(s', own);
    forall k | 0 <= k < |own| ensures StatusFits(s', own, k) {
      assert StatusFits(s, own, k);
    }
    TokensFollow(s, s', own, own);
    BufsFollow(s, s', own, own, bown);
  }

  lemma FinalOwns(s: State, m: nat, src: nat, error: bool, own: seq<Owner>)
    requires SlotInv(s, own) && TokenInv(s, own) && m < |own| && Live(s, own, m)
    requires Judge(s.status[m], src, error) == Final
    ensures !s.status[m].ackWaiting ==> m !in s.rdma.free
    ensures SlotInv(HandleAck(s, m, src, error), OwnersAcked(s, own, m))
  {
    var s', own' := HandleAck(s, m, src, error), OwnersAcked(s, own, m);
    LiveStatus(s, own, m);
    if !s.status[m].ackWaiting {
      PushFreeKeeps(s.rdma, m);
      assert s'.rdma.free == [m] + s.rdma.free;
    }
    assert SlotsOwned(s', own');
    forall k | 0 <= k < |own| ensures StatusFits(s', own', k) {
      assert StatusFits(s, own, k);
      if k != m && Live(s, own, k) {
        assert s.ops[s.current[k]].slot == k && s.ops[s.current[m]].slot == m;
      }
    }
  }

  lemma FinalTokens(s: State, m: nat, src: nat, error: bool, own: seq<Owner>)
    requires SlotInv(s, own) && TokenInv(s, own) && m < |own| && Live(s, own, m)
    requires Judge(s.status[m], src, error) == Final
    requires SlotsOwned(HandleAck(s, m, src, error), OwnersAcked(s, own, m))
    ensures TokenInv(HandleAck(s, m, src, error), OwnersAcked(s, own, m))
  {
    hide SlotInv;
    var s', own' := HandleAck(s, m, src, error), OwnersAcked(s, own, m);
    LiveStatus(s, own, m);
    assert s.ops[s.current[m]].slot == m;
    forall k | 0 <= k < |own| ensures k != m ==> Live(s', own', k) == Live(s, own, k) {}
    FinalCounters(s, m, src, error, own);
  }

  lemma FinalCounters(s: State, m: nat, src: nat, error: bool, own: seq<Owner>)
    requires TokenInv(s, own) && m < |own| && Judge(s.status[m], src, error) == Final
    ensures var e := HandleAck(s, m, src, error);
            forall k :: 0 <= k < |own| ==> e.status[k].counter == e.completions[k] % COUNTER_MOD
  {
    CounterStep(s.completions[m]);
  }

  lemma CounterStep(n: nat)
    ensures (n % COUNTER_MOD + 1) % COUNTER_MOD == (n + 1) % COUNTER_MOD
  {}

  lemma FinalBufs(s: State, m: nat, src: nat, error: bool, own: seq<Owner>, bown: seq<BufOwner>)
    requires SlotInv(s, own) && BufInv(s, own, bown) && m < |own| && Live(s, own, m)
    requires Judge(s.status[m], src, error) == Final
    requires SlotsOwned(HandleAck(s, m, src, error), OwnersAcked(s, own, m))
    ensures !s.status[m].ackWaiting && s.status[m].callback.Some? ==>
              s.status[m].callback.value < |bown| && s.status[m].callback.value !in s.long.free
    ensures BufInv(HandleAck(s, m, src, error), OwnersAcked(s, own, m), BufOwnersAcked(s, bown, m))
  {
    var s', own' := HandleAck(s, m, src, error), OwnersAcked(s, own, m);
    LiveStatus(s, own, m);
    assert forall k, c :: 0 <= k < |own| && k != m && 0 <= c ==> Names(s', own', k, c) == Names(s, own, k, c);
    if !s.status[m].ackWaiting && s.status[m].callback.Some? {
      var b := s.status[m].callback.value;
      PushFreeKeeps(s.long, b);
      assert s'.long.free == [b] + s.long.free;
    }
  }

  lemma FinalKeeps(s: State, m: nat, src: nat, error: bool, own: seq<Owner>, bown: seq<BufOwner>)
    requires InvWith(s, own, bown) && m < |own| && Live(s, own, m) && Judge(s.status[m], src, error) == Final
    ensures Inv(HandleAck(s, m, src, error))
  {
    hide BufInv, TokenInv, StatusFits;
    var s' := HandleAck(s, m, src, error);
    FinalOwns(s, m, src, error, own);
    FinalTokens(s, m, src, error, own);
    FinalBufs(s, m, src, error, own, bown);
    assert MutexInv(s');
    assert InvWith(s', OwnersAcked(s, own, m), BufOwnersAcked(s, bown, m));
  }

  lemma AckKeeps(s: State, m: nat, src: nat, error: bool)
    requires Inv(s) && Enabled(s, Ack(m, src, error))
    ensures Inv(HandleAck(s, m, src, error))
  {
    var own, bown :| InvWith(s, own, bown);
    match Judge(s.status[m], src, error)
    case Discarded =>
    case Resent =>
      ResentKeeps(s, m, src, own, bown);
    case Final =>
      AcceptedIsLive(s, own, m, src, error);
      FinalKeeps(s, m, src, error, own, bown);
  }

  // ---------------------------------------------------------------- all steps, all runs

  ghost predicate OnlyMoves(step: Step) {
    || step.LongCall? || step.LongCheck? || step.LongRetry? || step.LongGiveUp? || step.LongReject?
    || step.LongSubmit? || step.TxCall? || step.TxCheck? || step.TxRetry? || step.TxGiveUp?
  }

  lemma MoveStep(s: State, step: Step)
    requires MutexInv(s) && Enabled(s, step) && OnlyMoves(step)
    ensures Moves(s, Next(s, step), step.t)
    ensures TxMutexOk(s, Next(s, step), step.t) && LongMutexOk(s, Next(s, step), step.t)
  {
    MoveIsMove(s, step);
    MoveMutexes(s, step);
  }

  lemma MoveIsMove(s: State, step: Step)
    requires Enabled(s, step) && OnlyMoves(step)
    ensures Moves(s, Next(s, step), step.t)
  {}

  lemma MoveMutexes(s: State, step: Step)
    requires MutexInv(s) && Enabled(s, step) && OnlyMoves(step)
    ensures TxMutexOk(s, Next(s, step), step.t) && LongMutexOk(s, Next(s, step), step.t)
  {
    assert InTxMutex(s.threads[step.t]) ==> s.rdmaMutex == Some(step.t);
    assert InLongMutex(s.threads[step.t]) ==> s.longMutex == Some(step.t);
  }

  lemma StepKeeps(s: State, step: Step)
    requires Inv(s) && Enabled(s, step)
    ensures Inv(Next(s, step))
  {
    hide SlotInv, BufInv, TokenInv;
    match step
    case Ack(m, src, error) => AckKeeps(s, m, src, error);
    case Transmit(t, dst) => TransmitKeeps(s, t, dst);
    case LongPop(t) => LongPopKeeps(s, t);
    case LongPush(t) => LongPushKeeps(s, t);
    case TxPop(t) => TxPopKeeps(s, t);
    case WakeAcked(t) => WakeAckedKeeps(s, t);
    case Release(t) => ReleaseKeeps(s, t);
    case Interrupt(t) => InterruptKeeps(s, t);
    case _ =>
      assert MutexInv(s);
      MoveStep(s, step);
      MovesKeep(s, Next(s, step), step.t);
  }

  lemma InitInv(threads: nat, retriesMod: Width)
    ensures Inv(Init(threads, retriesMod))
  {
    var s := Init(threads, retriesMod);
    var own: seq<Owner>, bown: seq<BufOwner> := seq(MSG_ID_NUM, _ => Free), seq(LONG_BUFS, _ => BufFree);
    FreshIsWf(0, MSG_ID_NUM);
    FreshIsWf(0, LONG_BUFS);
    forall m | 0 <= m < MSG_ID_NUM ensures m in s.rdma.free && own[m] == Free {
      assert s.rdma.free[m] == m;
    }
    forall b | 0 <= b < LONG_BUFS ensures b in s.long.free && bown[b] == BufFree {
      assert s.long.free[b] == b;
    }
    assert forall t :: 0 <= t < |s.threads| ==> s.threads[t] == Idle;
    assert SlotsOwned(s, own);
    assert InvWith(s, own, bown);
  }

  lemma {:induction false} RunKeepsInv(s: State, steps: seq<Step>)
    requires Inv(s) && IsRun(s, steps)
    ensures Inv(After(s, steps))
    decreases |steps|
  {
    if steps != [] {
      StepKeeps(s, steps[0]);
      RunKeepsInv(Next(s, steps[0]), steps[1..]);
    }
  }
}
