/** Runs and inputs at which the driver's RDMA code does not keep the ownership of its slots. */
module RdmaFindings {
  import opened Axiom
  import opened RdmaProtocol
  import opened RdmaTheorems
  import opened SlotPool

  /** A thread of the driver waits for the acknowledgement of its first operation. */
  lemma FirstWait() returns (s: State)
    ensures Reachable(s) && s.threads == [Waiting(0)] && |s.status| == |s.completions| == |s.current| == MSG_ID_NUM
    ensures s.status[0].dst == 1 && s.status[0].ackWaiting
  {
    hide Reachable;
    var s0 := Init(1, RETRIES_MOD);
    InitReachable(1, RETRIES_MOD);
    ReachableStep(s0, TxCall(0, false));
    var s1 := Next(s0, TxCall(0, false));
    ReachableStep(s1, TxCheck(0, true));
    var s2 := Next(s1, TxCheck(0, true));
    ReachableStep(s2, TxPop(0));
    var s3 := Next(s2, TxPop(0));
    ReachableStep(s3, Transmit(0, 1));
    s := Next(s3, Transmit(0, 1));
  }

  /** The acknowledgement arrives after the signal was seen and before the store: the slot is lost. */
  lemma InterruptRace() returns (s: State)
    ensures Reachable(s) && s.threads == [Waiting(0)] && 0 < |s.status| && s.status[0].ackReceived
    ensures var e := StopWaiting(s, 0, 0);
            !Inv(e) && !IsFree(e, 0) && !IsHeld(e, 0) && !IsAwaiting(e, 0) && !IsAcked(e, 0)
  {
    var w := FirstWait();
    ReachableStep(w, Ack(0, 1, false));
    s := Next(w, Ack(0, 1, false));
    ReachableInv(s);
    InterruptSafeIff(s, 0);
  }

  /** Right after initialisation an acknowledgement from node 255, for any slot, frees slot 0 twice. */
  lemma NullNodeAck(threads: nat, m: nat)
    requires m < MSG_ID_NUM
    ensures var e := HandleAck(Init(threads, RETRIES_MOD), m, NULL_NODE, false);
            !NoDup(e.rdma.free) && !Ownership(e)
  {
    var s := Init(threads, RETRIES_MOD);
    var e := HandleAck(s, m, NULL_NODE, false);
    assert s.rdma.free[0] == 0;
    assert e.rdma.free[0] == 0 && e.rdma.free[1] == 0;
  }

  /** After a synchronous send has come to its end, one for its slot is final as well, and harmless. */
  lemma NullNodeAckHarmless() returns (s: State)
    ensures Reachable(s) && IsFree(s, 0) && |s.status| == |s.completions| == |s.current| == MSG_ID_NUM
    ensures Judge(s.status[0], NULL_NODE, false) == Final && !IsAwaiting(s, 0) && !IsAcked(s, 0)
    ensures Ownership(HandleAck(s, 0, NULL_NODE, false))
  {
    hide Reachable, Ownership, Inv, IsAcked, IsAwaiting, IsHeld;
    var w := FirstWait();
    ReachableStep(w, Ack(0, 1, false));
    var a := Next(w, Ack(0, 1, false));
    ReachableStep(a, WakeAcked(0));
    var c := Next(a, WakeAcked(0));
    ReachableStep(c, Release(0));
    s := Next(c, Release(0));
    assert s.rdma.free[0] == 0;
    ReachableInv(s);
    OneState(s, 0);
    AckSafeIff(s, 0, NULL_NODE, false);
  }
}
