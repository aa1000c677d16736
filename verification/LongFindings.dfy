/** Runs of LONG reception that cost the hardware a buffer. */
module LongFindings {
  import opened Axiom
  import opened SlotPool
  import opened LongLayout
  import opened LongReceive
  import opened LongProofs

  /** Message h, in buffer b, is the only one and the kthread has it. */
  ghost predicate Fetched(s: State, s0: State, b: nat, h: Header) {
    && Sized(s) && s.k == KHas(h) && s.fifo == [] && s.lost == s.unfound == s.leaked == {} && b < BUFS && !s.armed[b]
    && s.pool == s0.pool && s.threads == s0.threads && s.mutex == s0.mutex && s.rdmaSize == s0.rdmaSize
  }

  lemma FirstMessageFetched(threads: nat, rdmaSize: nat, b: nat, h: Header) returns (s: State)
    requires b < BUFS && h.long && h.addr == HwAddr(rdmaSize, b)
    ensures Reachable(s) && Fetched(s, Init(threads, rdmaSize), b, h)
  {
    hide Reachable;
    var s0 := Init(threads, rdmaSize);
    InitReachable(threads, rdmaSize);
    ReachableStep(s0, NicLong(b, h));
    var s1 := Next(s0, NicLong(b, h));
    assert s1.fifo == [h];
    ReachableStep(s1, Kthread);
    s := Next(s1, Kthread);
  }

  /** The kthread has just put the first message, for buffer b, into slot 0. */
  lemma FirstMessageFilled(threads: nat, rdmaSize: nat, b: nat, h: Header) returns (s: State)
    requires b < BUFS && h.long && h.addr == HwAddr(rdmaSize, b)
    ensures Reachable(s) && Enabled(s, Kthread) && s.rdmaSize == rdmaSize
    ensures s.k == KFilled(0) && s.desc[0] == h && s.fifo == [] && s.lost == s.unfound == s.leaked == {} && !s.armed[b]
    ensures s.pool == Fresh(PORT_NUM, BUFS).PopFree() && s.threads == Init(threads, rdmaSize).threads
    ensures s.mutex == Init(threads, rdmaSize).mutex
  {
    hide Reachable;
    var f := FirstMessageFetched(threads, rdmaSize, b, h);
    assert f.pool.free[0] == 0;
    ReachableStep(f, Kthread);
    s := Next(f, Kthread);
  }

  /** The buffer is not armed in any continuation. */
  ghost predicate NeverArmed(s: State, b: nat) {
    forall steps :: IsRun(s, steps) ==> b < |After(s, steps).armed| && !After(s, steps).armed[b]
  }

  lemma LostNeverArmed(s: State, b: nat)
    requires Reachable(s) && b in s.lost + s.unfound
    ensures NeverArmed(s, b)
  {
    ReachableInv(s);
    forall steps | IsRun(s, steps) ensures b < |After(s, steps).armed| && !After(s, steps).armed[b] {
      LostForEver(s, steps, b);
    }
  }

  /** With any message for a port above 6 the fourth step of a run loses the message's buffer for good. */
  lemma BadPortLoses(threads: nat, rdmaSize: nat, b: nat, h: Header) returns (e: State)
    requires b < BUFS && h.long && h.addr == HwAddr(rdmaSize, b) && h.port >= PORT_NUM
    ensures Reachable(e) && e.rdmaSize == rdmaSize && e.lost == {b} && NeverArmed(e, b)
  {
    hide Reachable, NeverArmed;
    var s := FirstMessageFilled(threads, rdmaSize, b, h);
    ReachableStep(s, Kthread);
    GivenToHw(rdmaSize, b);
    e := Next(s, Kthread);
    LostNeverArmed(e, b);
  }

  /** The message in buffer b, whose address is not findable, is queued alone on port 0. */
  lemma FirstMessageQueued(rdmaSize: nat, b: nat, h: Header) returns (s: State)
    requires b < BUFS && h.long && h.addr == HwAddr(rdmaSize, b) && h.port == 0
    ensures Reachable(s) && Sized(s) && s.rdmaSize == rdmaSize && s.threads == [Idle] && s.mutex[0] == None
    ensures s.k == KIdle && s.fifo == [] && !s.armed[b] && s.lost == s.unfound == s.leaked == {}
    ensures s.pool.queues[0] == [0] && s.desc[0] == h && forall x :: 0 < x < BUFS ==> x in s.pool.free
  {
    hide Reachable;
    var f := FirstMessageFilled(1, rdmaSize, b, h);
    ReachableStep(f, Kthread);
    s := Next(f, Kthread);
    var free := Fresh(PORT_NUM, BUFS).free;
    forall x | 0 < x < BUFS ensures x in s.pool.free {
      assert free[1..][x - 1] == x;
    }
  }

  /** The only thread receives the message that is queued alone on port 0. */
  lemma ReaderTakes(s: State, h: Header) returns (e: State)
    requires Reachable(s) && Sized(s) && s.threads == [Idle] && s.mutex[0] == None && s.k == KIdle && s.fifo == []
    requires s.pool.queues[0] == [0] && s.desc[0] == h
    ensures Reachable(e) && Sized(e) && e.threads == [Reading(0, h)] && e.k == KIdle && e.fifo == []
    ensures e.pool == s.pool.Dequeue(0) && e.armed == s.armed && e.rdmaSize == s.rdmaSize
    ensures e.lost == s.lost && e.unfound == s.unfound
  {
    hide Reachable;
    ReachableStep(s, Lock(0, 0));
    var s1 := Next(s, Lock(0, 0));
    ReachableStep(s1, Check(0));
    var s2 := Next(s1, Check(0));
    ReachableStep(s2, Take(0));
    e := Next(s2, Take(0));
  }

  /** A reader that finds no buffer for the address frees the slot and arms nothing. */
  lemma NothingArmed(s: State, h: Header, b: nat) returns (e: State)
    requires Reachable(s) && Sized(s) && s.threads == [Reading(0, h)] && s.k == KIdle && s.fifo == [] && b < BUFS
    requires s.BufOf(h) == None && s.Origin(h) == b && !s.armed[b] && s.lost == s.unfound == {}
    requires forall x :: 0 < x < BUFS ==> x in s.pool.free
    ensures Reachable(e) && e.rdmaSize == s.rdmaSize && Sized(e) && !Accounted(e, b)
    ensures !e.armed[b] && Unclaimed(e, b) && e.lost == {} && e.unfound == {b}
  {
    hide Reachable;
    ReachableStep(s, GiveBack(0));
    e := Next(s, GiveBack(0));
    assert e.threads == [Idle] && e.pool.free == [0] + s.pool.free;
  }

  /**
   If a buffer is not findable, a message received in it and read by a thread leaves it busy for
   good although nobody has it any more.
   */
  lemma UnaddressableLoses(rdmaSize: nat, b: nat) returns (e: State)
    requires b < BUFS && !Findable(rdmaSize, b)
    ensures Reachable(e) && e.rdmaSize == rdmaSize && Sized(e) && !Accounted(e, b)
    ensures !e.armed[b] && Unclaimed(e, b) && e.lost == {} && NeverArmed(e, b)
  {
    hide Reachable, NeverArmed, Unclaimed, Accounted;
    BufferRoundTrip(rdmaSize, b);
    GivenToHw(rdmaSize, b);
    var h := Header(true, HwAddr(rdmaSize, b), 0, 1);
    var queued := FirstMessageQueued(rdmaSize, b, h);
    var taken := ReaderTakes(queued, h);
    e := NothingArmed(taken, h, b);
    LostNeverArmed(e, b);
  }

  /** The slot is not free in any continuation. */
  ghost predicate NeverFree(s: State, x: nat) {
    forall steps :: IsRun(s, steps) ==> x !in After(s, steps).pool.free
  }

  /** A flush of the same message costs its slot and its buffer for good. */
  lemma UnaddressableLeaks(rdmaSize: nat, b: nat) returns (e: State)
    requires b < BUFS && !Findable(rdmaSize, b)
    ensures Reachable(e) && e.rdmaSize == rdmaSize && e.leaked == {0} && NeverFree(e, 0) && NeverArmed(e, b)
  {
    BufferRoundTrip(rdmaSize, b);
    GivenToHw(rdmaSize, b);
    var h := Header(true, HwAddr(rdmaSize, b), 0, 1);
    var s := FirstMessageQueued(rdmaSize, b, h);
    e := FlushFails(s, h);
    ReachableInv(e);
    forall steps | IsRun(e, steps)
      ensures 0 !in After(e, steps).pool.free && b < |After(e, steps).armed| && !After(e, steps).armed[b]
    {
      LeakedForEver(e, steps, 0);
    }
  }

  lemma FlushFails(s: State, h: Header) returns (e: State)
    requires Reachable(s) && Sized(s) && s.threads == [Idle] && s.mutex[0] == None && s.leaked == {}
    requires s.pool.queues[0] == [0] && s.desc[0] == h && s.BufOf(h) == None
    ensures Reachable(e) && e.rdmaSize == s.rdmaSize && e.leaked == {0} && e.desc == s.desc
  {
    hide Reachable;
    ReachableStep(s, FlushLock(0, 0));
    var s1 := Next(s, FlushLock(0, 0));
    ReachableStep(s1, Flush(0));
    e := Next(s1, Flush(0));
  }

  ghost predicate WellAccounted(s: State) {
    Sized(s) && forall b: nat :: b < BUFS ==> Accounted(s, b)
  }

  ghost predicate AlwaysAccounted(rdmaSize: nat) {
    forall s: State :: Reachable(s) && s.rdmaSize == rdmaSize ==> WellAccounted(s)
  }

  /** For every size: the buffers are accounted for in every reachable state exactly when all are findable. */
  lemma AccountedIffAddressable(rdmaSize: nat)
    ensures AlwaysAccounted(rdmaSize) <==> Addressable(rdmaSize)
  {
    hide Reachable, Accounted, Findable;
    if Addressable(rdmaSize) {
      forall s: State | Reachable(s) && s.rdmaSize == rdmaSize ensures WellAccounted(s) {
        BuffersAccounted(s, 0);
        forall b: nat | b < BUFS ensures Accounted(s, b) {
          BuffersAccounted(s, b);
        }
      }
    } else {
      var b: nat :| b < BUFS && !Findable(rdmaSize, b);
      var e := UnaddressableLoses(rdmaSize, b);
      assert !WellAccounted(e);
    }
  }
}
