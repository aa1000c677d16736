/** Every step of LONG reception keeps the two pools in step; the theorems are at the end. */
module LongProofs {
  import opened Axiom
  import opened SlotPool
  import opened LongLayout
  import opened LongReceive

  // ---------------------------------------------------------------- slots

  lemma SlotsFollow(s: State, s': State, own: seq<Owner>)
    requires SlotInv(s, own) && s'.pool == s.pool && Sized(s') && s'.leaked == s.leaked
    requires s'.k.KFilled? == s.k.KFilled? && (s.k.KFilled? ==> s'.k == s.k)
    requires |s'.threads| == |s.threads|
    requires forall t :: 0 <= t < |s.threads| ==>
               s'.threads[t].Reading? == s.threads[t].Reading?
               && (s.threads[t].Reading? ==> s'.threads[t].slot == s.threads[t].slot)
    ensures SlotInv(s', own)
  {}

  lemma FillOwns(s: State, own: seq<Owner>, h: Header)
    requires SlotInv(s, own) && s.k.KHas? && s.pool.free != []
    ensures s.pool.free[0] < |own|
    ensures SlotInv(FillSlot(s, h), own[s.pool.free[0] := HeldByKthread])
  {}

  lemma PlaceOwns(s: State, own: seq<Owner>, slot: nat)
    requires SlotInv(s, own) && s.k == KFilled(slot) && slot < |s.desc|
    ensures SlotInv(Place(s, slot), own[slot := Listed])
  {
    if s.desc[slot].port >= PORT_NUM {
      PushFreeKeeps(s.pool, slot);
    } else {
      EnqueueKeeps(s.pool, s.desc[slot].port, slot);
    }
  }

  lemma TakeOwns(s: State, own: seq<Owner>, t: nat, p: nat)
    requires SlotInv(s, own) && t < |s.threads| && s.threads[t] == Checked(p) && p < PORT_NUM
    requires s.pool.queues[p] != []
    ensures s.pool.queues[p][0] < |own| && SlotInv(TakeMsg(s, t, p), own[s.pool.queues[p][0] := HeldBy(t)])
  {
    DequeueKeeps(s.pool, p);
  }

  lemma GiveBackOwns(s: State, own: seq<Owner>, t: nat)
    requires SlotInv(s, own) && t < |s.threads| && s.threads[t].Reading?
    ensures s.threads[t].slot < |own| && s.pool.Held(s.threads[t].slot)
    ensures SlotInv(GiveSlotBack(s, t, s.threads[t].slot, s.threads[t].header), own[s.threads[t].slot := Listed])
  {}

  lemma FlushOneOwns(s: State, own: seq<Owner>, p: nat, armed: seq<bool>)
    requires SlotInv(s, own) && p < PORT_NUM && s.pool.queues[p] != [] && |armed| == BUFS
    ensures SlotInv(s.(pool := s.pool.Dequeue(p).PushFree(s.pool.queues[p][0]), armed := armed), own)
  {
    DequeueKeeps(s.pool, p);
    PushFreeKeeps(s.pool.Dequeue(p), s.pool.queues[p][0]);
  }

  /** A flush that cannot find the first message's buffer leaves its slot on no list. */
  lemma FlushLeakOwns(s: State, own: seq<Owner>, p: nat)
    requires SlotInv(s, own) && p < PORT_NUM && s.pool.queues[p] != []
    ensures s.pool.queues[p][0] < |own|
    ensures SlotInv(s.(pool := s.pool.Dequeue(p), leaked := s.leaked + {s.pool.queues[p][0]}),
                    own[s.pool.queues[p][0] := Leaked])
  {
    DequeueKeeps(s.pool, p);
  }

  // ---------------------------------------------------------------- buffers

  /** The FIFO, its buffers and their contents are as before. */
  lemma FifoFollows(s: State, s': State, bown: seq<BufOwner>, bown': seq<BufOwner>)
    requires FifoInv(s, bown) && |bown'| == |bown| == |s.mem|
    requires s'.fifo == s.fifo && s'.mem == s.mem && s'.rdmaSize == s.rdmaSize
    requires forall b :: 0 <= b < |bown| ==> (bown'[b] == InFifo <==> bown[b] == InFifo)
    ensures FifoInv(s', bown')
  {}

  lemma NicFifo(s: State, b: nat, h: Header, bown: seq<BufOwner>)
    requires FifoInv(s, bown) && |bown| == BUFS && Enabled(s, NicLong(b, h)) && bown[b] == Armed
    requires s.Origin(h) == b && Looked(s, h)
    ensures FifoInv(Next(s, NicLong(b, h)), bown[b := InFifo])
  {
    hide GivenTo, Rdma2Buf, Findable, HwAddr;
    var s', bown' := Next(s, NicLong(b, h)), bown[b := InFifo];
    assert s'.fifo[|s.fifo|] == h;
    forall c | 0 <= c < |bown'| && bown'[c] == InFifo ensures FifoHas(s', c) {
      if c != b {
        var i :| 0 <= i < |s.fifo| && s.fifo[i].long && s.Origin(s.fifo[i]) == c;
        assert s'.fifo[i] == s.fifo[i];
      }
    }
  }

  lemma NicBufs(s: State, b: nat, h: Header, bown: seq<BufOwner>)
    requires BufInv(s, bown) && Enabled(s, NicLong(b, h))
    ensures b < |bown| && BufInv(Next(s, NicLong(b, h)), bown[b := InFifo])
  {
    hide FifoInv;
    BufferRoundTrip(s.rdmaSize, b);
    GivenToHw(s.rdmaSize, b);
    NicFifo(s, b, h, bown);
    var s', bown' := Next(s, NicLong(b, h)), bown[b := InFifo];
    assert forall g, o :: o != Armed && o != InFifo && Fits(s, bown, g, o) ==> Fits(s', bown', g, o);
    assert HolderInv(s', bown');
  }

  lemma OtherBufs(s: State, h: Header, bown: seq<BufOwner>)
    requires BufInv(s, bown) && Enabled(s, NicOther(h))
    ensures BufInv(Next(s, NicOther(h)), bown)
  {
    hide FifoInv;
    OtherFifo(s, h, bown);
    assert HolderInv(Next(s, NicOther(h)), bown);
  }

  lemma OtherFifo(s: State, h: Header, bown: seq<BufOwner>)
    requires FifoInv(s, bown) && Enabled(s, NicOther(h)) && |bown| == BUFS
    ensures FifoInv(Next(s, NicOther(h)), bown)
  {
    var s' := Next(s, NicOther(h));
    forall b | 0 <= b < |bown| && bown[b] == InFifo ensures FifoHas(s', b) {
      var i :| 0 <= i < |s.fifo| && s.fifo[i].long && s.Origin(s.fifo[i]) == b;
      assert s'.fifo[i] == s.fifo[i];
    }
  }

  lemma FetchFifo(s: State, bown: seq<BufOwner>, bown': seq<BufOwner>, fifo': seq<Header>)
    requires FifoInv(s, bown) && |bown'| == |bown| == |s.mem| && s.fifo != [] && fifo' == s.fifo[1..]
    requires if s.fifo[0].long then bown' == bown[s.Origin(s.fifo[0]) := WithKthread] else bown' == bown
    ensures FifoInv(s.(fifo := fifo'), bown')
  {}

  lemma FetchHolders(s: State, bown: seq<BufOwner>)
    requires HolderInv(s, bown) && |bown| == |s.mem| && s.k.KIdle? && s.fifo != [] && s.fifo[0].long
    requires Fits(s, bown, s.fifo[0], InFifo)
    ensures HolderInv(s.(fifo := s.fifo[1..], k := KHas(s.fifo[0])), bown[s.Origin(s.fifo[0]) := WithKthread])
  {}

  lemma FetchBufs(s: State, bown: seq<BufOwner>)
    requires BufInv(s, bown) && s.k.KIdle? && Enabled(s, Kthread)
    ensures exists bown' :: BufInv(KNext(s), bown')
  {
    var s', h := KNext(s), s.fifo[0];
    if h.long {
      assert Fits(s, bown, h, InFifo);
      var bown' := bown[s.Origin(h) := WithKthread];
      FetchFifo(s, bown, bown', s'.fifo);
      FifoFollows(s.(fifo := s'.fifo), s', bown', bown');
      FetchHolders(s, bown);
      assert BufInv(s', bown');
    } else {
      FetchFifo(s, bown, bown, s'.fifo);
      assert HolderInv(s', bown);
      assert BufInv(s', bown);
    }
  }

  /** With the kthread holding a message, 32 used slots would need a 33rd buffer. */
  lemma SlotLeft(s: State, bown: seq<BufOwner>)
    requires BufInv(s, bown) && s.pool.Wf() && s.k.KHas?
    ensures s.pool.free != []
  {
    if s.pool.free == [] {
      var f := seq(BUFS, x requires 0 <= x < BUFS => s.Origin(s.desc[x]));
      forall x | 0 <= x < BUFS ensures f[x] < BUFS && bown[f[x]] == InSlot(x) {
        assert Fits(s, bown, s.desc[x], InSlot(x));
      }
      Pigeonhole(f, s.Origin(s.k.header));
    }
  }

  lemma FillBufs(s: State, own: seq<Owner>, bown: seq<BufOwner>)
    requires SlotInv(s, own) && BufInv(s, bown) && s.k.KHas?
    ensures exists bown' :: BufInv(FillSlot(s, s.k.header), bown')
  {
    hide FifoInv;
    SlotLeft(s, bown);
    var h, x := s.k.header, s.pool.free[0];
    var s', b := FillSlot(s, h), s.Origin(h);
    var bown' := bown[b := InSlot(x)];
    assert s.pool.free == [x] + s'.pool.free;
    assert own[x] == Listed;
    FifoFollows(s, s', bown, bown');
    forall y | 0 <= y < |s'.desc| && y !in s'.pool.free ensures Fits(s', bown', s'.desc[y], InSlot(y)) {
      if y != x { assert y !in s.pool.free && Fits(s, bown, s.desc[y], InSlot(y)); }
    }
    assert HolderInv(s', bown');
    assert BufInv(s', bown');
  }

  /** The buffer of slot x changes hands when the slot is freed. */
  lemma FreedHolders(s: State, s': State, x: nat, b: nat, o: BufOwner, bown: seq<BufOwner>)
    requires HolderInv(s, bown) && |bown| == |s.mem| && Sized(s) && Sized(s')
    requires x < |s.desc| && x !in s.pool.free && s.Origin(s.desc[x]) == b
    requires s'.pool.free == [x] + s.pool.free && s'.desc == s.desc && s'.mem == s.mem && s'.rdmaSize == s.rdmaSize
    requires |s'.threads| == |s.threads| && s'.k.KHas? == s.k.KHas? && (s.k.KHas? ==> s'.k == s.k)
    requires o == Lost || o == Unfound || o == Armed || o.Rearming?
    requires o.Rearming? ==> o.t < |s.threads| && s'.threads == s.threads[o.t := Rearm(b)] && !s.threads[o.t].Rearm?
    requires !o.Rearming? ==>
               forall t :: 0 <= t < |s.threads| ==>
                 s.threads[t].Rearm? || s'.threads[t].Rearm? || s'.threads[t].Reading? ==>
                 s'.threads[t] == s.threads[t]
    ensures b < |bown| && bown[b] == InSlot(x)
    ensures HolderInv(s', bown[b := o])
  {}

  lemma DropBufs(s: State, own: seq<Owner>, bown: seq<BufOwner>)
    requires SlotInv(s, own) && BufInv(s, bown) && s.k.KFilled? && s.desc[s.k.slot].port >= PORT_NUM
    ensures s.Origin(s.desc[s.k.slot]) < |bown|
    ensures BufInv(Place(s, s.k.slot), bown[s.Origin(s.desc[s.k.slot]) := Lost])
  {
    hide FifoInv, FlagInv, GivenTo, Rdma2Buf, Findable;
    var x := s.k.slot;
    var s', b := Place(s, x), s.Origin(s.desc[x]);
    assert s.pool.Held(x);
    FreedHolders(s, s', x, b, Lost, bown);
    FifoFollows(s, s', bown, bown[b := Lost]);
    DropFlags(s, s', b, bown);
  }

  lemma DropFlags(s: State, s': State, b: nat, bown: seq<BufOwner>)
    requires FlagInv(s, bown) && b < |bown| && bown[b] != Armed && bown[b] != Lost && bown[b] != Unfound
    requires s'.armed == s.armed && s'.lost == s.lost + {b} && s'.discards == s.discards + 1
    requires s'.unfound == s.unfound && s'.leaked == s.leaked && s'.rdmaSize == s.rdmaSize
    ensures FlagInv(s', bown[b := Lost])
  {
    assert b !in s.lost;
  }

  lemma QueueBufs(s: State, own: seq<Owner>, bown: seq<BufOwner>)
    requires SlotInv(s, own) && BufInv(s, bown) && s.k.KFilled? && s.desc[s.k.slot].port < PORT_NUM
    requires Sized(Place(s, s.k.slot))
    ensures BufInv(Place(s, s.k.slot), bown)
  {}

  lemma TakeBufs(s: State, t: nat, p: nat, bown: seq<BufOwner>)
    requires BufInv(s, bown) && t < |s.threads| && s.threads[t] == Checked(p) && p < PORT_NUM
    requires s.pool.queues[p] != [] && Sized(TakeMsg(s, t, p))
    ensures BufInv(TakeMsg(s, t, p), bown)
  {}

  lemma GiveBackBufs(s: State, own: seq<Owner>, t: nat, bown: seq<BufOwner>)
    requires SlotInv(s, own) && BufInv(s, bown) && t < |s.threads| && s.threads[t].Reading?
    requires Sized(GiveSlotBack(s, t, s.threads[t].slot, s.threads[t].header))
    ensures exists bown' :: BufInv(GiveSlotBack(s, t, s.threads[t].slot, s.threads[t].header), bown')
  {
    hide FifoInv, FlagInv, GivenTo, Rdma2Buf, Findable;
    var x, h := s.threads[t].slot, s.threads[t].header;
    var s' := GiveSlotBack(s, t, x, h);
    assert s.pool.Held(x) && s.desc[x] == h;
    assert Fits(s, bown, h, InSlot(x));
    var b := s.Origin(h);
    var o := if s.BufOf(h).Some? then Rearming(t) else Unfound;
    FreedHolders(s, s', x, b, o, bown);
    FifoFollows(s, s', bown, bown[b := o]);
    GiveBackFlags(s, t, h, o, bown);
    assert BufInv(s', bown[b := o]);
  }

  lemma GiveBackFlags(s: State, t: nat, h: Header, o: BufOwner, bown: seq<BufOwner>)
    requires FlagInv(s, bown) && t < |s.threads| && s.threads[t].Reading?
    requires s.Origin(h) < |bown| && Looked(s, h) && bown[s.Origin(h)].InSlot?
    requires o == if s.BufOf(h).Some? then Rearming(t) else Unfound
    ensures FlagInv(GiveSlotBack(s, t, s.threads[t].slot, h), bown[s.Origin(h) := o])
  {
    hide GivenTo, Rdma2Buf, Findable;
    assert Addressable(s.rdmaSize) ==> Findable(s.rdmaSize, s.Origin(h));
  }

  lemma ArmHolders(s: State, s': State, t: nat, bown: seq<BufOwner>)
    requires HolderInv(s, bown) && |bown| == |s.mem| && t < |s.threads| && s.threads[t].Rearm?
    requires s' == s.(threads := s.threads[t := Idle], armed := s'.armed)
    ensures s.threads[t].buf < |bown| && bown[s.threads[t].buf] == Rearming(t)
    ensures HolderInv(s', bown[s.threads[t].buf := Armed])
  {}

  lemma ArmBufs(s: State, t: nat, bown: seq<BufOwner>)
    requires BufInv(s, bown) && Enabled(s, Arm(t))
    ensures s.threads[t].buf < |bown| && BufInv(Next(s, Arm(t)), bown[s.threads[t].buf := Armed])
  {
    hide FifoInv;
    var s' := Next(s, Arm(t));
    ArmHolders(s, s', t, bown);
    FifoFollows(s, s', bown, bown[s.threads[t].buf := Armed]);
  }

  /** Steps that touch no slot, buffer or descriptor. */
  lemma BufsFollow(s: State, s': State, bown: seq<BufOwner>)
    requires BufInv(s, bown) && s' == s.(mutex := s'.mutex, threads := s'.threads) && Sized(s')
    requires |s'.threads| == |s.threads|
    requires forall t :: 0 <= t < |s.threads| ==>
               s.threads[t].Rearm? || s'.threads[t].Rearm? || s'.threads[t].Reading? ==>
               s'.threads[t] == s.threads[t]
    ensures BufInv(s', bown)
  {}

  // ---------------------------------------------------------------- flushing a port

  lemma FlushOneBufs(s: State, own: seq<Owner>, p: nat, bown: seq<BufOwner>)
    requires SlotInv(s, own) && BufInv(s, bown) && p < PORT_NUM && s.pool.queues[p] != []
    requires s.BufOf(s.desc[s.pool.queues[p][0]]).Some?
    ensures var x := s.pool.queues[p][0];
            && s.BufOf(s.desc[x]).value < BUFS
            && var s' := s.(pool := s.pool.Dequeue(p).PushFree(x), armed := s.armed[s.BufOf(s.desc[x]).value := true]);
               SlotInv(s', own) && exists bown' :: BufInv(s', bown')
  {
    hide FifoInv;
    var x := s.pool.queues[p][0];
    assert x !in s.pool.free by { assert Apart(s.pool.free, s.pool.queues[p]); }
    assert Fits(s, bown, s.desc[x], InSlot(x));
    var b := s.Origin(s.desc[x]);
    var s' := s.(pool := s.pool.Dequeue(p).PushFree(x), armed := s.armed[b := true]);
    FlushOneOwns(s, own, p, s.armed[b := true]);
    FreedHolders(s, s', x, b, Armed, bown);
    FifoFollows(s, s', bown, bown[b := Armed]);
    assert BufInv(s', bown[b := Armed]);
  }

  /** A flush that fails keeps the buffer with the slot, which no list has any more. */
  lemma FlushLeakBufs(s: State, own: seq<Owner>, p: nat, bown: seq<BufOwner>)
    requires SlotInv(s, own) && BufInv(s, bown) && p < PORT_NUM && s.pool.queues[p] != []
    requires s.BufOf(s.desc[s.pool.queues[p][0]]).None? && Sized(s.(pool := s.pool.Dequeue(p)))
    ensures !Addressable(s.rdmaSize)
    ensures BufInv(s.(pool := s.pool.Dequeue(p), leaked := s.leaked + {s.pool.queues[p][0]}), bown)
  {
    hide FifoInv;
    var x := s.pool.queues[p][0];
    var s' := s.(pool := s.pool.Dequeue(p), leaked := s.leaked + {x});
    assert x !in s.pool.free by { assert Apart(s.pool.free, s.pool.queues[p]); }
    assert Fits(s, bown, s.desc[x], InSlot(x));
    assert !Findable(s.rdmaSize, s.Origin(s.desc[x]));
    FifoFollows(s, s', bown, bown);
    assert HolderInv(s', bown);
  }

  lemma {:induction false} FlushKeepsInv(s: State, own: seq<Owner>, p: nat, bown: seq<BufOwner>)
    requires SlotInv(s, own) && BufInv(s, bown) && p < PORT_NUM
    ensures Owned(FlushPort(s, p)) && exists bown' :: BufInv(FlushPort(s, p), bown')
    ensures var e := FlushPort(s, p);
            && e.threads == s.threads && e.mutex == s.mutex && e.k == s.k && e.rdmaSize == s.rdmaSize
            && |e.pool.queues| == PORT_NUM
            && (forall q :: 0 <= q < PORT_NUM && q != p ==> e.pool.queues[q] == s.pool.queues[q])
            && (Addressable(s.rdmaSize) ==> e.pool.queues[p] == [])
    decreases |s.pool.queues[p]|
  {
    hide FifoInv, HolderInv, Pool.Wf;
    if s.pool.queues[p] != [] {
      var x := s.pool.queues[p][0];
      if s.BufOf(s.desc[x]).None? {
        FlushLeakOwns(s, own, p);
        FlushLeakBufs(s, own, p, bown);
      } else {
        FlushOneBufs(s, own, p, bown);
        var s' := s.(pool := s.pool.Dequeue(p).PushFree(x), armed := s.armed[s.BufOf(s.desc[x]).value := true]);
        var bown' :| BufInv(s', bown');
        FlushKeepsInv(s', own, p, bown');
      }
    }
  }

  // ---------------------------------------------------------------- checks stay true

  lemma ChecksFollow(s: State, s': State, t: nat, p: nat)
    requires CheckInv(s) && Sized(s') && t < |s.threads| == |s'.threads| && p < PORT_NUM
    requires s'.threads == s.threads[t := s'.threads[t]]
    requires s.mutex[p] in {None, Some(t)} && s'.mutex == s.mutex[p := s'.mutex[p]]
    requires InMutex(s'.threads[t]) ==> s'.threads[t].port == p && s'.mutex[p] == Some(t)
    requires s'.threads[t].Checked? ==> s'.pool.queues[p] != []
    requires forall q :: 0 <= q < PORT_NUM && q != p ==> s'.pool.queues[q] == s.pool.queues[q]
    ensures CheckInv(s')
  {}

  lemma ChecksGrow(s: State, s': State)
    requires CheckInv(s) && Sized(s') && s'.mutex == s.mutex && |s'.threads| == |s.threads|
    requires forall t :: 0 <= t < |s.threads| ==> InMutex(s'.threads[t]) ==> s'.threads[t] == s.threads[t]
    requires forall q :: 0 <= q < PORT_NUM && s.pool.queues[q] != [] ==> s'.pool.queues[q] != []
    ensures CheckInv(s')
  {}

  // ---------------------------------------------------------------- all steps, all runs

  lemma NicKeeps(s: State, step: Step)
    requires Inv(s) && Enabled(s, step) && (step.NicLong? || step.NicOther?)
    ensures Inv(Next(s, step))
  {
    hide BufInv;
    var own, bown :| SlotInv(s, own) && BufInv(s, bown);
    var s' := Next(s, step);
    SlotsFollow(s, s', own);
    ChecksGrow(s, s');
    match step
    case NicLong(b, h) => NicBufs(s, b, h, bown);
    case NicOther(h) => OtherBufs(s, h, bown);
  }

  lemma FetchKeeps(s: State, own: seq<Owner>, bown: seq<BufOwner>)
    requires SlotInv(s, own) && BufInv(s, bown) && CheckInv(s)
    requires s.k.KIdle? && Enabled(s, Kthread)
    ensures Inv(KNext(s))
  {
    hide BufInv;
    SlotsFollow(s, KNext(s), own);
    ChecksGrow(s, KNext(s));
    FetchBufs(s, bown);
  }

  lemma FillKeeps(s: State, own: seq<Owner>, bown: seq<BufOwner>)
    requires SlotInv(s, own) && BufInv(s, bown) && CheckInv(s) && s.k.KHas?
    ensures Inv(FillSlot(s, s.k.header))
  {
    hide BufInv;
    SlotLeft(s, bown);
    FillOwns(s, own, s.k.header);
    ChecksGrow(s, FillSlot(s, s.k.header));
    FillBufs(s, own, bown);
  }

  lemma KthreadKeeps(s: State)
    requires Inv(s) && Enabled(s, Kthread)
    ensures Inv(KNext(s))
  {
    hide BufInv, SlotInv, CheckInv;
    var own, bown :| SlotInv(s, own) && BufInv(s, bown);
    match s.k
    case KIdle => FetchKeeps(s, own, bown);
    case KHas(_) => FillKeeps(s, own, bown);
    case KFilled(_) => PlaceKeeps(s, own, bown);
  }

  lemma PlaceKeeps(s: State, own: seq<Owner>, bown: seq<BufOwner>)
    requires SlotInv(s, own) && BufInv(s, bown) && CheckInv(s) && s.k.KFilled?
    ensures Inv(Place(s, s.k.slot))
  {
    hide BufInv;
    PlaceOwns(s, own, s.k.slot);
    ChecksGrow(s, Place(s, s.k.slot));
    if s.desc[s.k.slot].port >= PORT_NUM {
      DropBufs(s, own, bown);
    } else {
      QueueBufs(s, own, bown);
    }
  }

  ghost predicate Quiet(step: Step) {
    step.Lock? || step.FlushLock? || step.Check? || step.Retry? || step.GiveUp?
  }

  lemma QuietSlots(s: State, step: Step, own: seq<Owner>)
    requires SlotInv(s, own) && Enabled(s, step) && Quiet(step)
    ensures SlotInv(Next(s, step), own)
  {
    SlotsFollow(s, Next(s, step), own);
  }

  lemma QuietBufs(s: State, step: Step, bown: seq<BufOwner>)
    requires BufInv(s, bown) && Enabled(s, step) && Quiet(step)
    ensures BufInv(Next(s, step), bown)
  {
    BufsFollow(s, Next(s, step), bown);
  }

  lemma QuietChecks(s: State, step: Step)
    requires CheckInv(s) && Enabled(s, step) && Quiet(step)
    ensures CheckInv(Next(s, step))
  {}

  lemma QuietKeeps(s: State, step: Step)
    requires Inv(s) && Enabled(s, step) && Quiet(step)
    ensures Inv(Next(s, step))
  {
    hide BufInv;
    var own, bown :| SlotInv(s, own) && BufInv(s, bown);
    QuietSlots(s, step, own);
    QuietBufs(s, step, bown);
    QuietChecks(s, step);
  }

  lemma TakeKeeps(s: State, t: nat)
    requires Inv(s) && Enabled(s, Take(t))
    ensures Inv(TakeMsg(s, t, s.threads[t].port))
  {
    hide BufInv;
    var own, bown :| SlotInv(s, own) && BufInv(s, bown);
    var p := s.threads[t].port;
    TakeOwns(s, own, t, p);
    TakeBufs(s, t, p, bown);
    ChecksFollow(s, TakeMsg(s, t, p), t, p);
  }

  lemma GiveBackKeeps(s: State, t: nat)
    requires Inv(s) && Enabled(s, GiveBack(t))
    ensures Inv(GiveSlotBack(s, t, s.threads[t].slot, s.threads[t].header))
  {
    hide BufInv;
    var own, bown :| SlotInv(s, own) && BufInv(s, bown);
    GiveBackOwns(s, own, t);
    GiveBackBufs(s, own, t, bown);
    ChecksGrow(s, GiveSlotBack(s, t, s.threads[t].slot, s.threads[t].header));
  }

  lemma ArmKeeps(s: State, t: nat)
    requires Inv(s) && Enabled(s, Arm(t))
    ensures Inv(Next(s, Arm(t)))
  {
    hide BufInv;
    var own, bown :| SlotInv(s, own) && BufInv(s, bown);
    SlotsFollow(s, Next(s, Arm(t)), own);
    ArmBufs(s, t, bown);
    ChecksGrow(s, Next(s, Arm(t)));
  }

  /** The state in which the flush loop runs, as far as the slots and buffers are concerned. */
  function Unlocked(s: State, t: nat, p: nat): State
    requires Sized(s) && t < |s.threads| && p < PORT_NUM
  {
    Goto(s, t, Idle).(mutex := s.mutex[p := None])
  }

  lemma UnlockedKeeps(s: State, t: nat, p: nat, own: seq<Owner>, bown: seq<BufOwner>)
    requires SlotInv(s, own) && BufInv(s, bown) && t < |s.threads| && s.threads[t] == FlushLocked(p) && p < PORT_NUM
    ensures SlotInv(Unlocked(s, t, p), own) && BufInv(Unlocked(s, t, p), bown)
  {
    hide BufInv;
    SlotsFollow(s, Unlocked(s, t, p), own);
    BufsFollow(s, Unlocked(s, t, p), bown);
  }

  lemma FlushChecks(s: State, t: nat, p: nat, own: seq<Owner>, bown: seq<BufOwner>)
    requires CheckInv(s) && t < |s.threads| && s.threads[t] == FlushLocked(p) && p < PORT_NUM
    requires SlotInv(Unlocked(s, t, p), own) && BufInv(Unlocked(s, t, p), bown)
    ensures CheckInv(FlushPort(Unlocked(s, t, p), p))
  {
    FlushKeepsInv(Unlocked(s, t, p), own, p, bown);
    ChecksFollow(s, FlushPort(Unlocked(s, t, p), p), t, p);
  }

  lemma FlushStepKeeps(s: State, t: nat)
    requires Inv(s) && Enabled(s, Flush(t))
    ensures Inv(FlushPort(Unlocked(s, t, s.threads[t].port), s.threads[t].port))
  {
    hide BufInv;
    var own, bown :| SlotInv(s, own) && BufInv(s, bown);
    var p := s.threads[t].port;
    UnlockedKeeps(s, t, p, own, bown);
    FlushChecks(s, t, p, own, bown);
    FlushKeepsInv(Unlocked(s, t, p), own, p, bown);
  }

  lemma StepKeeps(s: State, step: Step)
    requires Inv(s) && Enabled(s, step)
    ensures Inv(Next(s, step))
  {
    hide Inv;
    match step
    case NicLong(_, _) => NicKeeps(s, step);
    case NicOther(_) => NicKeeps(s, step);
    case Kthread => KthreadKeeps(s);
    case Take(t) => TakeKeeps(s, t);
    case GiveBack(t) => GiveBackKeeps(s, t);
    case Arm(t) => ArmKeeps(s, t);
    case Flush(t) => FlushStepKeeps(s, t);
    case _ => QuietKeeps(s, step);
  }

  lemma InitInv(threads: nat, rdmaSize: nat)
    ensures Inv(Init(threads, rdmaSize))
  {
    var s := Init(threads, rdmaSize);
    FreshIsWf(PORT_NUM, BUFS);
    var own := seq(BUFS, _ => Listed);
    assert SlotInv(s, own);
    forall x | 0 <= x < BUFS ensures x in s.pool.free {
      assert s.pool.free[x] == x;
    }
    var bown := seq(BUFS, _ => Armed);
    assert FifoInv(s, bown) && HolderInv(s, bown);
    assert BufInv(s, bown);
  }

  lemma {:induction false} RunKeeps(s: State, steps: seq<Step>)
    requires Inv(s) && IsRun(s, steps)
    ensures Inv(After(s, steps))
    decreases |steps|
  {
    hide Inv, Next, Enabled;
    if steps != [] {
      StepKeeps(s, steps[0]);
      RunKeeps(Next(s, steps[0]), steps[1..]);
    }
  }

  /** Some run from the start, with this size of the RDMA zone, leads to the state. */
  ghost predicate Reachable(s: State) {
    exists threads: nat, steps ::
      IsRun(Init(threads, s.rdmaSize), steps) && s == After(Init(threads, s.rdmaSize), steps)
  }

  lemma ReachableInv(s: State)
    requires Reachable(s)
    ensures Inv(s)
  {
    var threads: nat, steps :|
      IsRun(Init(threads, s.rdmaSize), steps) && s == After(Init(threads, s.rdmaSize), steps);
    InitInv(threads, s.rdmaSize);
    RunKeeps(Init(threads, s.rdmaSize), steps);
  }

  // ---------------------------------------------------------------- theorems

  /** The branch "LONG SW queue empty", and the empty dequeue marked impossible, are never taken. */
  lemma QueueNeverEmpty(s: State, t: nat)
    requires Reachable(s)
    ensures s.k.KHas? ==> s.pool.free != []
    ensures Enabled(s, Take(t)) ==> s.pool.queues[s.threads[t].port] != []
  {
    ReachableInv(s);
    var bown :| BufInv(s, bown);
    if s.k.KHas? { SlotLeft(s, bown); }
  }

  /**
   Slots in use map injectively to busy buffers that still have their payload; with findable
   buffers the driver's own lookup is that map.
   */
  lemma PoolsInStep(s: State, x: nat, y: nat)
    requires Reachable(s) && x < s.pool.size && y < s.pool.size && x !in s.pool.free && y !in s.pool.free
    ensures Sized(s) && s.Origin(s.desc[x]) < BUFS
    ensures !s.armed[s.Origin(s.desc[x])] && s.mem[s.Origin(s.desc[x])] == s.desc[x].payload
    ensures x != y ==> s.Origin(s.desc[x]) != s.Origin(s.desc[y])
    ensures Addressable(s.rdmaSize) ==> s.BufOf(s.desc[x]) == Some(s.Origin(s.desc[x]))
  {
    ReachableInv(s);
    var bown :| BufInv(s, bown);
    assert Fits(s, bown, s.desc[x], InSlot(x)) && Fits(s, bown, s.desc[y], InSlot(y));
  }

  /**
   A reader that finds a buffer copies out the very payload the NIC wrote; the buffer can be
   neither rewritten nor armed. With findable buffers it finds one.
   */
  lemma ReaderSeesPayload(s: State, t: nat)
    requires Reachable(s) && t < |s.threads| && s.threads[t].Reading?
    ensures var h := s.threads[t].header;
            s.BufOf(h).Some? ==>
              && Sized(s) && s.BufOf(h).value < BUFS
              && s.mem[s.BufOf(h).value] == h.payload && !s.armed[s.BufOf(h).value]
              && forall u :: 0 <= u < |s.threads| && s.threads[u].Rearm? ==> s.threads[u].buf != s.BufOf(h).value
    ensures Addressable(s.rdmaSize) ==> s.BufOf(s.threads[t].header).Some?
  {
    hide GivenTo, Rdma2Buf, Findable, FifoInv;
    ReachableInv(s);
    var own, bown :| SlotInv(s, own) && BufInv(s, bown);
    var x := s.threads[t].slot;
    assert s.pool.Held(x);
    assert Fits(s, bown, s.desc[x], InSlot(x));
  }

  /** When a buffer is armed, no slot, descriptor, kthread or other thread still refers to it. */
  lemma ArmIsSafe(s: State, t: nat)
    requires Reachable(s) && Enabled(s, Arm(t))
    ensures var b := s.threads[t].buf;
            && !s.armed[b] && !FifoHas(s, b)
            && (forall x :: 0 <= x < s.pool.size && x !in s.pool.free ==>
                  s.Origin(s.desc[x]) != b && s.BufOf(s.desc[x]) != Some(b))
            && (s.k.KHas? ==> s.Origin(s.k.header) != b && s.BufOf(s.k.header) != Some(b))
            && (forall u :: 0 <= u < |s.threads| && u != t ==> s.threads[u] != Rearm(b))
  {
    ReachableInv(s);
    var bown :| BufInv(s, bown);
    var b := s.threads[t].buf;
    forall x | 0 <= x < s.pool.size && x !in s.pool.free
      ensures s.Origin(s.desc[x]) != b && s.BufOf(s.desc[x]) != Some(b)
    {
      assert Fits(s, bown, s.desc[x], InSlot(x));
    }
  }

  /** Nobody has a message in buffer b. */
  ghost predicate Unclaimed(s: State, b: nat)
    requires Sized(s)
  {
    && !FifoHas(s, b) && !(s.k.KHas? && s.Origin(s.k.header) == b)
    && (forall x :: 0 <= x < s.pool.size && x !in s.pool.free ==> s.Origin(s.desc[x]) != b)
    && (forall t :: 0 <= t < |s.threads| ==> s.threads[t] != Rearm(b))
  }

  ghost predicate FifoFinds(s: State, b: nat) {
    exists i :: 0 <= i < |s.fifo| && s.fifo[i].long && s.BufOf(s.fifo[i]) == Some(b)
  }

  /** Going by the driver's lookups: the buffer is armed exactly when nobody has its message and it is not lost. */
  ghost predicate Accounted(s: State, b: nat)
    requires Sized(s) && b < BUFS
  {
    s.armed[b] <==>
      && !FifoFinds(s, b) && !(s.k.KHas? && s.BufOf(s.k.header) == Some(b))
      && (forall x :: 0 <= x < s.pool.size && x !in s.pool.free ==> s.BufOf(s.desc[x]) != Some(b))
      && (forall t :: 0 <= t < |s.threads| ==> s.threads[t] != Rearm(b))
      && b !in s.lost
  }

  /**
   Every busy buffer is accounted for: somebody has its message, or the message was discarded,
   or it was read without its buffer being found. With findable buffers the last never happens.
   */
  lemma BuffersAccounted(s: State, b: nat)
    requires Reachable(s) && b < BUFS
    ensures Sized(s) && (s.armed[b] <==> Unclaimed(s, b) && b !in s.lost && b !in s.unfound)
    ensures |s.lost| == s.discards && s.lost !! s.unfound
    ensures Addressable(s.rdmaSize) ==> Accounted(s, b) && s.unfound == {} && s.leaked == {}
  {
    ReachableInv(s);
    var bown :| BufInv(s, bown);
    OwnerShows(s, bown, b);
    assert s.lost !! s.unfound by {
      forall c | c in s.lost ensures c !in s.unfound { assert bown[c] == Lost; }
    }
    if Addressable(s.rdmaSize) { LookupShows(s, bown, b); }
  }

  lemma OwnerShows(s: State, bown: seq<BufOwner>, b: nat)
    requires BufInv(s, bown) && b < BUFS
    ensures s.armed[b] <==> Unclaimed(s, b) && b !in s.lost && b !in s.unfound
  {
    forall x | 0 <= x < s.pool.size && x !in s.pool.free
      ensures s.Origin(s.desc[x]) == b ==> bown[b] == InSlot(x)
    {
      assert Fits(s, bown, s.desc[x], InSlot(x));
    }
  }

  /** With findable buffers the lookup finds every message's buffer. */
  lemma LookupShows(s: State, bown: seq<BufOwner>, b: nat)
    requires BufInv(s, bown) && b < BUFS && Addressable(s.rdmaSize)
    ensures Accounted(s, b)
  {
    OwnerShows(s, bown, b);
    assert FifoFinds(s, b) <==> FifoHas(s, b) by {
      forall i | 0 <= i < |s.fifo| && s.fifo[i].long ensures s.BufOf(s.fifo[i]) == Some(s.Origin(s.fifo[i])) {
        assert Fits(s, bown, s.fifo[i], InFifo);
      }
    }
    forall x | 0 <= x < s.pool.size && x !in s.pool.free
      ensures s.BufOf(s.desc[x]) == Some(s.Origin(s.desc[x]))
    {
      assert Fits(s, bown, s.desc[x], InSlot(x));
    }
  }

  /**
   A step loses a buffer exactly when it places that buffer's message and its port is a wrong
   one, or when a reader does not find it; the latter only if the buffer is not findable.
   */
  lemma LostExactly(s: State, step: Step, b: nat)
    requires Inv(s) && Enabled(s, step) && b !in s.lost && b !in s.unfound
    ensures b in Next(s, step).lost <==>
              && step.Kthread? && s.k.KFilled? && s.desc[s.k.slot].port >= PORT_NUM
              && s.Origin(s.desc[s.k.slot]) == b
    ensures b in Next(s, step).unfound <==>
              step.GiveBack? && s.Origin(s.threads[step.t].header) == b && !Findable(s.rdmaSize, b)
    ensures Addressable(s.rdmaSize) && step.Kthread? && s.k.KFilled? ==>
              s.BufOf(s.desc[s.k.slot]) == Some(s.Origin(s.desc[s.k.slot]))
  {
    hide BufInv, GivenTo, Rdma2Buf, Findable;
    var own, bown :| SlotInv(s, own) && BufInv(s, bown);
    if step.Flush? {
      FlushLosesNothing(Unlocked(s, step.t, s.threads[step.t].port), s.threads[step.t].port);
    } else if step.GiveBack? {
      ReaderLooks(s, own, bown, step.t);
    } else if step.Kthread? && s.k.KHas? {
      SlotLeft(s, bown);
    } else if step.Kthread? && s.k.KFilled? {
      KthreadLooks(s, own, bown, s.k.slot);
    }
  }

  lemma KthreadLooks(s: State, own: seq<Owner>, bown: seq<BufOwner>, x: nat)
    requires SlotInv(s, own) && BufInv(s, bown) && s.k == KFilled(x)
    ensures x < |s.desc| && Looked(s, s.desc[x]) && s.Origin(s.desc[x]) < BUFS
  {
    assert s.pool.Held(x);
    assert Fits(s, bown, s.desc[x], InSlot(x));
  }

  lemma ReaderLooks(s: State, own: seq<Owner>, bown: seq<BufOwner>, t: nat)
    requires SlotInv(s, own) && BufInv(s, bown) && t < |s.threads| && s.threads[t].Reading?
    ensures Looked(s, s.threads[t].header) && s.Origin(s.threads[t].header) < BUFS
  {
    var x := s.threads[t].slot;
    assert s.pool.Held(x);
    assert Fits(s, bown, s.desc[x], InSlot(x));
  }

  /** A lost buffer stays lost: it is not armed again in any continuation. */
  lemma {:induction false} LostForEver(s: State, steps: seq<Step>, b: nat)
    requires Inv(s) && IsRun(s, steps) && b in s.lost + s.unfound
    ensures var e := After(s, steps); b in e.lost + e.unfound && b < |e.armed| && !e.armed[b]
    decreases |steps|
  {
    if steps == [] {
      var bown :| BufInv(s, bown);
    } else {
      StepKeeps(s, steps[0]);
      LostGrows(s, steps[0]);
      LostForEver(Next(s, steps[0]), steps[1..], b);
    }
  }

  lemma LostGrows(s: State, step: Step)
    requires Enabled(s, step)
    ensures s.lost <= Next(s, step).lost && s.unfound <= Next(s, step).unfound
  {
    if step.Flush? {
      var t := step.t;
      var p := s.threads[t].port;
      FlushLosesNothing(Goto(s, t, Idle).(mutex := s.mutex[p := None]), p);
    }
  }

  /** The flush of a queue, with these slots in it, stops at slot x: the first whose buffer is not found. */
  ghost predicate StopsAt(s: State, q: seq<nat>, x: nat) {
    exists i :: 0 <= i < |q| && q[i] == x && Unfindable(s, x) && forall j :: 0 <= j < i ==> !Unfindable(s, q[j])
  }

  ghost predicate Unfindable(s: State, x: nat) {
    x < |s.desc| && s.BufOf(s.desc[x]).None?
  }

  /** A step leaves a slot on no list for good exactly when it is a flush that stops there. */
  lemma LeakedExactly(s: State, step: Step, x: nat)
    requires Enabled(s, step) && x !in s.leaked
    ensures x in Next(s, step).leaked <==> step.Flush? && StopsAt(s, s.pool.queues[s.threads[step.t].port], x)
  {
    if step.Flush? {
      var p := s.threads[step.t].port;
      FlushLeaks(Unlocked(s, step.t, p), p, x);
      StopsSame(s, Unlocked(s, step.t, p), s.pool.queues[p], x);
    }
  }

  lemma StopsSame(s: State, s': State, q: seq<nat>, x: nat)
    requires s'.desc == s.desc && s'.rdmaSize == s.rdmaSize
    ensures StopsAt(s, q, x) <==> StopsAt(s', q, x)
  {
    assert forall y :: Unfindable(s, y) == Unfindable(s', y);
  }

  lemma StopsTail(s: State, q: seq<nat>, x: nat)
    requires q != []
    ensures StopsAt(s, q, x) <==> if Unfindable(s, q[0]) then x == q[0] else StopsAt(s, q[1..], x)
  {
    var rest := q[1..];
    if i :| 0 <= i < |q| && q[i] == x && Unfindable(s, x) && forall j :: 0 <= j < i ==> !Unfindable(s, q[j]) {
      if i > 0 {
        assert !Unfindable(s, q[0]) && rest[i - 1] == x;
        assert StopsAt(s, rest, x);
      }
    }
    if i :| 0 <= i < |rest| && rest[i] == x && Unfindable(s, x) && forall j :: 0 <= j < i ==> !Unfindable(s, rest[j]) {
      if !Unfindable(s, q[0]) {
        assert q[i + 1] == x;
        forall j | 0 <= j < i + 1 ensures !Unfindable(s, q[j]) { if j > 0 { assert q[j] == rest[j - 1]; } }
      }
    }
  }

  lemma {:induction false} FlushLeaks(s: State, p: nat, x: nat)
    requires Sized(s) && p < PORT_NUM && x !in s.leaked
    ensures x in FlushPort(s, p).leaked <==> StopsAt(s, s.pool.queues[p], x)
    decreases |s.pool.queues[p]|
  {
    if s.pool.queues[p] != [] {
      StopsTail(s, s.pool.queues[p], x);
      var y := s.pool.queues[p][0];
      match s.BufOf(s.desc[y])
      case None =>
      case Some(b) =>
        var armed := if b < BUFS then s.armed[b := true] else s.armed;
        var s1 := s.(pool := s.pool.Dequeue(p).PushFree(y), armed := armed);
        FlushLeaks(s1, p, x);
        StopsSame(s, s1, s1.pool.queues[p], x);
    }
  }

  /** It is never free again in any continuation, and its buffer is never armed. */
  lemma {:induction false} LeakedForEver(s: State, steps: seq<Step>, x: nat)
    requires Inv(s) && IsRun(s, steps) && x in s.leaked
    ensures var e := After(s, steps);
            && x in e.leaked && x < |s.desc| && e.pool.Held(x) && Sized(e)
            && s.Origin(s.desc[x]) < BUFS && !e.armed[s.Origin(s.desc[x])]
    decreases |steps|
  {
    LeakedHolds(s, x);
    if steps != [] {
      StepKeeps(s, steps[0]);
      LeakedStays(s, steps[0], x);
      LeakedForEver(Next(s, steps[0]), steps[1..], x);
    }
  }

  lemma LeakedHolds(s: State, x: nat)
    requires Inv(s) && x in s.leaked
    ensures x < s.pool.size && s.pool.Held(x) && Sized(s) && s.Origin(s.desc[x]) < BUFS && !s.armed[s.Origin(s.desc[x])]
  {
    var own, bown :| SlotInv(s, own) && BufInv(s, bown);
    assert own[x] == Leaked;
    assert Fits(s, bown, s.desc[x], InSlot(x));
  }

  lemma LeakedStays(s: State, step: Step, x: nat)
    requires Enabled(s, step) && s.pool.Held(x) && x in s.leaked && x < s.pool.size
    ensures var e := Next(s, step);
            && x in e.leaked && e.rdmaSize == s.rdmaSize && e.pool.size == s.pool.size
            && |e.desc| == |s.desc| && e.desc[x] == s.desc[x]
  {
    if step.Flush? {
      FlushStays(Unlocked(s, step.t, s.threads[step.t].port), s.threads[step.t].port);
    }
  }

  lemma {:induction false} FlushStays(s: State, p: nat)
    requires Sized(s) && p < PORT_NUM
    ensures var e := FlushPort(s, p);
            s.leaked <= e.leaked && e.rdmaSize == s.rdmaSize && e.desc == s.desc && e.pool.size == s.pool.size
    decreases |s.pool.queues[p]|
  {
    if s.pool.queues[p] != [] {
      var y := s.pool.queues[p][0];
      match s.BufOf(s.desc[y])
      case None =>
      case Some(b) =>
        var armed := if b < BUFS then s.armed[b := true] else s.armed;
        FlushStays(s.(pool := s.pool.Dequeue(p).PushFree(y), armed := armed), p);
    }
  }

  /** With findable buffers a flush always empties its queue. */
  lemma FlushEmpties(s: State, t: nat)
    requires Reachable(s) && Enabled(s, Flush(t)) && Addressable(s.rdmaSize)
    ensures Sized(Next(s, Flush(t))) && Next(s, Flush(t)).pool.queues[s.threads[t].port] == []
  {
    hide FifoInv, HolderInv, FlagInv;
    ReachableInv(s);
    var own, bown :| SlotInv(s, own) && BufInv(s, bown);
    var p := s.threads[t].port;
    UnlockedKeeps(s, t, p, own, bown);
    FlushKeepsInv(Unlocked(s, t, p), own, p, bown);
  }

  lemma {:induction false} FlushLosesNothing(s: State, p: nat)
    requires Sized(s) && p < PORT_NUM
    ensures FlushPort(s, p).lost == s.lost && FlushPort(s, p).unfound == s.unfound
    ensures FlushPort(s, p).rdmaSize == s.rdmaSize && FlushPort(s, p).desc == s.desc
    decreases |s.pool.queues[p]|
  {
    if s.pool.queues[p] != [] {
      var x := s.pool.queues[p][0];
      var s1 := s.(pool := s.pool.Dequeue(p));
      match s1.BufOf(s1.desc[x])
      case None =>
      case Some(b) =>
        var armed := if b < BUFS then s1.armed[b := true] else s1.armed;
        FlushLosesNothing(s1.(pool := s1.pool.PushFree(x), armed := armed), p);
    }
  }

  // ---------------------------------------------------------------- reaching states

  lemma {:induction false} RunSnoc(s: State, steps: seq<Step>, step: Step)
    requires IsRun(s, steps) && Enabled(After(s, steps), step)
    ensures IsRun(s, steps + [step]) && After(s, steps + [step]) == Next(After(s, steps), step)
    decreases |steps|
  {
    if steps == [] {
      assert steps + [step] == [step] && [step][1..] == [];
    } else {
      RunSnoc(Next(s, steps[0]), steps[1..], step);
      assert (steps + [step])[1..] == steps[1..] + [step];
    }
  }

  lemma StepKeepsSize(s: State, step: Step)
    requires Enabled(s, step)
    ensures Next(s, step).rdmaSize == s.rdmaSize
  {
    if step.Flush? {
      FlushLosesNothing(Unlocked(s, step.t, s.threads[step.t].port), s.threads[step.t].port);
    }
  }

  lemma InitReachable(threads: nat, rdmaSize: nat)
    ensures Reachable(Init(threads, rdmaSize))
  {
    assert IsRun(Init(threads, rdmaSize), []);
  }

  lemma ReachableStep(s: State, step: Step)
    requires Reachable(s) && Enabled(s, step)
    ensures Reachable(Next(s, step))
  {
    var threads: nat, steps :|
      IsRun(Init(threads, s.rdmaSize), steps) && s == After(Init(threads, s.rdmaSize), steps);
    StepKeepsSize(s, step);
    RunSnoc(Init(threads, s.rdmaSize), steps, step);
  }
}
