/**
 The RAW receive ring itself: an array of messages filled in place and a queue manager. The
 loop of `axiom_raw_rx_dequeue` is proved to be a run of the kthread's steps that stops only
 when the FIFO or the free list is empty.
 */
module RawRings {
  import opened Axiom
  import opened EviQueues
  import opened RawReceive
  import opened RawProofs

  /** The kthread can take n steps from s. */
  ghost predicate Ready(s: State, n: nat)
    decreases n
  {
    n == 0 || (Sized(s) && KEnabled(s) && Ready(KNext(s), n - 1))
  }

  /** The kthread's own steps lead from s to s'. */
  ghost predicate KthreadReaches(s: State, s': State) {
    exists n: nat :: Ready(s, n) && KthreadAlone(s, n) == s'
  }

  class RawRing {
    const desc: array<Msg>
    const queue: EviQueue

    ghost predicate Valid()
      reads this, desc, queue, queue.Repr
    {
      queue.Valid() && {desc as object, this} !! queue.Repr
    }

    ghost predicate Shows(s: State)
      reads this, desc, queue, queue.Repr
    {
      Valid() && desc[..] == s.desc && queue.model == s.pool
    }

    /** `axiomnet_raw_rx_hwring_init` */
    constructor (slots: nat, ghost threads: nat)
      requires 0 < slots <= 32768
      ensures Shows(Init(threads, slots))
    {
      var d := new Msg[slots](_ => Msg(0, 0));
      desc := d;
      var q := new EviQueue(PORT_NUM, slots);
      queue := q;
      new;
      assert desc[..] == Init(threads, slots).desc;
    }

    /** Lines 339-342 or 333-335: queue the filled slot on its port, or drop it. */
    method PlaceSlot(ghost s: State, slot: nat)
      requires Shows(s) && Sized(s) && slot < |s.desc| && s.desc[slot].port < PORT_VALUES && s.pool.Held(slot)
      modifies queue.Repr
      ensures Shows(Place(s, slot))
    {
      var port := desc[slot].port;
      if port > PORT_NUM - 1 {
        queue.FreePush(slot);
      } else {
        queue.Enqueue(port, slot);
      }
    }

    /** One iteration of `axiom_raw_rx_dequeue`: pop a slot, fill it from the FIFO, place it. */
    method ServeOne(ghost s: State, msg: Msg)
      requires Shows(s) && Servable(s) && msg == s.fifo[0]
      modifies desc, queue.Repr
      ensures Shows(Served(s))
    {
      ghost var filled := FilledState(s);
      var slot := queue.FreePop();
      assert slot != NONE;
      desc[slot] := msg;
      assert desc[..] == filled.desc;
      PlaceSlot(filled, slot);
    }

    /** A reader takes the first message of its port (402-413); NONE is the branch marked impossible. */
    method TakeMessage(ghost s: State, ghost t: nat, port: nat) returns (slot: int)
      requires Shows(s) && Enabled(s, Take(t)) && s.threads[t] == Checked(port)
      modifies queue.Repr
      ensures Shows(Next(s, Take(t)))
      ensures slot == NONE <==> s.pool.queues[port] == []
      ensures slot != NONE ==>
                0 <= slot < desc.Length && Next(s, Take(t)).threads[t] == Reading(port, slot, desc[slot])
    {
      slot := queue.Dequeue(port);
    }

    /** It gives the slot back (446-452); the kthread is told only if there was no free one. */
    method ReturnSlot(ghost s: State, ghost t: nat, slot: nat) returns (tell: bool)
      requires Shows(s) && Enabled(s, GiveBack(t)) && s.threads[t].slot == slot && s.pool.Held(slot)
      modifies queue.Repr
      ensures Shows(Next(s, GiveBack(t)))
      ensures tell <==> Next(s, GiveBack(t)).threads[t].MustCount?
      ensures tell <==> s.pool.free == []
    {
      var avail := queue.FreeAvail();
      queue.FreePush(slot);
      tell := !avail;
    }

    /** `axiomnet_raw_flush` under the queue lock (475-494). */
    method FlushQueue(ghost s: State, ghost t: nat, port: nat)
      requires Shows(s) && Enabled(s, Flush(t)) && s.threads[t] == FlushLocked(port)
      modifies queue.Repr
      ensures Shows(Next(s, Flush(t)))
    {
      queue.Flush(port);
    }

    /** `axiom_raw_rx_dequeue`, with nobody else touching the queue meanwhile. */
    method RxDequeue(ghost s: State, fifo: seq<Msg>) returns (rest: seq<Msg>)
      requires Shows(s) && Inv(s) && s.k.Loop? && s.fifo == fifo
      modifies desc, queue.Repr
      ensures exists s' :: KthreadReaches(s, s') && Shows(s') && s'.k.Loop? && s'.fifo == rest
      ensures rest == [] || queue.model.free == []
    {
      rest := fifo;
      ghost var now := s;
      assert Ready(s, 0) && KthreadAlone(s, 0) == s;
      var free := queue.FreeAvail();
      while rest != [] && free
        invariant Shows(now) && Inv(now) && now.k.Loop? && now.fifo == rest
        invariant free <==> now.pool.free != []
        invariant KthreadReaches(s, now)
        decreases |rest|
      {
        ServedIsKthread(s, now);
        ServeOne(now, rest[0]);
        rest := rest[1..];
        now := Served(now);
        free := queue.FreeAvail();
      }
    }
  }

  /** A reader holds the slot it is about to give back. */
  lemma ReturnIsLegal(s: State, t: nat)
    requires Inv(s) && Enabled(s, GiveBack(t))
    ensures s.pool.Held(s.threads[t].slot)
  {
    var own :| SlotInv(s, own);
    assert own[s.threads[t].slot] == HeldBy(t);
  }

  ghost predicate Servable(s: State) {
    && Sized(s) && s.pool.Wf() && s.WorkToDo() && s.pool.free[0] < |s.desc|
    && s.fifo[0].port < PORT_VALUES && s.pool.PopFree().Held(s.pool.free[0])
  }

  ghost function FilledState(s: State): State
    requires Servable(s)
  {
    var x := s.pool.free[0];
    s.(pool := s.pool.PopFree(), desc := s.desc[x := s.fifo[0]], fifo := s.fifo[1..], k := Filled(x))
  }

  /** What four steps of the kthread make of a state with work. */
  ghost function Served(s: State): State
    requires Servable(s)
  {
    Place(FilledState(s), s.pool.free[0])
  }

  lemma {:induction false} KthreadCompose(s: State, n: nat, m: nat)
    requires Ready(s, n)
    ensures KthreadAlone(KthreadAlone(s, n), m) == KthreadAlone(s, n + m)
    decreases n
  {
    if n > 0 {
      KthreadCompose(KNext(s), n - 1, m);
    }
  }

  lemma ReachesFurther(s: State, now: State, m: nat)
    requires KthreadReaches(s, now) && Ready(now, m)
    ensures KthreadReaches(s, KthreadAlone(now, m))
  {
    var n: nat :| Ready(s, n) && KthreadAlone(s, n) == now;
    KthreadCompose(s, n, m);
    ReadyCompose(s, n, m);
  }

  lemma ServedIsKthread(s: State, now: State)
    requires KthreadReaches(s, now) && Inv(now) && now.k.Loop? && now.WorkToDo()
    ensures Servable(now) && KthreadReaches(s, Served(now))
    ensures Inv(Served(now)) && Served(now).k.Loop? && Served(now).fifo == now.fifo[1..]
  {
    FourSteps(now);
    ReachesFurther(s, now, 4);
  }

  lemma {:induction false} ReadyCompose(s: State, n: nat, m: nat)
    requires Ready(s, n) && Ready(KthreadAlone(s, n), m)
    ensures Ready(s, n + m)
    decreases n
  {
    if n > 0 {
      ReadyCompose(KNext(s), n - 1, m);
    }
  }

  /** See work, pop, fill, place. */
  lemma FourSteps(s: State)
    requires Inv(s) && s.k.Loop? && s.WorkToDo()
    ensures Servable(s) && Ready(s, 4) && KthreadAlone(s, 4) == Served(s) && Inv(Served(s))
  {
    hide Inv, Servable, Served, KEnabled;
    WorkIsServable(s);
    FourStepsShape(s);
    var a := KNext(s);
    StepKeeps(s, Kthread);
    StepKeeps(a, Kthread);
    StepKeeps(KNext(a), Kthread);
    StepKeeps(KNext(KNext(a)), Kthread);
  }

  lemma WorkIsServable(s: State)
    requires Inv(s) && s.WorkToDo()
    ensures Servable(s)
  {}

  lemma FourStepsShape(s: State)
    requires Servable(s) && s.k.Loop?
    ensures Ready(s, 4) && KthreadAlone(s, 4) == Served(s)
    ensures KNext(KNext(KNext(KNext(s)))) == Served(s)
  {}
}
