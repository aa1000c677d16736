/** The LONG receive ring's in-place operations: filling, taking and freeing a slot, arming a buffer, a port's flush. */
module LongRings {
  import opened Axiom
  import opened SlotPool
  import opened EviQueues
  import opened LongLayout
  import opened LongReceive

  class LongRing {
    const desc: array<Header>
    const armed: array<bool>
    const queue: EviQueue
    const rdmaSize: nat

    ghost predicate Valid()
      reads this, desc, armed, queue, queue.Repr
    {
      queue.Valid() && {desc as object, armed, this} !! queue.Repr
    }

    /** The arrays hold this state; the hardware's buffer flags are `armed`. */
    ghost predicate Shows(s: State)
      reads this, desc, armed, queue, queue.Repr
    {
      Valid() && desc[..] == s.desc && armed[..] == s.armed && queue.model == s.pool && rdmaSize == s.rdmaSize
    }

    constructor (rdmaSize: nat, ghost threads: nat)
      ensures Shows(Init(threads, rdmaSize))
    {
      this.rdmaSize := rdmaSize;
      var d := new Header[BUFS](_ => Header(false, 0, 0, 0));
      var a := new bool[BUFS](_ => true);
      desc, armed := d, a;
      var q := new EviQueue(PORT_NUM, BUFS);
      queue := q;
      new;
      assert desc[..] == Init(threads, rdmaSize).desc && armed[..] == Init(threads, rdmaSize).armed;
    }

    /** Lines 955-988 for one LONG message; `placed` is false if no slot or a wrong port. */
    method Receive(ghost s: State, h: Header) returns (placed: bool)
      requires Shows(s) && Sized(s) && s.pool.Wf()
      modifies desc, queue.Repr
      ensures var f := FillSlot(s, h);
              if f.k.KFilled? then Sized(f) && f.k.slot < |f.desc| && Shows(Place(f, f.k.slot)) else Shows(f)
      ensures placed <==> s.pool.free != [] && h.port < PORT_NUM
    {
      var slot := queue.FreePop();
      if slot == NONE { return false; }
      PopFreeKeeps(s.pool);
      desc[slot] := h;
      assert desc[..] == FillSlot(s, h).desc;
      if h.port > PORT_NUM - 1 {
        queue.FreePush(slot);
        return false;
      }
      queue.Enqueue(h.port, slot);
      return true;
    }

    /** A reader takes the first message of its port (1183-1196); NONE is the branch marked impossible. */
    method TakeMessage(ghost s: State, ghost t: nat, port: nat) returns (slot: int)
      requires Shows(s) && Enabled(s, Take(t)) && s.threads[t] == Checked(port)
      modifies queue.Repr
      ensures Shows(Next(s, Take(t)))
      ensures slot == NONE <==> s.pool.queues[port] == []
      ensures slot != NONE ==>
                0 <= slot < desc.Length && Next(s, Take(t)).threads[t] == Reading(slot, desc[slot])
    {
      slot := queue.Dequeue(port);
    }

    /** It frees the slot (1234-1237) and has a buffer to arm unless the address is in none. */
    method ReturnSlot(ghost s: State, ghost t: nat, slot: nat, h: Header) returns (buf: Option<nat>)
      requires Shows(s) && Enabled(s, GiveBack(t)) && s.threads[t] == Reading(slot, h) && s.pool.Held(slot)
      modifies queue.Repr
      ensures Shows(Next(s, GiveBack(t)))
      ensures Next(s, GiveBack(t)).threads[t] == if buf.Some? then Rearm(buf.value) else Idle
    {
      buf := Rdma2Buf(h.addr, rdmaSize);
      queue.FreePush(slot);
    }

    /** Only then it arms the buffer (1242-1247). */
    method ArmBuffer(ghost s: State, ghost t: nat, buf: nat)
      requires Shows(s) && Enabled(s, Arm(t)) && s.threads[t] == Rearm(buf)
      modifies armed
      ensures Shows(Next(s, Arm(t)))
    {
      armed[buf] := true;
    }

    /** One iteration of `axiomnet_long_flush`; false if the address is in no buffer. */
    method FlushOne(ghost s: State, p: nat) returns (ok: bool)
      requires Shows(s) && Sized(s) && s.pool.Wf() && p < PORT_NUM && s.pool.queues[p] != []
      modifies armed, queue.Repr
      ensures ok <==> s.BufOf(s.desc[s.pool.queues[p][0]]).Some?
      ensures ok ==> Shows(FlushedOne(s, p)) && Sized(FlushedOne(s, p)) && FlushedOne(s, p).pool.Wf()
      ensures !ok ==> Shows(s.(pool := s.pool.Dequeue(p)))
    {
      DequeueKeeps(s.pool, p);
      var slot := queue.Dequeue(p);
      assert slot != NONE;  // the branch marked impossible
      var buf := Rdma2Buf(desc[slot].addr, rdmaSize);
      if buf.None? { return false; }
      PushFreeKeeps(s.pool.Dequeue(p), slot);
      queue.FreePush(slot);
      armed[buf.value] := true;
      ok := true;
    }

    /** `axiomnet_long_flush`: free every queued slot and arm its buffer; it fails at the first address in no buffer. */
    method Flush(ghost s: State, p: nat) returns (ok: bool)
      requires Shows(s) && Sized(s) && s.pool.Wf() && p < PORT_NUM
      modifies armed, queue.Repr
      ensures Shows(FlushPort(s, p))
      ensures ok ==> queue.model.queues[p] == []
      ensures ok <==> Found(s, s.pool.queues[p])
    {
      ghost var now := s;
      var more := queue.Avail(p);
      while more
        invariant Shows(now) && Sized(now) && now.pool.Wf()
        invariant more <==> now.pool.queues[p] != []
        invariant FlushPort(now, p) == FlushPort(s, p)
        invariant Found(now, now.pool.queues[p]) <==> Found(s, s.pool.queues[p])
        decreases |now.pool.queues[p]|
      {
        FlushedFound(now, p);
        ok := FlushOne(now, p);
        if !ok { return; }
        now := FlushedOne(now, p);
        more := queue.Avail(p);
      }
      ok := true;
    }
  }

  /** Every message of the queue has an address in some buffer. */
  ghost predicate Found(s: State, q: seq<nat>) {
    forall i :: 0 <= i < |q| ==> q[i] < |s.desc| && s.BufOf(s.desc[q[i]]).Some?
  }

  lemma FlushedFound(s: State, p: nat)
    requires Sized(s) && p < PORT_NUM && s.pool.queues[p] != []
    ensures var h := s.desc[s.pool.queues[p][0]];
            Found(s, s.pool.queues[p]) <==>
              s.BufOf(h).Some? && Found(FlushedOne(s, p), FlushedOne(s, p).pool.queues[p])
    ensures s.BufOf(s.desc[s.pool.queues[p][0]]).Some? ==> FlushPort(FlushedOne(s, p), p) == FlushPort(s, p)
  {
    var q := s.pool.queues[p];
    assert q == [q[0]] + q[1..];
    if s.BufOf(s.desc[q[0]]).Some? {
      assert FlushedOne(s, p).pool.queues[p] == q[1..];
    }
  }

  /** A reader holds the slot it is about to give back. */
  lemma ReturnIsLegal(s: State, t: nat)
    requires Inv(s) && Enabled(s, GiveBack(t))
    ensures s.pool.Held(s.threads[t].slot)
  {
    var own :| SlotInv(s, own);
    assert own[s.threads[t].slot] == HeldBy(t);
  }

  /** The first message of a port's queue given up: its slot free, its buffer armed. */
  ghost function FlushedOne(s: State, p: nat): State
    requires Sized(s) && p < PORT_NUM && s.pool.queues[p] != [] && s.BufOf(s.desc[s.pool.queues[p][0]]).Some?
  {
    var x := s.pool.queues[p][0];
    s.(pool := s.pool.Dequeue(p).PushFree(x), armed := s.armed[s.BufOf(s.desc[x]).value := true])
  }
}
