/**
 The EVI queue manager: one free list and several FIFO queues whose links share the single
 array `next`. The class is proved to implement the lists of `SlotPool.Pool`.
 */
module EviQueues {
  import opened SlotPool

  /** EVIQ_NONE */
  const NONE: int := -1

  /** Conversion to `eviq_pnt_t`, a 16-bit signed integer. */
  function ToPnt(x: int): (r: int)
    ensures -32768 <= x < 32768 ==> r == x
  {
    (x + 32768) % 65536 - 32768
  }

  /** Following `next` from `first` visits exactly the slots of `s`, in order, and stops. */
  ghost predicate Chain(next: seq<int>, first: int, s: seq<nat>) {
    && Below(s, |next|)
    && first == (if s == [] then NONE else s[0])
    && (forall i :: 0 <= i < |s| - 1 ==> next[s[i]] == s[i + 1])
    && (s != [] ==> next[s[|s| - 1]] == NONE)
  }

  /** A chain determines its list: the arrays stand for one abstract state only. */
  lemma {:induction false} ChainUnique(next: seq<int>, first: int, s: seq<nat>, t: seq<nat>)
    requires Chain(next, first, s) && Chain(next, first, t)
    ensures s == t
    decreases |s|
  {
    if s != [] && t != [] {
      var second := next[s[0]];
      assert Chain(next, second, s[1..]) && Chain(next, second, t[1..]);
      ChainUnique(next, second, s[1..], t[1..]);
      assert s == [s[0]] + s[1..] && t == [t[0]] + t[1..];
    }
  }

  lemma ChainPop(next: seq<int>, first: int, s: seq<nat>)
    requires Chain(next, first, s) && s != []
    ensures Chain(next, next[first], s[1..])
  {}

  lemma ChainAppend(next: seq<int>, first: int, s: seq<nat>, x: nat)
    requires Chain(next, first, s) && x < |next| && x !in s && NoDup(s)
    ensures s == [] ==> Chain(next[x := NONE], x, [x])
    ensures s != [] ==> Chain(next[x := NONE][s[|s| - 1] := x], first, s + [x])
  {}

  /** What `eviq_init` writes to `next` for `elems` slots. */
  function InitialLinks(elems: nat): seq<int> {
    seq(elems, i => if i < elems - 1 then ToPnt(i + 1) else NONE)
  }

  /**
   The initial links form a free list starting at slot 0 exactly when every slot number fits
   the 16-bit pointer type; it is then the list of all slots in order.
   */
  lemma InitialLinksChainIff(elems: nat)
    requires elems > 0
    ensures (exists s :: Chain(InitialLinks(elems), 0, s)) <==> elems <= 32768
    ensures elems <= 32768 ==> Chain(InitialLinks(elems), 0, Fresh(0, elems).free)
  {
    var next, all := InitialLinks(elems), Fresh(0, elems).free;
    if elems <= 32768 {
      assert all[0] == 0;
      assert Chain(next, 0, all);
    } else {
      assert next[32767] == -32768;
      forall s | Chain(next, 0, s) ensures false {
        InitialLinksCount(elems, s, 32767);
      }
    }
  }

  /** A chain from slot 0 can only count upwards as far as slot 32767. */
  lemma {:induction false} InitialLinksCount(elems: nat, s: seq<nat>, k: nat)
    requires elems > 32768 && k <= 32767 && Chain(InitialLinks(elems), 0, s)
    ensures k < |s| && s[k] == k
    ensures InitialLinks(elems)[k] == if k < |s| - 1 then s[k + 1] else NONE
  {
    if k > 0 {
      InitialLinksCount(elems, s, k - 1);
      assert InitialLinks(elems)[k - 1] == k;
    }
  }

  /** The arrays of an `evi_queue_t` hold the lists of `p`; each tail is its queue's last slot. */
  ghost predicate Represents(next: seq<int>, head: seq<int>, tail: seq<int>, free: int, p: Pool) {
    && p.Wf()
    && |next| == p.size && |head| == |tail| == |p.queues|
    && Chain(next, free, p.free)
    && (forall q :: 0 <= q < |p.queues| ==> Chain(next, head[q], p.queues[q]) && tail[q] == LastOf(p.queues[q]))
  }

  function LastOf(s: seq<nat>): int {
    if s == [] then NONE else s[|s| - 1]
  }

  lemma PushRepresents(next: seq<int>, head: seq<int>, tail: seq<int>, free: int, p: Pool, x: nat)
    requires Represents(next, head, tail, free, p) && p.Held(x)
    ensures Represents(next[x := free], head, tail, x, p.PushFree(x))
  {}

  /** Writes to a held slot and to slots of queue q leave every other chain alone. */
  lemma OtherChains(next: seq<int>, next': seq<int>, head: seq<int>, tail: seq<int>, free: int, p: Pool,
                    q: nat, x: nat)
    requires Represents(next, head, tail, free, p) && p.Held(x) && q < |p.queues|
    requires |next'| == |next|
    requires forall y: nat :: y < |next| && y != x && y !in p.queues[q] ==> next'[y] == next[y]
    ensures Chain(next', free, p.free)
    ensures forall r :: 0 <= r < |p.queues| && r != q ==> Chain(next', head[r], p.queues[r])
  {}

  lemma EnqueueFirstRepresents(next: seq<int>, head: seq<int>, tail: seq<int>, free: int, p: Pool, q: nat, x: nat)
    requires Represents(next, head, tail, free, p) && p.Held(x) && q < |p.queues| && tail[q] == NONE
    ensures Represents(next[x := NONE], head[q := x], tail[q := x], free, p.Enqueue(q, x))
  {}

  lemma EnqueueLaterRepresents(next: seq<int>, head: seq<int>, tail: seq<int>, free: int, p: Pool, q: nat, x: nat)
    requires Represents(next, head, tail, free, p) && p.Held(x) && q < |p.queues| && tail[q] != NONE
    ensures 0 <= tail[q] < |next|
    ensures Represents(next[x := NONE][tail[q] := x], head, tail[q := x], free, p.Enqueue(q, x))
  {
    assert Chain(next, head[q], p.queues[q]);
    OtherChains(next, next[x := NONE][tail[q] := x], head, tail, free, p, q, x);
    EnqueueKeeps(p, q, x);
    ChainAppend(next, head[q], p.queues[q], x);
  }

  lemma DequeueRepresents(next: seq<int>, head: seq<int>, tail: seq<int>, free: int, p: Pool, q: nat)
    requires Represents(next, head, tail, free, p) && q < |p.queues| && head[q] != NONE
    ensures 0 <= head[q] < |next| && p.queues[q] != [] && head[q] == p.queues[q][0]
    ensures var newHead := next[head[q]];
            Represents(next, head[q := newHead], if newHead == NONE then tail[q := NONE] else tail,
                       free, p.Dequeue(q))
  {
    assert Chain(next, head[q], p.queues[q]);
    DequeueKeeps(p, q);
    ChainPop(next, head[q], p.queues[q]);
  }

  class EviQueue {
    const head: array<int>
    const tail: array<int>
    const next: array<int>
    var free: int
    ghost var model: Pool
    ghost const Repr: set<object>

    ghost predicate Valid()
      reads this, Repr
    {
      && Repr == {this, head, tail, next}
      && head != tail && head != next && tail != next
      && Represents(next[..], head[..], tail[..], free, model)
    }

    /** `eviq_init`; the links are right exactly when every slot number fits the 16-bit pointer type. */
    constructor (queues: nat, elems: nat)
      requires elems > 0
      ensures Valid() <==> elems <= 32768
      ensures fresh(Repr) && Repr == {this, head, tail, next}
      ensures model == Fresh(queues, elems)
      ensures next[..] == InitialLinks(elems) && free == 0
      ensures head[..] == tail[..] == seq(queues, _ => NONE)
    {
      var h, t, n := new int[queues], new int[queues], new int[elems];
      for i := 0 to queues
        invariant forall j :: 0 <= j < i ==> h[j] == NONE && t[j] == NONE
      {
        h[i] := NONE;
        t[i] := NONE;
      }
      var i := 0;
      while i < elems - 1
        invariant 0 <= i <= elems - 1
        invariant forall j :: 0 <= j < i ==> n[j] == ToPnt(j + 1)
        invariant forall j :: 0 <= j < queues ==> h[j] == NONE && t[j] == NONE
      {
        n[i] := ToPnt(i + 1);
        i := i + 1;
      }
      n[i] := NONE;
      assert n[..] == InitialLinks(elems);
      head, tail, next, free := h, t, n, 0;
      model := Fresh(queues, elems);
      Repr := {this, h, t, n};
      new;
      FreshIsWf(queues, elems);
      InitialLinksChainIff(elems);
      assert Valid() ==> Chain(next[..], 0, model.free);
    }

    /** `eviq_free_avail` */
    method FreeAvail() returns (r: bool)
      requires Valid()
      ensures r <==> model.free != []
    {
      r := free != NONE;
    }

    /** `eviq_avail`; a manager without queues answers no for any number. */
    method Avail(q: nat) returns (r: bool)
      requires Valid()
      requires head.Length == 0 || q < head.Length
      ensures r <==> (q < |model.queues| && model.queues[q] != [])
    {
      if head.Length == 0 { return false; }
      r := head[q] != NONE;
      assert Chain(next[..], head[..][q], model.queues[q]);
    }

    /** `eviq_free_pop` */
    method FreePop() returns (slot: int)
      requires Valid()
      modifies this
      ensures Valid()
      ensures old(model.free) == [] ==> slot == NONE && model == old(model)
      ensures old(model.free) != [] ==> slot == old(model.free[0]) && model == old(model.PopFree())
    {
      slot := free;
      if slot == NONE { return; }
      PopFreeKeeps(model);
      ChainPop(next[..], free, model.free);
      free := next[slot];
      model := model.PopFree();
    }

    /** `eviq_free_push`; the caller must hold the slot. */
    method FreePush(slot: nat)
      requires Valid() && model.Held(slot)
      modifies this, next
      ensures Valid() && model == old(model.PushFree(slot))
    {
      PushRepresents(next[..], head[..], tail[..], free, model, slot);
      next[slot] := free;
      free := slot;
      assert next[..] == old(next[..])[slot := old(free)];
      model := model.PushFree(slot);
    }

    /** `eviq_enqueue`; the caller must hold the slot. Without queues it does nothing. */
    method Enqueue(q: nat, slot: nat)
      requires Valid() && model.Held(slot)
      requires head.Length == 0 || q < head.Length
      modifies this, head, tail, next
      ensures Valid()
      ensures model == if |old(model.queues)| == 0 then old(model) else old(model.Enqueue(q, slot))
    {
      if head.Length == 0 { return; }
      var oldTail := tail[q];
      if oldTail == NONE {
        EnqueueFirstRepresents(next[..], head[..], tail[..], free, model, q, slot);
      } else {
        EnqueueLaterRepresents(next[..], head[..], tail[..], free, model, q, slot);
      }
      next[slot] := NONE;
      if oldTail != NONE {
        next[oldTail] := slot;
        assert next[..] == old(next[..])[slot := NONE][oldTail := slot];
      } else {
        head[q] := slot;
        assert next[..] == old(next[..])[slot := NONE];
        assert head[..] == old(head[..])[q := slot];
      }
      tail[q] := slot;
      assert tail[..] == old(tail[..])[q := slot];
      model := model.Enqueue(q, slot);
    }

    /** `eviq_dequeue` */
    method Dequeue(q: nat) returns (slot: int)
      requires Valid()
      requires head.Length == 0 || q < head.Length
      modifies this, head, tail
      ensures Valid()
      ensures q >= |old(model.queues)| || old(model.queues[q]) == [] ==> slot == NONE && model == old(model)
      ensures q < |old(model.queues)| && old(model.queues[q]) != [] ==>
                slot == old(model.queues[q][0]) && model == old(model.Dequeue(q))
    {
      if head.Length == 0 { return NONE; }
      slot := head[q];
      assert Chain(next[..], head[..][q], model.queues[q]);
      if slot == NONE { return; }
      DequeueRepresents(next[..], head[..], tail[..], free, model, q);
      var newHead := next[slot];
      if newHead == NONE {
        tail[q] := NONE;
      }
      head[q] := next[slot];
      assert head[..] == old(head[..])[q := newHead];
      assert newHead == NONE ==> tail[..] == old(tail[..])[q := NONE];
      model := model.Dequeue(q);
    }

    /** The loop of `axiomnet_raw_flush`: dequeue and free until the queue is empty. */
    method Flush(q: nat)
      requires Valid() && q < head.Length
      modifies Repr
      ensures Valid() && model == old(model.Flush(q))
    {
      var more := Avail(q);
      while more
        invariant Valid() && q < head.Length
        invariant more <==> model.queues[q] != []
        invariant model.Flush(q) == old(model.Flush(q))
        decreases |model.queues[q]|
      {
        DequeueKeeps(model, q);
        var slot := Dequeue(q);
        assert slot != NONE;  // the branch marked impossible
        FreePush(slot);
        more := Avail(q);
      }
    }
  }
}
