/** What the ownership invariant means: the theorems about every run of the RDMA protocol. */
module RdmaTheorems {
  import opened Axiom
  import opened SlotPool
  import opened RdmaProtocol
  import opened RdmaOwnership
  import Tokens = RdmaTokens

  ghost predicate Reachable(s: State) {
    exists threads: nat, retriesMod: Width, steps ::
      IsRun(Init(threads, retriesMod), steps) && s == After(Init(threads, retriesMod), steps)
  }

  lemma ReachableInv(s: State)
    requires Reachable(s)
    ensures Inv(s)
  {
    var threads: nat, retriesMod: Width, steps :|
      IsRun(Init(threads, retriesMod), steps) && s == After(Init(threads, retriesMod), steps);
    InitInv(threads, retriesMod);
    RunKeepsInv(Init(threads, retriesMod), steps);
  }

  lemma {:induction false} RunSnoc(s: State, steps: seq<Step>, step: Step)
    requires IsRun(s, steps) && Enabled(After(s, steps), step)
    ensures IsRun(s, steps + [step]) && After(s, steps + [step]) == Next(After(s, steps), step)
    decreases |steps|
  {
    if steps == [] {
      assert steps + [step] == [step] && [step][1..] == [];
    } else {
      RunSnoc(Next(s, steps[0]), steps[1..], step);
      assert (steps + [step])[1..] == steps[1..] + [step];
    }
  }

  lemma InitReachable(threads: nat, retriesMod: Width)
    ensures Reachable(Init(threads, retriesMod))
  {
    assert IsRun(Init(threads, retriesMod), []);
  }

  lemma ReachableStep(s: State, step: Step)
    requires Reachable(s) && Enabled(s, step)
    ensures Reachable(Next(s, step))
  {
    var threads: nat, retriesMod: Width, steps :|
      IsRun(Init(threads, retriesMod), steps) && s == After(Init(threads, retriesMod), steps);
    RunSnoc(Init(threads, retriesMod), steps, step);
  }

  // ---------------------------------------------------------------- RDMA slots

  ghost predicate IsFree(s: State, m: nat) {
    m in s.rdma.free
  }

  /** Thread t has the slot to itself, before transmitting or after collecting the acknowledgement. */
  ghost predicate Holds(s: State, t: nat, m: nat) {
    t < |s.threads| && SlotOf(s.threads[t]) == Some(m) && !s.threads[t].Waiting?
  }

  ghost predicate WaitsFor(s: State, t: nat, m: nat) {
    t < |s.threads| && s.threads[t] == Waiting(m)
  }

  /** An operation was transmitted from the slot and is not finally acknowledged. */
  ghost predicate IsAwaiting(s: State, m: nat) {
    exists k :: 0 <= k < |s.ops| && s.ops[k].slot == m && k !in s.done
  }

  ghost predicate IsAcked(s: State, m: nat) {
    m < |s.status| && s.status[m].ackReceived && exists t :: WaitsFor(s, t, m)
  }

  ghost predicate IsHeld(s: State, m: nat) {
    exists t :: Holds(s, t, m)
  }

  ghost function Count(b: bool): nat { if b then 1 else 0 }

  ghost predicate ExactlyOneState(s: State, m: nat) {
    Count(IsFree(s, m)) + Count(IsHeld(s, m)) + Count(IsAwaiting(s, m)) + Count(IsAcked(s, m)) == 1
  }

  lemma OwnerMeans(s: State, own: seq<Owner>, m: nat)
    requires SlotInv(s, own) && TokenInv(s, own) && m < |own|
    ensures IsFree(s, m) <==> own[m] == Free
    ensures IsHeld(s, m) <==> own[m].Thread? && !s.threads[own[m].t].Waiting?
    ensures IsAwaiting(s, m) <==> Live(s, own, m) && s.current[m] !in s.done
    ensures IsAcked(s, m) <==> Live(s, own, m) && s.current[m] in s.done
  {
    assert StatusFits(s, own, m);
    if own[m].Thread? {
      var t := own[m].t;
      if s.threads[t].Waiting? {
        assert WaitsFor(s, t, m);
      } else {
        assert Holds(s, t, m);
      }
    }
    if Live(s, own, m) && s.current[m] !in s.done {
      assert s.ops[s.current[m]].slot == m;
    }
  }

  /** RDMA slot ownership, over every run. */
  lemma SlotOwnership(s: State, m: nat)
    requires Reachable(s) && m < |s.status|
    ensures ExactlyOneState(s, m)
    ensures IsFree(s, m) ==> s.status[m].dst == NULL_NODE
    ensures forall t, u :: 0 <= t < |s.threads| && 0 <= u < |s.threads| ==>
              SlotOf(s.threads[t]) == Some(m) == SlotOf(s.threads[u]) ==> t == u
  {
    ReachableInv(s);
    OneState(s, m);
    var own, bown :| InvWith(s, own, bown);
    assert StatusFits(s, own, m);
  }

  lemma OneState(s: State, m: nat)
    requires Inv(s) && m < |s.status|
    ensures ExactlyOneState(s, m) && (IsFree(s, m) ==> s.status[m].dst == NULL_NODE)
  {
    hide BufInv, MutexInv;
    var own, bown :| InvWith(s, own, bown);
    OneStateOf(s, own, m);
  }

  lemma OneStateOf(s: State, own: seq<Owner>, m: nat)
    requires SlotInv(s, own) && TokenInv(s, own) && m < |own|
    ensures ExactlyOneState(s, m) && (IsFree(s, m) ==> s.status[m].dst == NULL_NODE)
  {
    OwnerMeans(s, own, m);
    assert StatusFits(s, own, m);
  }

  // ---------------------------------------------------------------- LONG buffers

  ghost predicate BufIsFree(s: State, b: nat) { b in s.long.free }

  ghost predicate BufHeldBy(s: State, t: nat, b: nat) {
    t < |s.threads| && BufOf(s.threads[t]) == Some(b)
  }

  /** The callback of a slot awaiting its acknowledgement, with no sender waiting, names the buffer. */
  ghost predicate NamedBy(s: State, m: nat, b: nat) {
    m < |s.status| && s.status[m].callback == Some(b) && IsAwaiting(s, m) && forall t :: !WaitsFor(s, t, m)
  }

  /** LONG transmit buffer ownership, over every run: one owner, and only one of it. */
  lemma BufOwnership(s: State, b: nat)
    requires Reachable(s) && b < s.long.size
    ensures Count(BufIsFree(s, b)) + Count(exists t :: BufHeldBy(s, t, b)) + Count(exists m :: NamedBy(s, m, b)) == 1
    ensures forall t, u :: BufHeldBy(s, t, b) && BufHeldBy(s, u, b) ==> t == u
    ensures forall m, k :: NamedBy(s, m, b) && NamedBy(s, k, b) ==> m == k
  {
    hide SlotInv, BufInv, MutexInv, TokenInv;
    ReachableInv(s);
    var own, bown :| InvWith(s, own, bown);
    OneBufOwnerOf(s, own, bown, b);
  }

  lemma OneBufOwnerOf(s: State, own: seq<Owner>, bown: seq<BufOwner>, b: nat)
    requires SlotInv(s, own) && BufInv(s, own, bown) && TokenInv(s, own) && b < s.long.size
    ensures OneBufOwner(s, b)
  {
    forall m | 0 <= m < |own| ensures NamedBy(s, m, b) <==> Names(s, own, m, b) {
      NamedMeans(s, own, m, b);
    }
    match bown[b] {
      case BufFree =>
      case BufThread(t) => assert BufHeldBy(s, t, b);
      case BufInFlight(m) => assert Names(s, own, m, b) && NamedBy(s, m, b);
    }
  }

  ghost predicate OneBufOwner(s: State, b: nat) {
    && Count(BufIsFree(s, b)) + Count(exists t :: BufHeldBy(s, t, b)) + Count(exists m :: NamedBy(s, m, b)) == 1
    && (forall t, u :: BufHeldBy(s, t, b) && BufHeldBy(s, u, b) ==> t == u)
    && (forall m, k :: NamedBy(s, m, b) && NamedBy(s, k, b) ==> m == k)
  }

  /** What the protocol is for: nothing is twice on a free list, and slots and buffers have one owner each. */
  ghost predicate Ownership(s: State) {
    && NoDup(s.rdma.free) && Below(s.rdma.free, |s.status|)
    && NoDup(s.long.free) && Below(s.long.free, s.long.size)
    && (forall m: nat :: m < |s.status| ==> ExactlyOneState(s, m) && (IsFree(s, m) ==> s.status[m].dst == NULL_NODE))
    && (forall b: nat :: b < s.long.size ==> OneBufOwner(s, b))
  }

  lemma InvOwnership(s: State)
    requires Inv(s)
    ensures Ownership(s)
  {
    var own, bown :| InvWith(s, own, bown);
    forall m: nat | m < |s.status|
      ensures ExactlyOneState(s, m) && (IsFree(s, m) ==> s.status[m].dst == NULL_NODE)
    {
      OneState(s, m);
    }
    forall b: nat | b < s.long.size ensures OneBufOwner(s, b) {
      OneBufOwnerOf(s, own, bown, b);
    }
  }

  lemma NamedMeans(s: State, own: seq<Owner>, m: nat, b: nat)
    requires SlotInv(s, own) && TokenInv(s, own) && m < |own|
    ensures NamedBy(s, m, b) <==> Names(s, own, m, b)
  {
    OwnerMeans(s, own, m);
    assert StatusFits(s, own, m);
    forall t: nat | WaitsFor(s, t, m) ensures own[m] == Thread(t) {
      assert SlotOf(s.threads[t]) == Some(m);
    }
    assert own[m].Thread? ==> (WaitsFor(s, own[m].t, m) <==> s.threads[own[m].t].Waiting?);
  }

  // ---------------------------------------------------------------- every pop is paid back once

  /** The slot a step takes off, or puts on, the RDMA free list. */
  function SlotPopped(s: State, step: Step): Option<nat>
    requires Enabled(s, step)
  {
    if step.TxPop? && s.rdma.free != [] then Some(s.rdma.free[0]) else None
  }

  function SlotPushed(s: State, step: Step): Option<nat>
    requires Enabled(s, step)
  {
    match step
    case Release(t) => Some(s.threads[t].slot)
    case Ack(m, src, error) =>
      if Judge(s.status[m], src, error) == Final && !s.status[m].ackWaiting
      then Some(s.status[m].queueSlot) else None
    case _ => None
  }

  function BufPopped(s: State, step: Step): Option<nat>
    requires Enabled(s, step)
  {
    if step.LongPop? && s.long.free != [] then Some(s.long.free[0]) else None
  }

  /** By the error path of axiomnet_long_send, or by the callback. */
  function BufPushed(s: State, step: Step): Option<nat>
    requires Enabled(s, step)
  {
    match step
    case LongPush(t) => Some(s.threads[t].buf)
    case Ack(m, src, error) =>
      if Judge(s.status[m], src, error) == Final && !s.status[m].ackWaiting then s.status[m].callback else None
    case _ => None
  }

  /** No step pushes a slot or a buffer that is already on its free list. */
  lemma NoDoubleFree(s: State, step: Step)
    requires Inv(s) && Enabled(s, step)
    ensures SlotPushed(s, step).Some? ==> SlotPushed(s, step).value !in s.rdma.free
    ensures BufPushed(s, step).Some? ==> BufPushed(s, step).value !in s.long.free
  {
    hide TokenInv, MutexInv;
    var own, bown :| InvWith(s, own, bown);
    match step {
      case Release(t) => ReleaseOwns(s, t, own);
      case LongPush(t) => LongPushOwns(s, t, own, bown);
      case Ack(m, src, error) =>
        if Judge(s.status[m], src, error) == Final {
          AcceptedIsLive(s, own, m, src, error);
          LiveStatus(s, own, m);
          FinalOwns(s, m, src, error, own);
          FinalBufs(s, m, src, error, own, bown);
        }
      case _ =>
    }
  }

  lemma TailMember(f: seq<nat>, x: nat)
    requires NoDup(f) && f != []
    ensures x in f[1..] <==> x in f && x != f[0]
  {}

  lemma FreeListsChange(s: State, step: Step, x: nat)
    requires NoDup(s.rdma.free) && NoDup(s.long.free) && Enabled(s, step)
    ensures x in Next(s, step).rdma.free <==>
              (x in s.rdma.free && SlotPopped(s, step) != Some(x)) || SlotPushed(s, step) == Some(x)
    ensures x in Next(s, step).long.free <==>
              (x in s.long.free && BufPopped(s, step) != Some(x)) || BufPushed(s, step) == Some(x)
  {
    hide Next, Enabled, SlotPopped, SlotPushed, BufPopped, BufPushed, NoDup;
    SlotListChange(s, step, x);
    BufListChange(s, step, x);
  }

  lemma SlotListChange(s: State, step: Step, x: nat)
    requires NoDup(s.rdma.free) && Enabled(s, step)
    ensures x in Next(s, step).rdma.free <==>
              (x in s.rdma.free && SlotPopped(s, step) != Some(x)) || SlotPushed(s, step) == Some(x)
  {
    if step.TxPop? && s.rdma.free != [] { TailMember(s.rdma.free, x); }
  }

  lemma BufListChange(s: State, step: Step, x: nat)
    requires NoDup(s.long.free) && Enabled(s, step)
    ensures x in Next(s, step).long.free <==>
              (x in s.long.free && BufPopped(s, step) != Some(x)) || BufPushed(s, step) == Some(x)
  {
    if step.LongPop? && s.long.free != [] { TailMember(s.long.free, x); }
  }

  ghost function Pops(s: State, steps: seq<Step>, x: nat, buf: bool): nat
    requires IsRun(s, steps)
    decreases |steps|
  {
    if steps == [] then 0 else
    Count((if buf then BufPopped(s, steps[0]) else SlotPopped(s, steps[0])) == Some(x))
    + Pops(Next(s, steps[0]), steps[1..], x, buf)
  }

  ghost function Pushes(s: State, steps: seq<Step>, x: nat, buf: bool): nat
    requires IsRun(s, steps)
    decreases |steps|
  {
    if steps == [] then 0 else
    Count((if buf then BufPushed(s, steps[0]) else SlotPushed(s, steps[0])) == Some(x))
    + Pushes(Next(s, steps[0]), steps[1..], x, buf)
  }

  /**
   Over every run each RDMA slot, and each LONG buffer, is given back exactly as often as it
   was taken, except while it is out: once per pop, by one path or the other but never both.
   */
  lemma {:induction false} PaidBackOnce(s: State, steps: seq<Step>, x: nat)
    requires Inv(s) && IsRun(s, steps)
    ensures var e := After(s, steps);
            && Pops(s, steps, x, false) + Count(x in e.rdma.free) ==
               Pushes(s, steps, x, false) + Count(x in s.rdma.free)
            && Pops(s, steps, x, true) + Count(x in e.long.free) ==
               Pushes(s, steps, x, true) + Count(x in s.long.free)
    decreases |steps|
  {
    if steps != [] {
      assert s.rdma.Wf() && s.long.Wf();
      FreeListsChange(s, steps[0], x);
      NoDoubleFree(s, steps[0]);
      StepKeeps(s, steps[0]);
      PaidBackOnce(Next(s, steps[0]), steps[1..], x);
    }
  }

  /** The branches marked impossible: a pop that follows a successful check finds a slot. */
  lemma PopNeverFails(s: State, t: nat)
    requires Reachable(s)
    ensures Enabled(s, TxPop(t)) ==> s.rdma.free != []
    ensures Enabled(s, LongPop(t)) ==> s.long.free != []
  {
    hide SlotInv, BufInv, TokenInv;
    ReachableInv(s);
    var own, bown :| InvWith(s, own, bown);
    PopFinds(s, t);
  }

  lemma PopFinds(s: State, t: nat)
    requires MutexInv(s)
    ensures Enabled(s, TxPop(t)) ==> s.rdma.free != []
    ensures Enabled(s, LongPop(t)) ==> s.long.free != []
  {}

  // ---------------------------------------------------------------- tokens

  /** The pending token handed out for an operation reads ACKED when the driver checks it now. */
  ghost predicate ReadsAcked(s: State, op: Operation)
    requires op.slot < |s.status|
  {
    Tokens.Checked(Tokens.Token(op.slot, Tokens.PENDING, op.value), s.status[op.slot].counter).status == Tokens.ACKED
  }

  lemma {:induction false} RunKeepsSize(s: State, steps: seq<Step>)
    requires IsRun(s, steps)
    ensures |After(s, steps).status| == |s.status|
    decreases |steps|
  {
    if steps != [] {
      RunKeepsSize(Next(s, steps[0]), steps[1..]);
    }
  }

  lemma ReachableSize(s: State)
    requires Reachable(s)
    ensures |s.status| == MSG_ID_NUM
  {
    var threads: nat, retriesMod: Width, steps :|
      IsRun(Init(threads, retriesMod), steps) && s == After(Init(threads, retriesMod), steps);
    RunKeepsSize(Init(threads, retriesMod), steps);
  }

  lemma ModDiffers(a: nat, b: nat)
    requires b <= a
    ensures a % COUNTER_MOD != b % COUNTER_MOD <==> (a - b) % COUNTER_MOD != 0
    ensures b < a < b + COUNTER_MOD ==> (a - b) % COUNTER_MOD != 0
  {}

  lemma TokenFacts(s: State, k: nat)
    requires Inv(s) && k < |s.ops|
    ensures var op := s.ops[k];
            && op.slot < |s.status| == |s.completions| && op.birth <= s.completions[op.slot]
            && op.value == op.birth % COUNTER_MOD
            && s.status[op.slot].counter == s.completions[op.slot] % COUNTER_MOD
            && (k in s.done <==> op.birth < s.completions[op.slot])
  {}

  /**
   The token of operation k reads ACKED exactly when k has been finally acknowledged, except
   after each 2^32 further final acknowledgements on its slot.
   */
  lemma TokenExact(s: State, k: nat)
    requires Reachable(s) && k < |s.ops|
    ensures s.ops[k].slot < |s.status| == |s.completions| && s.ops[k].birth <= s.completions[s.ops[k].slot]
    ensures var since := s.completions[s.ops[k].slot] - s.ops[k].birth;
            && (ReadsAcked(s, s.ops[k]) <==> k in s.done && since % COUNTER_MOD != 0)
            && (k in s.done && since < COUNTER_MOD ==> ReadsAcked(s, s.ops[k]))
  {
    hide Reachable, Inv, ReadsAcked;
    ReachableInv(s);
    ReachableSize(s);
    TokenFacts(s, k);
    ReadsExactly(s, s.ops[k], s.completions[s.ops[k].slot]);
  }

  lemma ReadsExactly(s: State, op: Operation, completions: nat)
    requires op.slot < |s.status| == MSG_ID_NUM && op.birth <= completions && op.value == op.birth % COUNTER_MOD
    requires s.status[op.slot].counter == completions % COUNTER_MOD
    ensures ReadsAcked(s, op) <==> (completions - op.birth) % COUNTER_MOD != 0
    ensures op.birth == completions ==> (completions - op.birth) % COUNTER_MOD == 0
    ensures op.birth < completions < op.birth + COUNTER_MOD ==> (completions - op.birth) % COUNTER_MOD != 0
  {
    ModDiffers(completions, op.birth);
  }

  /**
   An operation is done by, and only by, an acknowledgement for its slot from the node it was sent
   to that reports success or finds 1000 retries used up.
   */
  lemma DoneExactly(s: State, step: Step, k: nat)
    requires Inv(s) && Enabled(s, step) && k < |s.ops| && k !in s.done
    ensures k in Next(s, step).done <==>
              && step.Ack? && step.slot == s.ops[k].slot && step.src == s.ops[k].dst
              && (!step.error || s.status[step.slot].retries >= 1000)
  {
    hide Inv;
    if step.Ack? {
      AckExactly(s, step.slot, step.src, step.error);
      if InProgress(s, step.slot) { LastIsUnfinished(s, step.slot, k); } else { NothingUnfinished(s, step.slot, k); }
    }
  }

  /** The slot's last operation is not yet given up: it awaits its acknowledgement or its sender. */
  ghost predicate InProgress(s: State, m: nat) { IsAwaiting(s, m) || IsAcked(s, m) }

  /** A slot has one unfinished operation at most, its last. */
  lemma LastIsUnfinished(s: State, m: nat, k: nat)
    requires Inv(s) && m < |s.current| && k < |s.ops| && k !in s.done
    ensures s.ops[k].slot == m ==> s.current[m] == k
  {}

  lemma NothingUnfinished(s: State, m: nat, k: nat)
    requires Inv(s) && !InProgress(s, m) && k < |s.ops| && k !in s.done
    ensures s.ops[k].slot != m
  {}

  /** An acknowledgement from a node without an operation in progress on the slot changes nothing. */
  ghost predicate Expected(s: State, m: nat, src: nat)
    requires m < |s.current|
  {
    InProgress(s, m) && s.LastFrom(m) && s.ops[s.current[m]].dst == src
  }

  /**
   What an acknowledgement from a real node does, in terms of what was sent: nothing unless the
   slot's last operation is in progress and was sent to that node; a resend for an error before
   the 1000th retry; otherwise it is counted, and either the waiting sender is told or, for
   nobody, slot and LONG buffer go back.
   */
  lemma AckExactly(s: State, m: nat, src: nat, error: bool)
    requires Inv(s) && Enabled(s, Ack(m, src, error))
    ensures var e := Next(s, Ack(m, src, error));
            && m < |s.status| == |s.current| == |s.completions|
            && (if !Expected(s, m, src) then e == s
                else if error && s.status[m].retries < 1000 then
                  e == s.(status := s.status[m := s.status[m].(retries := (s.status[m].retries + 1) % s.retriesMod)])
                else Finished(s, e, m))
  {
    hide StatusFits, BufInv, MutexInv, TokenInv, InProgress;
    var own, bown :| InvWith(s, own, bown);
    ExpectedMeans(s, own, m, src);
    if Expected(s, m, src) && !(error && s.status[m].retries < 1000) {
      hide Expected;
      FinishedMeans(s, own, m, src, error);
    }
  }

  lemma ExpectedMeans(s: State, own: seq<Owner>, m: nat, src: nat)
    requires SlotInv(s, own) && TokenInv(s, own) && m < |own| && src < NULL_NODE
    ensures Expected(s, m, src) <==> s.status[m].dst == src
    ensures Expected(s, m, src) ==> Live(s, own, m)
  {
    OwnerMeans(s, own, m);
    assert StatusFits(s, own, m);
  }

  lemma FinishedMeans(s: State, own: seq<Owner>, m: nat, src: nat, error: bool)
    requires SlotInv(s, own) && TokenInv(s, own) && m < |own| && Live(s, own, m)
    requires Judge(s.status[m], src, error) == Final
    ensures s.LastFrom(m) && Finished(s, HandleAck(s, m, src, error), m)
  {
    hide SlotInv;
    LiveStatus(s, own, m);
    WaiterMeans(s, own, m);
    assert s.status[m].callback == CallBuf(s.ops[s.current[m]].call);
  }

  lemma WaiterMeans(s: State, own: seq<Owner>, m: nat)
    requires SlotInv(s, own) && m < |own| && Live(s, own, m)
    ensures (exists t :: WaitsFor(s, t, m)) <==> s.status[m].ackWaiting
  {
    assert StatusFits(s, own, m);
    if own[m].Thread? { assert WaitsFor(s, own[m].t, m); }
    forall t: nat | WaitsFor(s, t, m) ensures own[m] == Thread(t) { assert SlotOf(s.threads[t]) == Some(m); }
  }

  /** The last operation of slot m, for a call, has its final acknowledgement in e. */
  ghost predicate Finished(s: State, e: State, m: nat)
    requires m < |s.status| == |s.current| == |s.completions| && s.LastFrom(m)
  {
    && e.done == s.done + {s.current[m]} && e.completions == s.completions[m := s.completions[m] + 1]
    && e.threads == s.threads && e.ops == s.ops && e.current == s.current
    && |e.status| == |s.status| && (forall n :: 0 <= n < |s.status| && n != m ==> e.status[n] == s.status[n])
    && e.status[m].counter == (s.status[m].counter + 1) % 0x1_0000_0000
    && if exists t :: WaitsFor(s, t, m) then
         e.status[m].ackReceived && e.status[m].dst == s.status[m].dst && e.rdma == s.rdma && e.long == s.long
       else
         && e.rdma == s.rdma.PushFree(m) && e.status[m].dst == 255 && !e.status[m].ackReceived
         && e.long == (match s.ops[s.current[m]].call
                       case Long(b) => s.long.PushFree(b)
                       case _ => s.long)
  }

  // ---------------------------------------------------------------- the retry bound

  /** k error acknowledgements in a row are all answered by a resend. */
  ghost predicate Survives(st: Status, k: nat, retriesMod: Width)
    decreases k
  {
    k == 0 || (Judge(st, st.dst, true) == Resent && Survives(Resend(st, retriesMod), k - 1, retriesMod))
  }

  /**
   The intended bound, 1000 resends, is enforced exactly when the retry counter can represent
   more than 1000; a narrower one keeps resending for ever.
   */
  lemma {:induction false} RetryExact(st: Status, k: nat, retriesMod: Width)
    requires st.retries <= MAX_RETRY && st.retries < retriesMod
    ensures Survives(st, k, retriesMod) <==> retriesMod <= MAX_RETRY || st.retries + k <= MAX_RETRY
    decreases k
  {
    if k > 0 && Judge(st, st.dst, true) == Resent {
      RetryExact(Resend(st, retriesMod), k - 1, retriesMod);
    }
  }

  /** The step answers an error acknowledgement for slot m by a resend. */
  predicate IsResend(s: State, step: Step, m: nat)
    requires Enabled(s, step)
  {
    step.Ack? && step.slot == m && Judge(s.status[m], step.src, step.error) == Resent
  }

  predicate IsTransmit(s: State, step: Step, m: nat)
    requires Enabled(s, step)
  {
    step.Transmit? && s.threads[step.t].slot == m
  }

  ghost predicate NoTransmit(s: State, steps: seq<Step>, m: nat)
    requires IsRun(s, steps)
    decreases |steps|
  {
    steps == [] || (!IsTransmit(s, steps[0], m) && NoTransmit(Next(s, steps[0]), steps[1..], m))
  }

  ghost function Resends(s: State, steps: seq<Step>, m: nat): nat
    requires IsRun(s, steps)
    decreases |steps|
  {
    if steps == [] then 0
    else Count(IsResend(s, steps[0], m)) + Resends(Next(s, steps[0]), steps[1..], m)
  }

  /** Only a transmit and a resend touch a slot's retry counter. */
  lemma RetriesStep(s: State, step: Step, m: nat)
    requires Enabled(s, step) && m < |s.status| && !IsTransmit(s, step, m)
    ensures |Next(s, step).status| == |s.status| && Next(s, step).retriesMod == s.retriesMod
    ensures Next(s, step).status[m].retries ==
              if IsResend(s, step, m) then (s.status[m].retries + 1) % s.retriesMod else s.status[m].retries
    ensures IsResend(s, step, m) ==> s.status[m].retries < MAX_RETRY
  {}

  lemma RetriesGrow(s: State, step: Step, m: nat)
    requires Enabled(s, step) && m < |s.status| && !IsTransmit(s, step, m)
    requires s.retriesMod > MAX_RETRY && s.status[m].retries <= MAX_RETRY
    ensures |Next(s, step).status| == |s.status| && Next(s, step).retriesMod == s.retriesMod
    ensures Next(s, step).status[m].retries == s.status[m].retries + Count(IsResend(s, step, m)) <= MAX_RETRY
  {
    hide Next, Enabled, IsTransmit, IsResend;
    RetriesStep(s, step, m);
    if IsResend(s, step, m) { SmallRemainder(s.status[m].retries + 1, s.retriesMod); }
  }

  lemma SmallRemainder(a: nat, n: nat)
    requires a < n
    ensures a % n == a
  {}

  /** With a wide enough counter an operation is resent at most 1000 times, whatever happens in between. */
  lemma {:induction false} ResendsBounded(s: State, steps: seq<Step>, m: nat)
    requires IsRun(s, steps) && NoTransmit(s, steps, m) && m < |s.status|
    requires s.retriesMod > MAX_RETRY && s.status[m].retries <= MAX_RETRY
    ensures s.status[m].retries + Resends(s, steps, m) <= MAX_RETRY
    decreases |steps|
  {
    hide Next, Enabled, IsResend, IsTransmit, Count;
    if steps != [] {
      RetriesGrow(s, steps[0], m);
      ResendsBounded(Next(s, steps[0]), steps[1..], m);
    }
  }

  /** As many error acknowledgements in a row as the status survives are a run with that many resends. */
  lemma {:induction false} SurvivesRun(s: State, m: nat, n: nat) returns (steps: seq<Step>)
    requires m < |s.status| == |s.completions| == |s.current| && s.status[m].dst < NULL_NODE
    requires Survives(s.status[m], n, s.retriesMod)
    ensures IsRun(s, steps) && NoTransmit(s, steps, m) && Resends(s, steps, m) == n
    decreases n
  {
    if n == 0 {
      steps := [];
    } else {
      var step := Ack(m, s.status[m].dst, true);
      var rest := SurvivesRun(Next(s, step), m, n - 1);
      steps := [step] + rest;
      assert steps[1..] == rest;
    }
  }

  ghost predicate ResendsReach(s: State, m: nat, n: nat) {
    exists steps :: IsRun(s, steps) && NoTransmit(s, steps, m) && Resends(s, steps, m) == n
  }

  /**
   How often a slot can be resent without a new transmit: any number of times with a counter that
   cannot exceed 1000, and otherwise exactly as often as the retries used leave.
   */
  lemma ResendsExactly(s: State, m: nat, n: nat)
    requires m < |s.status| == |s.completions| == |s.current| && s.status[m].dst < NULL_NODE
    requires s.status[m].retries < s.retriesMod && s.status[m].retries <= MAX_RETRY
    ensures ResendsReach(s, m, n) <==> s.retriesMod <= MAX_RETRY || s.status[m].retries + n <= MAX_RETRY
  {
    RetryExact(s.status[m], n, s.retriesMod);
    if Survives(s.status[m], n, s.retriesMod) {
      var steps := SurvivesRun(s, m, n);
    } else if ResendsReach(s, m, n) {
      var steps :| IsRun(s, steps) && NoTransmit(s, steps, m) && Resends(s, steps, m) == n;
      ResendsBounded(s, steps, m);
    }
  }

  /** With a narrow one it can be resent any number of times. */
  lemma ResendsUnbounded(s: State, m: nat, n: nat) returns (steps: seq<Step>)
    requires m < |s.status| == |s.completions| == |s.current| && s.status[m].dst < NULL_NODE
    requires s.status[m].retries < s.retriesMod <= MAX_RETRY
    ensures IsRun(s, steps) && NoTransmit(s, steps, m) && Resends(s, steps, m) == n
  {
    RetryExact(s.status[m], n, s.retriesMod);
    steps := SurvivesRun(s, m, n);
  }

  ghost predicate RetryBound(s: State, m: nat) {
    forall steps :: IsRun(s, steps) && NoTransmit(s, steps, m) ==> Resends(s, steps, m) <= MAX_RETRY
  }

  /**
   Every operation starts with the whole allowance of 1000 resends, and over all runs the bound
   holds for it exactly when the counter can represent more than 1000.
   */
  lemma OperationRetries(s: State, t: nat, dst: nat)
    requires Enabled(s, Transmit(t, dst)) && dst < NULL_NODE
    ensures RetryBound(Next(s, Transmit(t, dst)), s.threads[t].slot) <==> s.retriesMod > MAX_RETRY
    ensures ResendsReach(Next(s, Transmit(t, dst)), s.threads[t].slot, 1000)
  {
    var e, m := Next(s, Transmit(t, dst)), s.threads[t].slot;
    ResendsExactly(e, m, 1000);
    if s.retriesMod > MAX_RETRY {
      forall steps | IsRun(e, steps) && NoTransmit(e, steps, m) ensures Resends(e, steps, m) <= MAX_RETRY {
        ResendsBounded(e, steps, m);
      }
    } else {
      var steps := ResendsUnbounded(e, m, MAX_RETRY + 1);
    }
  }

  lemma {:induction false} RetriesFit(s: State, steps: seq<Step>)
    requires IsRun(s, steps) && forall m :: 0 <= m < |s.status| ==> s.status[m].retries < s.retriesMod
    ensures var e := After(s, steps);
            e.retriesMod == s.retriesMod && forall m :: 0 <= m < |e.status| ==> e.status[m].retries < e.retriesMod
    decreases |steps|
  {
    if steps != [] {
      RetriesFit(Next(s, steps[0]), steps[1..]);
    }
  }

  /** With the driver's 8-bit counter no error acknowledgement ever ends an operation, in any run. */
  lemma DriverNeverGivesUp(threads: nat, steps: seq<Step>, m: nat, src: nat)
    requires IsRun(Init(threads, RETRIES_MOD), steps)
    requires m < |After(Init(threads, RETRIES_MOD), steps).status|
    ensures Judge(After(Init(threads, RETRIES_MOD), steps).status[m], src, true) != Final
  {
    RetriesFit(Init(threads, RETRIES_MOD), steps);
  }

  // ---------------------------------------------------------------- where atomicity and the null node matter

  /**
   The store that ends an interrupted wait keeps the ownership exactly when no acknowledgement
   has been noted meanwhile; otherwise the slot ends up in none of the four states.
   */
  lemma InterruptSafeIff(s: State, t: nat)
    requires Inv(s) && t < |s.threads| && s.threads[t].Waiting?
    ensures s.threads[t].slot < |s.status|
    ensures Inv(StopWaiting(s, t, s.threads[t].slot)) <==> !s.status[s.threads[t].slot].ackReceived
    ensures Ownership(StopWaiting(s, t, s.threads[t].slot)) <==> !s.status[s.threads[t].slot].ackReceived
    ensures var m := s.threads[t].slot; s.status[m].ackReceived ==>
              var e := StopWaiting(s, t, m);
              !IsFree(e, m) && !IsHeld(e, m) && !IsAwaiting(e, m) && !IsAcked(e, m)
  {
    var own, bown :| InvWith(s, own, bown);
    var m := s.threads[t].slot;
    assert SlotOf(s.threads[t]) == Some(m);
    OwnerMeans(s, own, m);
    assert StatusFits(s, own, m);
    if !s.status[m].ackReceived {
      InterruptKeeps(s, t);
      InvOwnership(StopWaiting(s, t, m));
    } else {
      var e := StopWaiting(s, t, m);
      forall u | 0 <= u < |e.threads| ensures SlotOf(e.threads[u]) != Some(m) {
        if u != t { assert e.threads[u] == s.threads[u]; }
      }
      assert e.ops == s.ops && e.done == s.done;
      if Inv(e) { OneState(e, m); }
    }
  }

  /** A final acknowledgement for a slot in progress, or for an idle one that was waited for. */
  lemma FinalAckKeeps(s: State, own: seq<Owner>, bown: seq<BufOwner>, m: nat, src: nat, error: bool)
    requires InvWith(s, own, bown) && m < |own| && Judge(s.status[m], src, error) == Final
    requires Live(s, own, m) || s.status[m].ackWaiting
    ensures Inv(HandleAck(s, m, src, error))
  {
    if Live(s, own, m) {
      FinalKeeps(s, m, src, error, own, bown);
    } else {
      WaitedAckKeeps(s, own, bown, m, src, error);
    }
  }

  /** On an idle slot that was waited for only the counter and a flag nobody looks at change. */
  lemma WaitedAckKeeps(s: State, own: seq<Owner>, bown: seq<BufOwner>, m: nat, src: nat, error: bool)
    requires InvWith(s, own, bown) && m < |own| && !Live(s, own, m)
    requires Judge(s.status[m], src, error) == Final && s.status[m].ackWaiting
    ensures Inv(HandleAck(s, m, src, error))
  {
    hide MutexInv;
    var e := HandleAck(s, m, src, error);
    assert StatusFits(s, own, m);
    assert e.done == s.done;
    WaitedAckSlots(s, e, own, m);
    WaitedAckTokens(s, e, own, m);
    BufsFollow(s, e, own, own, bown);
    WaitedAckMutex(s, m, src, error);
    assert InvWith(e, own, bown);
  }

  /** Only slot m's status and completions differ, and the slot is idle. */
  ghost predicate NotedOn(s: State, e: State, m: nat) {
    && m < |s.status| == |s.completions|
    && e.status == s.status[m := s.status[m].(counter := (s.status[m].counter + 1) % COUNTER_MOD, ackReceived := true)]
    && e == s.(status := e.status, completions := s.completions[m := s.completions[m] + 1])
  }

  lemma WaitedAckSlots(s: State, e: State, own: seq<Owner>, m: nat)
    requires SlotInv(s, own) && NotedOn(s, e, m) && m < |own| && !Live(s, own, m)
    ensures SlotInv(e, own)
  {
    OwnersStay(s, e, own);
    forall k | 0 <= k < |own| ensures StatusFits(e, own, k) {
      assert StatusFits(s, own, k);
    }
  }

  lemma WaitedAckTokens(s: State, e: State, own: seq<Owner>, m: nat)
    requires TokenInv(s, own) && NotedOn(s, e, m) && SlotsOwned(e, own) && m < |own| && !Live(s, own, m)
    ensures TokenInv(e, own)
  {
    CounterStep(s.completions[m]);
    assert forall k :: 0 <= k < |own| ==> Live(e, own, k) == Live(s, own, k);
  }

  lemma WaitedAckMutex(s: State, m: nat, src: nat, error: bool)
    requires MutexInv(s) && m < |s.status| == |s.completions| == |s.current|
    requires Judge(s.status[m], src, error) == Final && s.status[m].ackWaiting
    ensures MutexInv(HandleAck(s, m, src, error))
  {}

  /** Otherwise it frees a slot that is free already, with a thread or in flight. */
  lemma PushedAckBreaks(s: State, own: seq<Owner>, m: nat, src: nat, error: bool)
    requires SlotInv(s, own) && TokenInv(s, own) && m < |own| && !Live(s, own, m)
    requires Judge(s.status[m], src, error) == Final && !s.status[m].ackWaiting
    ensures !Ownership(HandleAck(s, m, src, error))
  {
    var e, q := HandleAck(s, m, src, error), s.status[m].queueSlot;
    assert e.rdma.free[0] == q;
    if q < |own| {
      OwnerMeans(s, own, q);
      OneStateOf(s, own, q);
      if IsFree(s, q) {
        var i :| 0 <= i < |s.rdma.free| && s.rdma.free[i] == q;
        assert e.rdma.free[i + 1] == q;
      } else {
        StillTaken(s, own, m, src, error, q);
        assert IsFree(e, q) && !ExactlyOneState(e, q);
      }
    }
  }

  lemma StillTaken(s: State, own: seq<Owner>, m: nat, src: nat, error: bool, q: nat)
    requires SlotInv(s, own) && TokenInv(s, own) && m < |own| && !Live(s, own, m)
    requires Judge(s.status[m], src, error) == Final && !s.status[m].ackWaiting
    requires q < |own| && (IsHeld(s, q) || IsAwaiting(s, q) || IsAcked(s, q))
    ensures var e := HandleAck(s, m, src, error); IsHeld(e, q) || IsAwaiting(e, q) || IsAcked(e, q)
  {
    var e := HandleAck(s, m, src, error);
    OwnerMeans(s, own, q);
    if t :| Holds(s, t, q) {
      assert Holds(e, t, q);
    } else if IsAwaiting(s, q) {
      assert e.ops[s.current[q]].slot == q && s.current[q] !in e.done;
    } else {
      var t :| WaitsFor(s, t, q);
      assert WaitsFor(e, t, q) && q != m;
    }
  }

  /**
   An acknowledgement keeps the ownership exactly when it is discarded, answered by a resend,
   for a slot with an operation in progress, or for one whose last operation was waited for.
   The driver's own test admits the others, and the last kind, only from node 255, the mark of
   an idle slot.
   */
  lemma AckSafeIff(s: State, m: nat, src: nat, error: bool)
    requires Inv(s) && m < |s.status|
    ensures |s.completions| == |s.current| == |s.status|
    ensures Ownership(HandleAck(s, m, src, error)) <==> AckSafe(s, m, src, error)
    ensures Inv(HandleAck(s, m, src, error)) <==> AckSafe(s, m, src, error)
    ensures Judge(s.status[m], src, error) != Discarded && !IsAwaiting(s, m) && !IsAcked(s, m) ==> src == NULL_NODE
  {
    var own, bown :| InvWith(s, own, bown);
    OwnerMeans(s, own, m);
    assert StatusFits(s, own, m);
    var e := HandleAck(s, m, src, error);
    match Judge(s.status[m], src, error) {
      case Discarded =>
      case Resent => ResentKeeps(s, m, src, own, bown);
      case Final =>
        if AckSafe(s, m, src, error) {
          FinalAckKeeps(s, own, bown, m, src, error);
        } else {
          PushedAckBreaks(s, own, m, src, error);
        }
    }
    if Inv(e) { InvOwnership(e); }
  }

  ghost predicate AckSafe(s: State, m: nat, src: nat, error: bool)
    requires m < |s.status|
  {
    Judge(s.status[m], src, error) != Final || IsAwaiting(s, m) || IsAcked(s, m) || s.status[m].ackWaiting
  }
}
