/**
 Completion tokens: the driver's check of an array of tokens, and the user library's loop that
 waits for all of them.
 */
module RdmaTokens {
  import opened Axiom

  const INVALID: nat := 0
  const PENDING: nat := 1
  const ACKED: nat := 2

  datatype Token = Token(msgId: nat, status: nat, value: nat)

  /** One token after a check that read `counter` for its slot. */
  function Checked(tk: Token, counter: nat): Token {
    if tk.status != PENDING then tk
    else if tk.msgId >= MSG_ID_NUM then tk.(status := INVALID)
    else if counter != tk.value then tk.(status := ACKED)
    else tk
  }

  /** A pending token of a slot that exists is acked exactly if the counter moved; only pending ones change. */
  ghost predicate CheckedRight(tk: Token, counter: nat, r: Token) {
    && r.msgId == tk.msgId && r.value == tk.value
    && (tk.status == PENDING ==>
          && (r.status == ACKED <==> tk.msgId < 256 && counter != tk.value)
          && (r.status == INVALID <==> tk.msgId >= 256)
          && r.status in {INVALID, PENDING, ACKED})
    && (tk.status != PENDING ==> r.status == tk.status)
  }

  function CountOf(tokens: seq<Token>, status: nat): nat {
    if tokens == [] then 0
    else CountOf(tokens[..|tokens| - 1], status) + if tokens[|tokens| - 1].status == status then 1 else 0
  }

  /**
   The loop of `axiomnet_rdma_check`. `counters(i)` is the counter of token i's slot at the
   moment it is looked at, so completions may arrive during the loop.
   */
  method RdmaCheck(tokens: seq<Token>, counters: nat -> nat) returns (out: seq<Token>, acked: nat)
    ensures |out| == |tokens| && forall i :: 0 <= i < |tokens| ==> out[i] == Checked(tokens[i], counters(i))
    ensures acked == CountOf(out, ACKED)
    ensures forall i :: 0 <= i < |tokens| ==> CheckedRight(tokens[i], counters(i), out[i])
  {
    out := tokens;
    acked := 0;
    var i := 0;
    while i < |out|
      invariant 0 <= i <= |out| == |tokens|
      invariant forall j :: 0 <= j < i ==> out[j] == Checked(tokens[j], counters(j))
      invariant forall j :: i <= j < |out| ==> out[j] == tokens[j]
      invariant acked == CountOf(out[..i], ACKED)
    {
      var tk := out[i];
      if tk.status != PENDING {
        if tk.status == ACKED { acked := acked + 1; }
      } else if tk.msgId >= MSG_ID_NUM {
        out := out[i := tk.(status := INVALID)];
      } else if counters(i) != tk.value {
        out := out[i := tk.(status := ACKED)];
        acked := acked + 1;
      }
      assert out[..i + 1][..i] == out[..i];
      i := i + 1;
    }
    assert out[..i] == out;
  }

  // ---------------------------------------------------------------- counting

  lemma {:induction false} CountBounds(tokens: seq<Token>, status: nat)
    ensures CountOf(tokens, status) <= |tokens|
    ensures CountOf(tokens, status) == |tokens| <==> forall i :: 0 <= i < |tokens| ==> tokens[i].status == status
    ensures CountOf(tokens, status) == 0 <==> forall i :: 0 <= i < |tokens| ==> tokens[i].status != status
    decreases |tokens|
  {
    if tokens != [] {
      var front := tokens[..|tokens| - 1];
      CountBounds(front, status);
      assert forall i :: 0 <= i < |front| ==> front[i] == tokens[i];
    }
  }

  /** Tokens only ever go from pending to acked. */
  ghost predicate Advanced(a: seq<Token>, b: seq<Token>) {
    && |a| == |b|
    && forall i :: 0 <= i < |a| ==> b[i] == a[i] || (a[i].status == PENDING && b[i] == a[i].(status := ACKED))
  }

  lemma {:induction false} AdvancedCounts(a: seq<Token>, b: seq<Token>)
    requires Advanced(a, b)
    ensures CountOf(b, PENDING) <= CountOf(a, PENDING)
    decreases |a|
  {
    if a != [] {
      AdvancedCounts(a[..|a| - 1], b[..|b| - 1]);
    }
  }

  lemma {:induction false} AckDropsPending(a: seq<Token>, id: nat)
    requires id < |a| && a[id].status == PENDING
    ensures CountOf(a[id := a[id].(status := ACKED)], PENDING) < CountOf(a, PENDING)
    decreases |a|
  {
    var n := |a| - 1;
    var b := a[id := a[id].(status := ACKED)];
    if id == n {
      assert b[..n] == a[..n];
    } else {
      AckDropsPending(a[..n], id);
      assert b[..n] == a[..n][id := a[id].(status := ACKED)];
    }
  }

  /** Nothing is pending and not all are acked: some token was never going to be. */
  lemma StuckMeans(tokens: seq<Token>, out: seq<Token>)
    requires Advanced(tokens, out) && CountOf(out, ACKED) < |out|
    requires forall i :: 0 <= i < |out| ==> out[i].status != PENDING
    ensures !AllWaitable(tokens)
  {
    CountBounds(out, ACKED);
    var i :| 0 <= i < |out| && out[i].status != ACKED;
    assert !Waitable(tokens[i]);
  }

  lemma AllAckedMeans(tokens: seq<Token>, out: seq<Token>)
    requires Advanced(tokens, out) && CountOf(out, ACKED) >= |out|
    ensures AllAcked(out) && AllWaitable(tokens)
  {
    CountBounds(out, ACKED);
  }

  // ---------------------------------------------------------------- axiom_rdma_wait

  datatype WaitResult = WaitOk | WaitAgain | WaitError
  datatype Outcome = RetOk | RetError | OutOfBounds

  ghost predicate Waitable(tk: Token) { tk.status == PENDING || tk.status == ACKED }

  /**
   What the ioctls do, by the number of calls made so far: whether check number k fails, the
   counters it reads, and the result of wait number k. A wait that succeeds marks a pending
   token acked.
   */
  datatype Ioctls = Ioctls(checkFails: nat -> bool, counters: nat -> nat -> nat, waits: nat -> WaitResult)

  ghost predicate NeverFail(io: Ioctls) {
    forall k :: !io.checkFails(k) && io.waits(k) == WaitOk
  }

  /** The last pending token, or -1. */
  method LastPending(tokens: seq<Token>) returns (id: int)
    ensures -1 <= id < |tokens|
    ensures id >= 0 ==> tokens[id].status == PENDING
    ensures forall i :: id < i < |tokens| ==> tokens[i].status != PENDING
  {
    id := |tokens| - 1;
    while id >= 0
      invariant -1 <= id < |tokens|
      invariant forall i :: id < i < |tokens| ==> tokens[i].status != PENDING
    {
      if tokens[id].status == PENDING { return; }
      id := id - 1;
    }
  }

  /** The wait on a pending token has succeeded. */
  function Acknowledged(tokens: seq<Token>, id: nat): seq<Token>
    requires id < |tokens|
  {
    tokens[id := tokens[id].(status := ACKED)]
  }

  lemma AckAdvances(orig: seq<Token>, tokens: seq<Token>, id: nat)
    requires Advanced(orig, tokens) && id < |tokens| && tokens[id].status == PENDING
    ensures Advanced(orig, Acknowledged(tokens, id))
    ensures CountOf(Acknowledged(tokens, id), PENDING) < CountOf(tokens, PENDING)
  {
    AckDropsPending(tokens, id);
  }

  /** `axiom_rdma_check` in the course of a wait for the tokens `orig`. */
  method CheckAgain(ghost orig: seq<Token>, tokens: seq<Token>, counters: nat -> nat)
    returns (out: seq<Token>, acked: nat)
    requires Advanced(orig, tokens) && IdsFit(orig)
    ensures |out| == |tokens| == |orig| && Advanced(orig, out) && acked == CountOf(out, ACKED)
    ensures CountOf(out, PENDING) <= CountOf(tokens, PENDING)
    ensures forall i :: 0 <= i < |out| ==> out[i] == Checked(tokens[i], counters(i))
  {
    out, acked := RdmaCheck(tokens, counters);
    AdvancedCounts(tokens, out);
  }

  /** Of the first `made` waits the last failed. */
  ghost predicate LastFailed(io: Ioctls, made: nat) {
    made > 0 && io.waits(made - 1) != WaitOk
  }

  ghost predicate AllAcked(tokens: seq<Token>) { forall i :: 0 <= i < |tokens| ==> tokens[i].status == ACKED }
  ghost predicate AllWaitable(tokens: seq<Token>) { forall i :: 0 <= i < |tokens| ==> Waitable(tokens[i]) }
  ghost predicate IdsFit(tokens: seq<Token>) { forall i :: 0 <= i < |tokens| ==> tokens[i].msgId < MSG_ID_NUM }

  /** What the first check makes of the tokens. */
  ghost predicate FirstCheck(tokens: seq<Token>, io: Ioctls, out: seq<Token>) {
    |out| == |tokens| && forall i :: 0 <= i < |out| ==> out[i] == Checked(tokens[i], io.counters(0)(i))
  }

  /**
   `axiom_rdma_wait`, with the number of wait ioctls it made. If no ioctl fails it ends with
   every token acked exactly when every token was pending or acked on entry; otherwise its
   search runs off the front of the array. A failed wait ends the loop and is reported as OK:
   OK means that all tokens are acked exactly when no wait failed. `checks` is the number of
   checks made, one more than the waits unless a wait failed; an error is the failure of the last.
   */
  method RdmaWait(tokens: seq<Token>, io: Ioctls)
    returns (out: seq<Token>, ret: Outcome, ghost made: nat, ghost checks: nat)
    requires IdsFit(tokens)
    ensures checks == if LastFailed(io, made) then made else made + 1
    ensures forall k :: 0 <= k < checks - 1 ==> !io.checkFails(k)
    ensures ret == RetError <==> io.checkFails(checks - 1)
    ensures Advanced(tokens, out)
    ensures forall k :: 0 <= k < made - 1 ==> io.waits(k) == WaitOk
    ensures ret == RetError ==> io.checkFails(made)
    ensures LastFailed(io, made) ==> ret == RetOk
    ensures ret == RetOk ==> (AllAcked(out) <==> !LastFailed(io, made))
    ensures ret == OutOfBounds ==> !AllWaitable(tokens)
    ensures made == 0 && ret != RetError ==> FirstCheck(tokens, io, out)
    ensures NeverFail(io) ==> ret != RetError && (ret == RetOk <==> AllWaitable(tokens))
  {
    hide AllWaitable, CountOf;
    out := tokens;
    made, checks := 0, 1;
    var k := 0;
    if io.checkFails(k) { return out, RetError, made, checks; }
    var acked;
    SelfAdvanced(tokens);
    out, acked := CheckAgain(tokens, out, io.counters(k));
    assert FirstCheck(tokens, io, out);
    hide FirstCheck, AllAcked;
    while acked < |tokens|
      invariant Advanced(tokens, out) && |out| == |tokens| && acked == CountOf(out, ACKED)
      invariant made == k && checks == k + 1 && forall j :: 0 <= j < k ==> io.waits(j) == WaitOk
      invariant forall j :: 0 <= j <= k ==> !io.checkFails(j)
      invariant k == 0 ==> FirstCheck(tokens, io, out)
      decreases CountOf(out, PENDING)
    {
      var id := LastPending(out);
      if id < 0 {
        StuckMeans(tokens, out);
        return out, OutOfBounds, made, checks;  // tokens[-1] is accessed
      }
      NotAllAcked(out, id);
      made := made + 1;
      if io.waits(k) != WaitOk { return out, RetOk, made, checks; }
      AckAdvances(tokens, out, id);
      out := Acknowledged(out, id);
      k := k + 1;
      checks := checks + 1;
      if io.checkFails(k) { return out, RetError, made, checks; }
      out, acked := CheckAgain(tokens, out, io.counters(k));
    }
    AllAckedMeans(tokens, out);
    ret := RetOk;
  }

  lemma SelfAdvanced(tokens: seq<Token>)
    ensures Advanced(tokens, tokens)
  {}

  lemma NotAllAcked(tokens: seq<Token>, id: nat)
    requires id < |tokens| && tokens[id].status == PENDING
    ensures !AllAcked(tokens)
  {}

  /** One pending token whose slot never completes, and a wait that is interrupted: OK, and still pending. */
  method FailedWaitIsOk() returns (out: seq<Token>, ret: Outcome)
    ensures ret == RetOk && |out| == 1 && out[0].status == PENDING
  {
    var io := Ioctls(_ => false, _ => _ => 7, _ => WaitError);
    ghost var made, checks;
    out, ret, made, checks := RdmaWait([Token(0, PENDING, 7)], io);
    assert Waitable([Token(0, PENDING, 7)][0]);
    if made == 0 { assert out[0] == Checked(Token(0, PENDING, 7), 7); }
  }
}
