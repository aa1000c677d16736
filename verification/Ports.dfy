/**
 File descriptors and exclusive port binding. Each method below is one critical section under
 the driver's lock, so calls on different descriptors may interleave between them.
 */
module Ports {
  import opened Axiom

  const MAX_OPEN: nat := 64
  const PORT_ANY: nat := 255
  const UNBOUND: int := -1

  datatype Kind = Generic | Raw | Long | Rdma
  datatype Fd = Fd(kind: Kind, port: int)
  datatype Ret = Ok | Fault | Busy | TooBig

  /** Bit p of a `port_used` byte. */
  predicate Has(mask: Bits, p: nat)
    requires p < 8
  {
    mask[p]
  }

  ghost predicate BoundTo(fds: map<nat, Fd>, f: nat, kind: Kind, p: nat) {
    f in fds && fds[f] == Fd(kind, p)
  }

  /** A port's bit is set exactly when one descriptor of that kind is bound to it, and only one. */
  ghost predicate Exclusive(fds: map<nat, Fd>, kind: Kind, mask: Bits) {
    && (forall p: nat :: p < 8 ==> (Has(mask, p) <==> exists f :: BoundTo(fds, f, kind, p)))
    && (forall p: nat, f, g :: BoundTo(fds, f, kind, p) && BoundTo(fds, g, kind, p) ==> f == g)
  }

  ghost predicate Bindings(fds: map<nat, Fd>) {
    forall f :: f in fds ==>
      fds[f].port == UNBOUND || (0 <= fds[f].port < PORT_NUM && (fds[f].kind == Raw || fds[f].kind == Long))
  }

  lemma UnbindKeeps(fds: map<nat, Fd>, kind: Kind, mask: Bits, f: nat, p: nat)
    requires Exclusive(fds, kind, mask) && p < PORT_NUM && BoundTo(fds, f, kind, p)
    ensures Exclusive(fds[f := Fd(kind, UNBOUND)], kind, mask[p := false])
  {
    var fds', mask' := fds[f := Fd(kind, UNBOUND)], mask[p := false];
    forall q: nat | q < 8 ensures Has(mask', q) <==> exists g :: BoundTo(fds', g, kind, q) {
      assert Has(mask', q) <==> q != p && Has(mask, q);
      if g :| BoundTo(fds, g, kind, q) { assert q != p ==> BoundTo(fds', g, kind, q); }
      if g :| BoundTo(fds', g, kind, q) { assert BoundTo(fds, g, kind, q) && g != f; }
    }
    forall q: nat, g, h | BoundTo(fds', g, kind, q) && BoundTo(fds', h, kind, q) ensures g == h {
      assert BoundTo(fds, g, kind, q) && BoundTo(fds, h, kind, q);
    }
  }

  lemma BindKeeps(fds: map<nat, Fd>, kind: Kind, mask: Bits, f: nat, p: nat)
    requires Exclusive(fds, kind, mask) && p < PORT_NUM && !Has(mask, p) && f in fds && fds[f] == Fd(kind, UNBOUND)
    ensures Exclusive(fds[f := Fd(kind, p)], kind, mask[p := true])
  {
    var fds', mask' := fds[f := Fd(kind, p)], mask[p := true];
    assert BoundTo(fds', f, kind, p);
    forall q: nat | q < 8 ensures Has(mask', q) <==> exists g :: BoundTo(fds', g, kind, q) {
      assert Has(mask', q) <==> q == p || Has(mask, q);
      if g :| BoundTo(fds, g, kind, q) { assert BoundTo(fds', g, kind, q); }
      if g :| BoundTo(fds', g, kind, q) { assert q == p || BoundTo(fds, g, kind, q); }
    }
    forall q: nat, g, h | BoundTo(fds', g, kind, q) && BoundTo(fds', h, kind, q) ensures g == h {
      assert g != f ==> BoundTo(fds, g, kind, q);
      assert h != f ==> BoundTo(fds, h, kind, q);
    }
  }

  /** A change to descriptors that are not bound with this kind is invisible to it. */
  lemma OthersKeep(fds: map<nat, Fd>, fds': map<nat, Fd>, kind: Kind, mask: Bits)
    requires Exclusive(fds, kind, mask)
    requires forall f: nat, p: nat :: BoundTo(fds', f, kind, p) <==> BoundTo(fds, f, kind, p)
    ensures Exclusive(fds', kind, mask)
  {}

  ghost predicate IsTaken(fds: map<nat, Fd>, kind: Kind, p: nat) {
    exists f :: BoundTo(fds, f, kind, p)
  }

  /** The descriptors and the two `port_used` masks agree. */
  ghost predicate Tables(fds: map<nat, Fd>, raw: Bits, long: Bits) {
    Bindings(fds) && Exclusive(fds, Raw, raw) && Exclusive(fds, Long, long)
  }

  lemma UnbindTables(fds: map<nat, Fd>, raw: Bits, long: Bits, f: nat)
    requires Tables(fds, raw, long) && f in fds && fds[f].port != UNBOUND
    ensures 0 <= fds[f].port < PORT_NUM && (fds[f].kind == Raw || fds[f].kind == Long)
    ensures var fds' := fds[f := fds[f].(port := UNBOUND)];
            if fds[f].kind == Raw then Tables(fds', raw[fds[f].port := false], long)
            else Tables(fds', raw, long[fds[f].port := false])
  {
    var fds' := fds[f := fds[f].(port := UNBOUND)];
    if fds[f].kind == Raw {
      UnbindKeeps(fds, Raw, raw, f, fds[f].port);
      OthersKeep(fds, fds', Long, long);
    } else {
      UnbindKeeps(fds, Long, long, f, fds[f].port);
      OthersKeep(fds, fds', Raw, raw);
    }
  }

  lemma BindTables(fds: map<nat, Fd>, raw: Bits, long: Bits, f: nat, p: nat)
    requires Tables(fds, raw, long) && f in fds && fds[f].port == UNBOUND && p < PORT_NUM
    requires fds[f].kind == Raw || fds[f].kind == Long
    requires !Has(if fds[f].kind == Raw then raw else long, p)
    ensures var fds' := fds[f := fds[f].(port := p)];
            if fds[f].kind == Raw then Tables(fds', raw[p := true], long) else Tables(fds', raw, long[p := true])
  {
    var fds' := fds[f := fds[f].(port := p)];
    if fds[f].kind == Raw {
      BindKeeps(fds, Raw, raw, f, p);
      OthersKeep(fds, fds', Long, long);
    } else {
      BindKeeps(fds, Long, long, f, p);
      OthersKeep(fds, fds', Raw, raw);
    }
  }

  /** Adding or removing a descriptor that is not bound. */
  lemma IdleTables(fds: map<nat, Fd>, fds': map<nat, Fd>, raw: Bits, long: Bits)
    requires Tables(fds, raw, long) && Bindings(fds')
    requires forall f, kind, p: nat :: BoundTo(fds', f, kind, p) <==> BoundTo(fds, f, kind, p)
    ensures Tables(fds', raw, long)
  {}

  /** The scan for PORT_ANY: the lowest port whose bit is clear, or PORT_ANY again. */
  method FirstFree(mask: Bits) returns (port: nat)
    ensures port < PORT_NUM || port == PORT_ANY
    ensures port < PORT_NUM ==> !Has(mask, port) && forall q :: 0 <= q < port ==> Has(mask, q)
    ensures port == PORT_ANY ==> forall q :: 0 <= q < PORT_NUM ==> Has(mask, q)
  {
    var i := 0;
    while i < PORT_NUM
      invariant 0 <= i <= PORT_NUM
      invariant forall q :: 0 <= q < i ==> Has(mask, q)
    {
      if !Has(mask, i) { return i; }
      i := i + 1;
    }
    port := PORT_ANY;
  }

  class Driver {
    var fds: map<nat, Fd>
    var used: int
    var rawUsed: Bits
    var longUsed: Bits

    ghost predicate Valid()
      reads this
    {
      used == |fds| <= MAX_OPEN && Tables(fds, rawUsed, longUsed)
    }

    constructor ()
      ensures Valid() && fds == map[]
    {
      fds, used, rawUsed, longUsed := map[], 0, seq(8, _ => false), seq(8, _ => false);
    }

    /** `axiomnet_open_generic` and its three variants, for a new file f. */
    method Open(f: nat, kind: Kind) returns (ret: Ret)
      requires Valid() && f !in fds
      modifies this
      ensures Valid()
      ensures ret == (if |old(fds)| < MAX_OPEN then Ok else Busy)
      ensures fds == if ret == Ok then old(fds)[f := Fd(kind, UNBOUND)] else old(fds)
    {
      if used >= MAX_OPEN { return Busy; }
      used := used + 1;
      fds := fds[f := Fd(kind, UNBOUND)];
      IdleTables(old(fds), fds, rawUsed, longUsed);
      ret := Ok;
    }

    /** `axiomnet_unbind` */
    method Unbind(f: nat)
      requires Valid() && f in fds
      modifies this
      ensures Valid() && fds == old(fds)[f := old(fds)[f].(port := UNBOUND)]
    {
      var fd := fds[f];
      if fd.port == UNBOUND || fd.port > PORT_NUM - 1 {
        assert fds[f := fd.(port := UNBOUND)] == fds;
        return;
      }
      UnbindTables(fds, rawUsed, longUsed, f);
      if fd.kind == Raw {
        rawUsed := rawUsed[fd.port := false];
      }
      if fd.kind == Long {
        longUsed := longUsed[fd.port := false];
      }
      fds := fds[f := fd.(port := UNBOUND)];
      assert fds.Keys == old(fds).Keys;
    }

    /** The second critical section of `axiomnet_bind`, for a descriptor just unbound. */
    method TryBind(f: nat, request: nat) returns (ret: Ret, port: nat)
      requires Valid() && f in fds && fds[f].port == UNBOUND
      modifies this
      ensures Valid()
      ensures ret == Ok ==> port < PORT_NUM && !IsTaken(old(fds), old(fds)[f].kind, port)
      ensures fds == if ret == Ok then old(fds)[f := old(fds)[f].(port := port)] else old(fds)
      ensures ret == Ok && request == PORT_ANY ==>
                forall q :: 0 <= q < port ==> IsTaken(old(fds), old(fds)[f].kind, q)
      ensures ret == Ok && request != PORT_ANY ==> port == request
      ensures ret == BindResult(old(fds), old(fds)[f].kind, request)
    {
      port := request;
      var kind := fds[f].kind;
      var mask: Bits;
      if kind == Raw {
        mask := rawUsed;
      } else if kind == Long {
        mask := longUsed;
      } else {
        return Fault, port;
      }
      assert forall q: nat :: q < 8 ==> (Has(mask, q) <==> IsTaken(fds, kind, q));
      if port == PORT_ANY {
        port := FirstFree(mask);
        if port == PORT_ANY { return Busy, port; }
      } else if port >= PORT_NUM {
        return TooBig, port;
      }
      if Has(mask, port) { return Busy, port; }
      BindTables(fds, rawUsed, longUsed, f, port);
      fds := fds[f := fds[f].(port := port)];
      assert fds.Keys == old(fds).Keys;
      if kind == Raw {
        rawUsed := rawUsed[port := true];
      } else {
        longUsed := longUsed[port := true];
      }
      ret := Ok;
    }

    /** `axiomnet_bind`: a failed bind leaves the descriptor unbound, whatever it was bound to. */
    method Bind(f: nat, request: nat) returns (ret: Ret, port: nat)
      requires Valid() && f in fds
      modifies this
      ensures Valid()
      ensures fds == old(fds)[f := old(fds)[f].(port := if ret == Ok then port else UNBOUND)]
      ensures ret == BindResult(old(fds)[f := old(fds)[f].(port := UNBOUND)], old(fds)[f].kind, request)
      ensures ret == Ok ==> port < PORT_NUM && (request == PORT_ANY || port == request)
      ensures (if ret == Ok then Some(port) else None) == Given(old(fds), f, request)
    {
      Unbind(f);
      ret, port := TryBind(f, request);
      assert fds == old(fds)[f := fds[f]];
      if ret == Ok && request == PORT_ANY {
        LowestIs(old(fds)[f := old(fds)[f].(port := UNBOUND)], fds[f].kind, 0, port);
      }
    }

    /** `axiomnet_release` */
    method Release(f: nat)
      requires Valid() && f in fds
      modifies this
      ensures Valid() && fds == old(fds) - {f}
    {
      Unbind(f);
      RemoveIdle(fds, f, rawUsed, longUsed);
      used := used - 1;
      fds := fds - {f};
    }
  }

  /** Which of its results a bind gives, from who holds which port. */
  ghost function BindResult(fds: map<nat, Fd>, kind: Kind, request: nat): Ret {
    if kind != Raw && kind != Long then Fault
    else if request == PORT_ANY then
      if forall q: nat :: q < PORT_NUM ==> IsTaken(fds, kind, q) then Busy else Ok
    else if request >= PORT_NUM then TooBig
    else if IsTaken(fds, kind, request) then Busy
    else Ok
  }

  /** The lowest port from q on that no descriptor of the kind is bound to. */
  ghost function LowestUntaken(fds: map<nat, Fd>, kind: Kind, q: nat): nat
    decreases PORT_NUM - q
  {
    if q >= PORT_NUM || !IsTaken(fds, kind, q) then q else LowestUntaken(fds, kind, q + 1)
  }

  lemma {:induction false} LowestIs(fds: map<nat, Fd>, kind: Kind, q: nat, port: nat)
    requires q <= port < PORT_NUM && !IsTaken(fds, kind, port) && forall r :: q <= r < port ==> IsTaken(fds, kind, r)
    ensures LowestUntaken(fds, kind, q) == port
    decreases port - q
  {
    if q < port { LowestIs(fds, kind, q + 1, port); }
  }

  /**
   The port a bind of f gives it, or None if it fails: what the others hold decides, since f
   itself is unbound first.
   */
  ghost function Given(fds: map<nat, Fd>, f: nat, request: nat): Option<nat>
    requires f in fds
  {
    var rest, kind := fds[f := fds[f].(port := UNBOUND)], fds[f].kind;
    if BindResult(rest, kind, request) != Ok then None
    else if request == PORT_ANY then Some(LowestUntaken(rest, kind, 0))
    else Some(request)
  }

  /** The descriptors after a bind of f that gave it `p`. */
  ghost function Rebound(fds: map<nat, Fd>, f: nat, p: Option<nat>): map<nat, Fd>
    requires f in fds
  {
    fds[f := fds[f].(port := if p.Some? then p.value else UNBOUND)]
  }

  lemma RemoveIdle(fds: map<nat, Fd>, f: nat, raw: Bits, long: Bits)
    requires Tables(fds, raw, long) && f in fds && fds[f].port == UNBOUND
    ensures Tables(fds - {f}, raw, long) && |fds - {f}| == |fds| - 1
  {
    var fds' := fds - {f};
    assert fds'.Keys == fds.Keys - {f};
    IdleTables(fds, fds', raw, long);
  }

  /** The critical sections in whatever order the threads reach them. */
  datatype Section = DoOpen(f: nat, kind: Kind) | DoUnbind(f: nat) | DoTryBind(f: nat, request: nat) | DoRelease(f: nat)

  /** What a section makes of the descriptors; one that cannot be reached does nothing. */
  ghost function Done(fds: map<nat, Fd>, section: Section): map<nat, Fd> {
    match section
    case DoOpen(f, kind) => if f !in fds && |fds| < MAX_OPEN then fds[f := Fd(kind, UNBOUND)] else fds
    case DoUnbind(f) => if f in fds then fds[f := fds[f].(port := UNBOUND)] else fds
    case DoTryBind(f, request) =>
      if f in fds && fds[f].port == UNBOUND then Rebound(fds, f, Given(fds, f, request)) else fds
    case DoRelease(f) => fds - {f}
  }

  ghost function AllDone(fds: map<nat, Fd>, run: seq<Section>): map<nat, Fd> {
    if run == [] then fds else Done(AllDone(fds, run[..|run| - 1]), run[|run| - 1])
  }

  /**
   Over every run of them the ports stay exclusive, `used` counts the open descriptors, and these
   are what the run leads to.
   */
  method Serve(d: Driver, run: seq<Section>)
    requires d.Valid()
    modifies d
    ensures d.Valid() && d.fds == AllDone(old(d.fds), run)
  {
    for i := 0 to |run|
      invariant d.Valid() && d.fds == AllDone(old(d.fds), run[..i])
    {
      assert run[..i + 1][..i] == run[..i];
      ServeOne(d, run[i]);
    }
    assert run[..|run|] == run;
  }

  method ServeOne(d: Driver, section: Section)
    requires d.Valid()
    modifies d
    ensures d.Valid() && d.fds == Done(old(d.fds), section)
  {
    match section {
      case DoOpen(f, kind) => if f !in d.fds { var _ := d.Open(f, kind); }
      case DoUnbind(f) => if f in d.fds { d.Unbind(f); }
      case DoTryBind(f, request) =>
        if f in d.fds && d.fds[f].port == UNBOUND {
          assert d.fds[f := d.fds[f].(port := UNBOUND)] == d.fds;
          var ret, port := d.TryBind(f, request);
          if ret == Ok && request == PORT_ANY { LowestIs(old(d.fds), old(d.fds)[f].kind, 0, port); }
        }
      case DoRelease(f) => if f in d.fds { d.Release(f); } else { assert d.fds - {f} == d.fds; }
    }
  }

  /** No other descriptor's sections touch a descriptor, so the port it was given stays its own. */
  lemma {:induction false} OthersLeaveIt(fds: map<nat, Fd>, run: seq<Section>, f: nat)
    requires f in fds && forall i :: 0 <= i < |run| ==> run[i].f != f
    ensures f in AllDone(fds, run) && AllDone(fds, run)[f] == fds[f]
  {
    if run != [] { OthersLeaveIt(fds, run[..|run| - 1], f); }
  }

  /**
   The user library's `axiom_bind`: the RAW and then the LONG descriptor, as far as they are
   open, the second with the port the first was given. On success both have the same port; if
   the second bind fails the first stays.
   */
  method AxiomBind(d: Driver, raw: Option<nat>, long: Option<nat>, request: nat) returns (port: Option<nat>)
    requires d.Valid() && (raw.Some? ==> raw.value in d.fds) && (long.Some? ==> long.value in d.fds)
    requires raw.Some? && long.Some? ==> raw != long
    modifies d
    ensures d.Valid() && d.fds.Keys == old(d.fds).Keys
    ensures port.Some? && raw.Some? ==> d.fds[raw.value].port == port.value
    ensures port.Some? && long.Some? ==> d.fds[long.value].port == port.value
    ensures port.Some? && request != PORT_ANY ==> port.value == request
    ensures port.None? && long.Some? ==>
              d.fds[long.value].port ==
              if raw.Some? && d.fds[raw.value].port == UNBOUND then old(d.fds)[long.value].port else UNBOUND
    ensures raw.None? && long.None? ==> port == Some(request) && d.fds == old(d.fds)
    ensures raw.None? && long.Some? ==>
              port == Given(old(d.fds), long.value, request) && d.fds == Rebound(old(d.fds), long.value, port)
    ensures raw.Some? ==>
              var first := Given(old(d.fds), raw.value, request);
              var mid := Rebound(old(d.fds), raw.value, first);
              if first.None? || long.None? then port == first && d.fds == mid
              else port == Given(mid, long.value, first.value) && d.fds == Rebound(mid, long.value, port)
  {
    var p, ret := request, Ok;
    if raw.Some? {
      ret, p := d.Bind(raw.value, p);
      if ret != Ok { return None; }
    }
    if long.Some? {
      ret, p := d.Bind(long.value, p);
      if ret != Ok { return None; }
    }
    port := Some(p);
  }
}
