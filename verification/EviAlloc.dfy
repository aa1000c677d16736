/** The EVI alloc manager: first-fit allocation of runs of cells, with a cached free count. */
module EviAllocs {

  type Elem = e: int | 0 <= e < 256
  /** EVIA_NONE: an empty cell. */
  const EMPTY: Elem := 255

  function CountEmpty(a: seq<Elem>): nat {
    if a == [] then 0 else CountEmpty(a[..|a| - 1]) + if a[|a| - 1] == EMPTY then 1 else 0
  }

  /** Cells start to start+num-1 exist and are empty. */
  ghost predicate EmptyRun(a: seq<Elem>, start: int, num: int) {
    0 <= start && 0 <= num && start + num <= |a| && forall i :: start <= i < start + num ==> a[i] == EMPTY
  }

  function Filled(a: seq<Elem>, start: nat, num: nat, value: Elem): (r: seq<Elem>)
    requires start + num <= |a|
    ensures |r| == |a|
  {
    a[..start] + seq(num, _ => value) + a[start + num..]
  }

  function Freed(a: seq<Elem>, value: Elem): (r: seq<Elem>)
    ensures |r| == |a|
  {
    seq(|a|, i requires 0 <= i < |a| => if a[i] == value then EMPTY else a[i])
  }

  lemma {:induction false} CountAppend(a: seq<Elem>, b: seq<Elem>)
    ensures CountEmpty(a + b) == CountEmpty(a) + CountEmpty(b)
    decreases |b|
  {
    if b == [] {
      assert a + b == a;
    } else {
      CountAppend(a, b[..|b| - 1]);
      assert (a + b)[..|a + b| - 1] == a + b[..|b| - 1];
    }
  }

  lemma {:induction false} CountConstant(a: seq<Elem>, value: Elem)
    requires forall i :: 0 <= i < |a| ==> a[i] == value
    ensures CountEmpty(a) == if value == EMPTY then |a| else 0
    decreases |a|
  {
    if a != [] { CountConstant(a[..|a| - 1], value); }
  }

  lemma CountFilled(a: seq<Elem>, start: nat, num: nat, value: Elem)
    requires EmptyRun(a, start, num)
    ensures CountEmpty(Filled(a, start, num, value)) == CountEmpty(a) - if value == EMPTY then 0 else num
  {
    var mid, new' := a[start..start + num], seq(num, _ => value);
    CountConstant(mid, EMPTY);
    CountConstant(new', value);
    assert a == a[..start] + mid + a[start + num..];
    CountAppend(a[..start], mid);
    CountAppend(a[..start] + mid, a[start + num..]);
    CountAppend(a[..start], new');
    CountAppend(a[..start] + new', a[start + num..]);
  }

  lemma RunNeedsRoom(a: seq<Elem>, start: int, num: int)
    requires EmptyRun(a, start, num)
    ensures num <= CountEmpty(a)
  {
    var mid := a[start..start + num];
    CountConstant(mid, EMPTY);
    assert a == a[..start] + mid + a[start + num..];
    CountAppend(a[..start], mid);
    CountAppend(a[..start] + mid, a[start + num..]);
  }

  class EviAlloc {
    const cells: array<Elem>
    var free: int

    /** The cached count is right. */
    ghost predicate Valid()
      reads this, cells
    {
      free == CountEmpty(cells[..])
    }

    /** `evia_init` */
    constructor (elems: nat)
      ensures Valid() && fresh(cells) && cells.Length == elems && forall i :: 0 <= i < elems ==> cells[i] == EMPTY
    {
      var a := new Elem[elems];
      for i := 0 to elems
        invariant forall j :: 0 <= j < i ==> a[j] == EMPTY
      {
        a[i] := EMPTY;
      }
      cells, free := a, elems;
      new;
      CountConstant(cells[..], EMPTY);
    }

    /** The scan of `evia_alloc` (lines 120-133): the least start of a run of `num` empty cells, or -1. */
    method FindRun(num: int) returns (start: int)
      ensures start == -1 <==> !exists s :: EmptyRun(cells[..], s, num)
      ensures start != -1 ==>
                EmptyRun(cells[..], start, num) && forall s :: 0 <= s < start ==> !EmptyRun(cells[..], s, num)
    {
      ghost var a := cells[..];
      var i, count := 0, 0;
      while count < num && i < cells.Length
        invariant 0 <= i <= cells.Length && 0 <= count <= i && (num >= 0 ==> count <= num)
        invariant forall j :: i - count <= j < i ==> a[j] == EMPTY
        invariant forall s :: 0 <= s < i - count ==> !EmptyRun(a, s, num)
        decreases cells.Length - i
      {
        if cells[i] == EMPTY {
          count := count + 1;
        } else {
          assert a[i] != EMPTY;
          forall s | i - count <= s <= i ensures !EmptyRun(a, s, num) {}
          count := 0;
        }
        i := i + 1;
      }
      if count != num {
        forall s ensures !EmptyRun(a, s, num) {}
        return -1;
      }
      start := i - count;
      assert EmptyRun(a, start, num);
    }

    /**
     `evia_alloc`: takes the first run of `num` empty cells and fails exactly when there is
     none. The count stays right unless the value written is the empty mark itself.
     */
    method Alloc(value: Elem, num: int) returns (start: int)
      requires Valid()
      modifies this, cells
      ensures start == -1 <==> !exists s :: EmptyRun(old(cells[..]), s, num)
      ensures start != -1 ==>
                && EmptyRun(old(cells[..]), start, num)
                && (forall s :: 0 <= s < start ==> !EmptyRun(old(cells[..]), s, num))
                && cells[..] == Filled(old(cells[..]), start, num, value)
      ensures start == -1 ==> cells[..] == old(cells[..])
      ensures free == old(free) - if start == -1 then 0 else num
      ensures Valid() <==> start == -1 || num == 0 || value != EMPTY
    {
      if num > free {
        forall s ensures !EmptyRun(cells[..], s, num) {
          if EmptyRun(cells[..], s, num) { RunNeedsRoom(cells[..], s, num); }
        }
        return -1;
      }
      start := FindRun(num);
      if start == -1 { return; }
      CountFilled(cells[..], start, num, value);
      Fill(start, num, value);
      free := free - num;
    }

    /** The loop that marks the run (lines 135-137). */
    method Fill(start: nat, num: nat, value: Elem)
      requires start + num <= cells.Length
      modifies cells
      ensures cells[..] == Filled(old(cells[..]), start, num, value)
    {
      var i := start;
      while i < start + num
        invariant start <= i <= start + num
        invariant forall j :: 0 <= j < cells.Length ==> cells[j] == if start <= j < i then value else old(cells[j])
      {
        cells[i] := value;
        i := i + 1;
      }
    }

    /** `evia_free`: empties every cell with the value; freeing the empty mark spoils the count. */
    method Free(value: Elem)
      requires Valid()
      modifies this, cells
      ensures cells[..] == Freed(old(cells[..]), value)
      ensures Valid() <==> value != EMPTY || old(free) == 0
    {
      var i := 0;
      while i < cells.Length
        invariant 0 <= i <= cells.Length
        invariant forall j :: 0 <= j < cells.Length ==>
                    cells[j] == if j < i && old(cells[j]) == value then EMPTY else old(cells[j])
        invariant value == EMPTY ==> free - old(free) == CountEmpty(old(cells[..])[..i])
        invariant value != EMPTY ==> free - old(free) == CountEmpty(cells[..i]) - CountEmpty(old(cells[..])[..i])
      {
        assert cells[..i + 1][..i] == cells[..i];
        assert old(cells[..])[..i + 1][..i] == old(cells[..])[..i];
        label before:
        if cells[i] == value {
          cells[i] := EMPTY;
          free := free + 1;
        }
        assert cells[..i] == old@before(cells[..i]);
        assert cells[..i + 1][..i] == cells[..i];
        i := i + 1;
      }
      assert cells[..i] == cells[..];
      assert old(cells[..])[..i] == old(cells[..]);
      assert cells[..] == Freed(old(cells[..]), value);
      if value == EMPTY { assert cells[..] == old(cells[..]); }
    }
  }

  /** Freeing a fresh value after its allocation restores every cell. */
  lemma FreeUndoesAlloc(a: seq<Elem>, start: nat, num: nat, value: Elem)
    requires EmptyRun(a, start, num) && value !in a
    ensures Freed(Filled(a, start, num, value), value) == a
  {}

  /** Allocating and freeing an unused value gives back every cell and the count. */
  method AllocThenFree(m: EviAlloc, value: Elem, num: int) returns (start: int)
    requires m.Valid() && value != EMPTY && value !in m.cells[..]
    modifies m, m.cells
    ensures start == -1 <==> !exists s :: EmptyRun(old(m.cells[..]), s, num)
    ensures m.Valid() && m.cells[..] == old(m.cells[..]) && m.free == old(m.free)
  {
    start := m.Alloc(value, num);
    if start != -1 { FreeUndoesAlloc(old(m.cells[..]), start, num, value); }
    assert start == -1 ==> Freed(m.cells[..], value) == m.cells[..];
    m.Free(value);
  }
}
