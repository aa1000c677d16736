/** Where the LONG buffers lie in the RDMA zone, and the lookup from an address to its buffer. */
module LongLayout {
  import opened Axiom

  const BUF_SIZE: nat := 65536
  const BUFS: nat := 32
  const PAYLOAD_MAX: nat := 65528
  const TWO31: nat := 0x8000_0000
  const TWO32: nat := 0x1_0000_0000
  const TWO64: nat := 0x1_0000_0000_0000_0000
  /** The largest RDMA zone for which the lookup is right at every 32-bit address. */
  const ZONE_MAX: nat := 0xFFFF_FFE0_0000

  /** Conversion of an unsigned value to a 32-bit signed int. */
  function ToInt32(x: nat): int {
    var low := x % TWO32;
    if low < TWO31 then low else low - TWO32
  }

  /** `axiomnet_long_rdma2buf`: 64-bit unsigned subtraction and division, then narrowing to int. */
  function Rdma2Buf(addr: nat, rdmaSize: nat): Option<nat> {
    var id := ToInt32((addr - rdmaSize) % TWO64 / BUF_SIZE);
    if id >= BUFS || id < 0 then None else Some(id)
  }

  ghost predicate InBuffer(addr: nat, rdmaSize: nat, i: nat) {
    i < BUFS && rdmaSize + i * BUF_SIZE <= addr < rdmaSize + (i + 1) * BUF_SIZE
  }

  lemma LookupAbove(addr: nat, rdmaSize: nat, i: nat)
    requires rdmaSize <= addr < TWO32
    ensures Rdma2Buf(addr, rdmaSize) == Some(i) <==> InBuffer(addr, rdmaSize, i)
  {}

  /** Below the zone the wrapped difference, narrowed, is negative or past the last buffer. */
  lemma LookupBelow(addr: nat, rdmaSize: nat)
    requires addr < rdmaSize <= ZONE_MAX
    ensures Rdma2Buf(addr, rdmaSize) == None
  {
    var d := rdmaSize - addr;
    var c := (d + BUF_SIZE - 1) / BUF_SIZE;
    assert (addr - rdmaSize) % TWO64 == TWO64 - d;
    assert (TWO64 - d) / BUF_SIZE == 0x1_0000_0000_0000 - c;
    assert 1 <= c <= TWO32 - BUFS;
    assert (0x1_0000_0000_0000 - c) % TWO32 == TWO32 - c;
  }

  /** For every 32-bit address and zone size, the lookup finds buffer i exactly for the addresses in it. */
  lemma LookupExact(addr: nat, rdmaSize: nat, i: nat)
    requires addr < TWO32 && rdmaSize <= ZONE_MAX
    ensures Rdma2Buf(addr, rdmaSize) == Some(i) <==> InBuffer(addr, rdmaSize, i)
    ensures Rdma2Buf(addr, rdmaSize) == None <==> addr < rdmaSize || addr >= rdmaSize + BUFS * BUF_SIZE
  {
    if addr < rdmaSize {
      LookupBelow(addr, rdmaSize);
    } else {
      LookupAbove(addr, rdmaSize, i);
      LookupAbove(addr, rdmaSize, (addr - rdmaSize) / BUF_SIZE);
    }
  }

  /** The bound is sharp: one byte more and address 0 is taken for the last buffer. */
  lemma ZoneMaxIsSharp()
    ensures Rdma2Buf(0, ZONE_MAX + 1) == Some(BUFS - 1)
  {
    assert (0 - (ZONE_MAX + 1)) % TWO64 == TWO64 - (ZONE_MAX + 1);
    assert (TWO64 - (ZONE_MAX + 1)) / BUF_SIZE == 0x1_0000_0000_0000 - 0xFFFF_FFE1;
    assert (0x1_0000_0000_0000 - 0xFFFF_FFE1) % TWO32 == BUFS - 1;
  }

  /** The buffer sizes, rounded up, from address 0 and from the last 32-bit address below the zone to its start. */
  function Farthest(rdmaSize: nat): nat { (rdmaSize + BUF_SIZE - 1) / BUF_SIZE }
  function Nearest(rdmaSize: nat): nat {
    if rdmaSize < TWO32 then 1 else (rdmaSize - TWO32 + BUF_SIZE) / BUF_SIZE
  }

  /** No distance in between falls, in 32 bits, on the 32 numbers up to a multiple of 2^32. */
  predicate NoAlias(rdmaSize: nat) {
    rdmaSize > 0 ==> (Farthest(rdmaSize) + BUFS - 1) % TWO32 >= BUFS + Farthest(rdmaSize) - Nearest(rdmaSize)
  }

  ghost predicate LookupRight(rdmaSize: nat) {
    forall addr: nat, i: nat :: addr < TWO32 ==> (Rdma2Buf(addr, rdmaSize) == Some(i) <==> InBuffer(addr, rdmaSize, i))
  }

  /** What the lookup makes of an address below the zone, from its distance in buffer sizes. */
  lemma LookupWrapped(addr: nat, rdmaSize: nat)
    requires addr < rdmaSize
    ensures var v := (Farthest(rdmaSize - addr) + BUFS - 1) % TWO32;
            Rdma2Buf(addr, rdmaSize) == if v < BUFS then Some(BUFS - 1 - v) else None
  {
    hide Farthest;
    var c := Farthest(rdmaSize - addr);
    FarthestIs(rdmaSize - addr, c);
    DropMultiples(addr - rdmaSize, -c, 0, c * BUF_SIZE - (rdmaSize - addr));
    Mirrored(c);
  }

  /** Rounding up, as the one number of sizes that just covers x. */
  lemma FarthestIs(x: nat, c: nat)
    ensures Farthest(x) == c <==> c * BUF_SIZE - BUF_SIZE < x <= c * BUF_SIZE
  {}

  lemma Mirrored(c: int)
    ensures var v := (c + BUFS - 1) % TWO32;
            -c % TWO32 == if v < BUFS then BUFS - 1 - v else TWO32 + BUFS - 1 - v
  {
    var v, t := (c + BUFS - 1) % TWO32, (c + BUFS - 1) / TWO32;
    assert c + BUFS - 1 == TWO32 * t + v;
    if v < BUFS {
      Remainder(-c, -t, BUFS - 1 - v);
    } else {
      Remainder(-c, -t - 1, TWO32 + BUFS - 1 - v);
    }
  }

  lemma Remainder(x: int, t: int, v: nat)
    requires x == TWO32 * t + v && v < TWO32
    ensures x % TWO32 == v
  {}

  lemma Backwards(x: int, k: nat)
    requires k <= x % TWO32
    ensures (x - k) % TWO32 == x % TWO32 - k
  {
    Remainder(x - k, x / TWO32, x % TWO32 - k);
  }

  lemma NearestIs(rdmaSize: nat, c: nat)
    requires rdmaSize > 0
    ensures c >= Nearest(rdmaSize) <==> c >= 1 && c * BUF_SIZE >= rdmaSize - (TWO32 - 1)
  {}

  /** For every size of the zone: the lookup is right at all 32-bit addresses exactly without such an alias. */
  lemma LookupRightIff(rdmaSize: nat)
    ensures LookupRight(rdmaSize) <==> NoAlias(rdmaSize)
    ensures rdmaSize <= ZONE_MAX ==> NoAlias(rdmaSize)
  {
    if NoAlias(rdmaSize) {
      forall addr: nat, i: nat | addr < TWO32
        ensures Rdma2Buf(addr, rdmaSize) == Some(i) <==> InBuffer(addr, rdmaSize, i)
      {
        if addr >= rdmaSize { LookupAbove(addr, rdmaSize, i); } else { NoAliasBelow(addr, rdmaSize); }
      }
    } else {
      var addr := AliasExists(rdmaSize);
      var i := Rdma2Buf(addr, rdmaSize).value;
      assert !InBuffer(addr, rdmaSize, i);
    }
  }

  lemma NoAliasBelow(addr: nat, rdmaSize: nat)
    requires addr < rdmaSize && addr < TWO32 && NoAlias(rdmaSize)
    ensures Rdma2Buf(addr, rdmaSize) == None
  {
    hide Farthest, Nearest;
    LookupWrapped(addr, rdmaSize);
    var c, far := Farthest(rdmaSize - addr), Farthest(rdmaSize);
    FarthestIs(rdmaSize - addr, c);
    FarthestIs(rdmaSize, far);
    NearestIs(rdmaSize, c);
    Backwards(far + BUFS - 1, far - c);
  }

  lemma AliasExists(rdmaSize: nat) returns (addr: nat)
    requires !NoAlias(rdmaSize)
    ensures addr < rdmaSize && addr < TWO32 && Rdma2Buf(addr, rdmaSize).Some?
  {
    hide Farthest, Nearest;
    var far := Farthest(rdmaSize);
    var r := (far + BUFS - 1) % TWO32;
    var k := if r < BUFS then 0 else r - (BUFS - 1);
    FarthestIs(rdmaSize, far);
    NearestIs(rdmaSize, far);
    var c: nat := far - k;
    NearestIs(rdmaSize, c);
    addr := if k == 0 then 0 else rdmaSize - c * BUF_SIZE;
    FarthestIs(rdmaSize - addr, c);
    Backwards(far + BUFS - 1, k);
    LookupWrapped(addr, rdmaSize);
  }

  /** What `axiomnet_rdma_init` sets up: buffer addresses as the CPU sees them and as the NIC does. */
  datatype Buffers = Buffers(rxSw: seq<nat>, rxHw: seq<nat>, txSw: seq<nat>, txHw: seq<nat>)

  function LongSize(): nat { 2 * (BUFS * BUF_SIZE) }

  /** Buffer i lies in the NIC's memory. */
  ghost predicate Inside(vaddr: nat, nicSize: nat, i: nat) {
    vaddr <= SwAddr(vaddr, i) && SwAddr(vaddr, i) + BUF_SIZE <= vaddr + nicSize
  }

  /** `vaddr` is where the kernel maps the NIC's memory; hardware addresses have 32 bits. */
  method RdmaInit(rdmaSize: nat, nicSize: nat, vaddr: nat) returns (r: Option<Buffers>)
    ensures r.None? <==> LongSize() > nicSize
    ensures r.None? <==> exists i :: 0 <= i < 64 && !Inside(vaddr, nicSize, i)
    ensures r.Some? ==>
              var b := r.value;
              && |b.rxSw| == |b.rxHw| == |b.txSw| == |b.txHw| == BUFS
              && forall i :: 0 <= i < BUFS ==>
                   && b.rxSw[i] == SwAddr(vaddr, i) && b.rxHw[i] == HwAddr(rdmaSize, i)
                   && b.txSw[i] == SwAddr(vaddr, BUFS + i) && b.txHw[i] == HwAddr(rdmaSize, BUFS + i)
  {
    assert Inside(vaddr, nicSize, 63) ==> forall i :: 0 <= i < 64 ==> Inside(vaddr, nicSize, i);
    assert Inside(vaddr, nicSize, 63) <==> 64 * 65536 <= nicSize;
    if LongSize() > nicSize { return None; }
    var rxVaddr := vaddr;
    var txVaddr := rxVaddr + BUFS * BUF_SIZE;
    var rxSw, rxHw, txSw, txHw := [], [], [], [];
    for i := 0 to BUFS
      invariant |rxSw| == |rxHw| == i
      invariant forall j :: 0 <= j < i ==> rxSw[j] == SwAddr(vaddr, j) && rxHw[j] == HwAddr(rdmaSize, j)
    {
      rxSw := rxSw + [rxVaddr + i * BUF_SIZE];
      rxHw := rxHw + [(rdmaSize + i * BUF_SIZE) % TWO32];
    }
    for i := 0 to BUFS
      invariant |txSw| == |txHw| == i
      invariant forall j :: 0 <= j < i ==>
                  txSw[j] == SwAddr(vaddr, BUFS + j) && txHw[j] == HwAddr(rdmaSize, BUFS + j)
    {
      txSw := txSw + [txVaddr + i * BUF_SIZE];
      txHw := txHw + [(rdmaSize + BUFS * BUF_SIZE + i * BUF_SIZE) % TWO32];
    }
    r := Some(Buffers(rxSw, rxHw, txSw, txHw));
  }

  /** Buffer i, RX buffers first, as the NIC and as the CPU address it. */
  function HwAddr(rdmaSize: nat, i: nat): nat { (rdmaSize + i * BUF_SIZE) % TWO32 }
  function SwAddr(vaddr: nat, i: nat): nat { vaddr + i * BUF_SIZE }

  /**
   When the whole zone is 32-bit addressable the 64 buffers overlap neither for the NIC nor for
   the CPU, lie inside the zone, have room for the largest payload, and have the same offset
   for both.
   */
  lemma BuffersDisjoint(rdmaSize: nat, vaddr: nat, i: nat, j: nat)
    requires i < j < 2 * BUFS && rdmaSize + LongSize() <= TWO32
    ensures HwAddr(rdmaSize, i) + BUF_SIZE <= HwAddr(rdmaSize, j)
    ensures SwAddr(vaddr, i) + BUF_SIZE <= SwAddr(vaddr, j)
    ensures rdmaSize <= HwAddr(rdmaSize, i) && HwAddr(rdmaSize, j) + PAYLOAD_MAX <= rdmaSize + LongSize()
    ensures vaddr <= SwAddr(vaddr, i) && SwAddr(vaddr, j) + PAYLOAD_MAX <= vaddr + LongSize()
    ensures HwAddr(rdmaSize, i) - rdmaSize == SwAddr(vaddr, i) - vaddr
    ensures HwAddr(rdmaSize, j) - rdmaSize == SwAddr(vaddr, j) - vaddr
  {
    assert (i + 1) * BUF_SIZE <= j * BUF_SIZE <= (2 * BUFS - 1) * BUF_SIZE;
  }

  /** 32 bits hold the address of RX buffer i, or as good as: the lookup drops multiples of 2^48. */
  predicate Findable(rdmaSize: nat, i: nat) { (rdmaSize + i * BUF_SIZE) / TWO32 % 0x1_0000 == 0 }

  /**
   The lookup recovers RX buffer i from its hardware address exactly when the buffer is
   findable, and otherwise finds no buffer: never a wrong one, whatever the size of the zone. For
   zones the lookup is made for, findable means that 32 bits hold the address.
   */
  lemma BufferRoundTrip(rdmaSize: nat, i: nat)
    requires i < BUFS
    ensures Findable(rdmaSize, i) ==> Rdma2Buf(HwAddr(rdmaSize, i), rdmaSize) == Some(i)
    ensures !Findable(rdmaSize, i) ==> Rdma2Buf(HwAddr(rdmaSize, i), rdmaSize) == None
    ensures rdmaSize <= ZONE_MAX ==> (Findable(rdmaSize, i) <==> rdmaSize + i * BUF_SIZE < TWO32)
  {
    var j := (rdmaSize + i * BUF_SIZE) / TWO32;
    var r := j % 0x1_0000;
    assert HwAddr(rdmaSize, i) - rdmaSize == i * BUF_SIZE - j * TWO32;
    DropMultiples(i * BUF_SIZE - j * TWO32, i - r * BUF_SIZE, j / 0x1_0000, 0);
    assert (i - r * BUF_SIZE) % TWO32 == if r == 0 then i else TWO32 + i - r * BUF_SIZE;
  }

  /** Dividing the wrapped difference by the buffer size and narrowing it keeps 32 bits of the quotient. */
  lemma DropMultiples(d: int, q: int, k: int, e: nat)
    requires d == BUF_SIZE * q - BUF_SIZE * TWO32 * k + e && e < BUF_SIZE
    ensures d % TWO64 / BUF_SIZE % TWO32 == q % TWO32
  {
    var p := q - TWO32 * k;
    var t := p / 0x1_0000_0000_0000;
    assert d == BUF_SIZE * (p % 0x1_0000_0000_0000) + e + TWO64 * t;
    assert d % TWO64 == BUF_SIZE * (p % 0x1_0000_0000_0000) + e;
    assert p % 0x1_0000_0000_0000 == q - TWO32 * (k + 0x1_0000 * t);
  }

  /** Every RX buffer can be found by its address. */
  ghost predicate Addressable(rdmaSize: nat) {
    forall i: nat :: i < BUFS ==> Findable(rdmaSize, i)
  }

  /** For zones the lookup is made for: the last buffer's address has 32 bits. */
  lemma AddressableMeans(rdmaSize: nat)
    requires rdmaSize <= ZONE_MAX
    ensures Addressable(rdmaSize) <==> rdmaSize + (BUFS - 1) * BUF_SIZE < TWO32
  {
    forall i: nat | i < BUFS ensures Findable(rdmaSize, i) <==> rdmaSize + i * BUF_SIZE < TWO32 {
      BufferRoundTrip(rdmaSize, i);
    }
    assert Findable(rdmaSize, BUFS - 1) <==> rdmaSize + (BUFS - 1) * BUF_SIZE < TWO32;
  }

  /** The buffer an address of the zone was given for, from the distance in 32 bits. */
  function GivenTo(addr: nat, rdmaSize: nat): nat { (addr - rdmaSize) % TWO32 / BUF_SIZE }

  lemma GivenToHw(rdmaSize: nat, i: nat)
    requires i < BUFS
    ensures GivenTo(HwAddr(rdmaSize, i), rdmaSize) == i
  {
    var j := (rdmaSize + i * BUF_SIZE) / TWO32;
    assert HwAddr(rdmaSize, i) - rdmaSize == i * BUF_SIZE - j * TWO32;
    assert (i * BUF_SIZE - j * TWO32) % TWO32 == i * BUF_SIZE;
  }

  /** If the lookup finds a buffer it is the one the address was given for. */
  lemma LookupGives(addr: nat, rdmaSize: nat)
    ensures Rdma2Buf(addr, rdmaSize).Some? ==> Rdma2Buf(addr, rdmaSize).value == GivenTo(addr, rdmaSize)
  {
    var d := addr - rdmaSize;
    DropMultiples(d, d / BUF_SIZE, 0, d % BUF_SIZE);
    LowBits(d);
  }

  lemma LowBits(d: int)
    ensures d % TWO32 / BUF_SIZE == d / BUF_SIZE % TWO32 % 0x1_0000
  {
    var q := d / BUF_SIZE;
    var r, t := q % 0x1_0000, q / 0x1_0000;
    Remainder(d, t, r * BUF_SIZE + d % BUF_SIZE);
    assert q % TWO32 == q - TWO32 * (q / TWO32);
    assert q % TWO32 % 0x1_0000 == r;
  }
}
