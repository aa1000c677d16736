/**
 RAW messages on their way through the FIFO: gathering the payload from the sender's iovec,
 framing header and payload into 64-bit words, reading them back, scattering to the receiver's
 iovec.
 */
module RawFraming {
  import opened Axiom

  type Byte = b: int | 0 <= b < 256
  /** A 64-bit FIFO word. */
  type Word = w: int | 0 <= w < 0x1_0000_0000_0000_0000

  const HEADER_SIZE: nat := 5
  const PAYLOAD_BUF: nat := 251
  const MSG_SIZE: nat := 256

  /** The five header bytes: port/type, destination (source on receipt), id, payload size, padding. */
  datatype Header = Header(portType: Byte, node: Byte, msgId: Byte, payloadSize: Byte, padding: Byte)

  function HeaderBytes(h: Header): seq<Byte> { [h.portType, h.node, h.msgId, h.payloadSize, h.padding] }

  function ParseHeader(m: seq<Byte>): Header
    requires |m| >= HEADER_SIZE
  {
    Header(m[0], m[1], m[2], m[3], m[4])
  }

  /** The header as sent: the s and error bits (the two high bits of port/type) cleared, an id assigned. */
  function Outgoing(h: Header, id: Byte): Header { h.(portType := h.portType % 64, msgId := id) }

  // ---------------------------------------------------------------- words

  /** Little-endian value of some bytes. */
  function Load(bs: seq<Byte>): (w: nat)
    ensures w < Pow256(|bs|)
  {
    if bs == [] then 0 else bs[0] + 256 * Load(bs[1..])
  }

  function Pow256(n: nat): nat { if n == 0 then 1 else 256 * Pow256(n - 1) }

  function Store(w: nat, n: nat): (bs: seq<Byte>)
    ensures |bs| == n
  {
    if n == 0 then [] else [w % 256] + Store(w / 256, n - 1)
  }

  lemma {:induction false} StoreLoad(bs: seq<Byte>)
    ensures Store(Load(bs), |bs|) == bs
  {
    if bs != [] {
      StoreLoad(bs[1..]);
      assert Load(bs) / 256 == Load(bs[1..]);
      assert bs == [bs[0]] + bs[1..];
    }
  }

  /** Byte i of a word, least significant first: what the NIC puts on the wire i-th. */
  function ByteOf(w: nat, i: nat): nat { PowPositive(i); w / Pow256(i) % 256 }

  lemma {:induction false} PowPositive(n: nat)
    ensures Pow256(n) > 0
  {
    if n > 0 { PowPositive(n - 1); }
  }

  lemma {:induction false} MultipleIsLarge(d: nat, e: nat)
    requires e >= 1
    ensures d * e >= d
  {}

  lemma DivUnique(x: nat, d: nat, q: nat, r: nat)
    requires x == d * q + r && r < d
    ensures x / d == q
  {
    var t, m := x / d, x % d;
    assert x == d * t + m;
    if t > q { MultipleIsLarge(d, t - q); }
    if t < q { MultipleIsLarge(d, q - t); }
    assert d * (t - q) == d * t - d * q;
    assert d * (q - t) == d * q - d * t;
  }

  lemma DivNested(b: nat, rest: nat, p: nat)
    requires b < 256 && p > 0
    ensures (b + 256 * rest) / (256 * p) == rest / p
  {
    var d, q, r := 256 * p, rest / p, rest % p;
    assert rest == p * q + r;
    assert d * q == 256 * (p * q);
    DivUnique(b + 256 * rest, d, q, 256 * r + b);
  }

  lemma ByteOfRest(b: nat, rest: nat, i: nat)
    requires b < 256
    ensures ByteOf(b + 256 * rest, 0) == b && ByteOf(b + 256 * rest, i + 1) == ByteOf(rest, i)
  {
    PowPositive(i);
    DivNested(b, rest, Pow256(i));
  }

  /** The i-th byte in memory is the i-th of the word loaded, counted from the least significant. */
  lemma {:induction false} LoadByte(bs: seq<Byte>, i: nat)
    requires i < |bs|
    ensures ByteOf(Load(bs), i) == bs[i]
  {
    if i > 0 { LoadByte(bs[1..], i - 1); }
    ByteOfRest(bs[0], Load(bs[1..]), if i > 0 then i - 1 else 0);
  }

  lemma {:induction false} StoreByte(w: nat, n: nat, i: nat)
    requires i < n
    ensures Store(w, n)[i] == ByteOf(w, i)
  {
    if i > 0 { StoreByte(w / 256, n - 1, i - 1); }
    ByteOfRest(w % 256, w / 256, if i > 0 then i - 1 else 0);
  }

  type Chunk = c: seq<Byte> | |c| == 8 witness [0, 0, 0, 0, 0, 0, 0, 0]

  /** The eight bytes of a word in memory. */
  function Bytes(w: Word): Chunk { Store(w, 8) }

  function Read64(m: seq<Byte>, at: nat): Word
    requires at + 8 <= |m|
  {
    assert Pow256(8) == 0x1_0000_0000_0000_0000;
    Load(m[at..at + 8])
  }

  function Overwrite(m: seq<Byte>, at: nat, c: Chunk): (r: seq<Byte>)
    requires at + 8 <= |m|
    ensures |r| == |m|
  {
    m[..at] + c + m[at + 8..]
  }

  lemma BytesOfRead(m: seq<Byte>, at: nat)
    requires at + 8 <= |m|
    ensures Bytes(Read64(m, at)) == m[at..at + 8]
  {
    StoreLoad(m[at..at + 8]);
  }

  function Join(cs: seq<Chunk>): (m: seq<Byte>)
    ensures |m| == 8 * |cs|
  {
    if cs == [] then [] else Join(cs[..|cs| - 1]) + cs[|cs| - 1]
  }

  lemma {:induction false} JoinAt(cs: seq<Chunk>, n: nat)
    requires n < 8 * |cs|
    ensures Join(cs)[n] == cs[n / 8][n % 8]
    decreases |cs|
  {
    if n < 8 * (|cs| - 1) { JoinAt(cs[..|cs| - 1], n); }
  }

  lemma JoinSnoc(cs: seq<Chunk>, c: Chunk)
    ensures Join(cs + [c]) == Join(cs) + c
  {}

  // ---------------------------------------------------------------- framing

  /** Words that carry a payload of n bytes: three travel with the header, none lies past the buffer. */
  function WordCount(n: nat): nat {
    if n <= 3 then 1 else if n > PAYLOAD_BUF then 32 else 1 + (n - 3 + 7) / 8
  }

  /** The k-th word is bytes 8k to 8k+7 of the message. */
  function Words(m: seq<Byte>, count: nat): (ws: seq<Word>)
    requires 8 * count <= |m|
    ensures |ws| == count
  {
    seq(count, k requires 0 <= k < count => Read64(m, 8 * k))
  }

  /** Byte n of what the words carry. */
  function WireByte(words: seq<Word>, n: nat): nat
    requires n < 8 * |words|
  {
    ByteOf(words[n / 8], n % 8)
  }

  lemma WordsByte(m: seq<Byte>, count: nat, n: nat)
    requires 8 * count <= |m| && n < 8 * count
    ensures WireByte(Words(m, count), n) == m[n]
  {
    var k := n / 8;
    LoadByte(m[8 * k..8 * k + 8], n % 8);
  }

  /** `axiom_hw_raw_tx`: the words pushed to the FIFO and the length written after them. */
  method RawTx(m: seq<Byte>, nextId: Byte) returns (msg: seq<Byte>, words: seq<Word>, len: nat, id: Byte)
    requires |m| == MSG_SIZE
    ensures msg == m[0 := m[0] % 128][2 := nextId]
    ensures words == Words(msg, WordCount(m[3])) && len == 8 * |words| && id == (nextId + 1) % 256
    ensures 8 * |words| <= MSG_SIZE && forall n :: 0 <= n < 8 * |words| ==> WireByte(words, n) == msg[n]
  {
    msg := m[0 := m[0] % 128];
    msg := msg[2 := nextId];
    id := (nextId + 1) % 256;
    var payloadSize := msg[3];
    words := [Read64(msg, 0)];
    len := 8;
    var i := 3;
    while i < payloadSize && i < PAYLOAD_BUF
      invariant 3 <= i <= 258 && (i - 3) % 8 == 0 && (i == 3 || i - 8 < payloadSize)
      invariant len == 8 * |words| && |words| == 1 + (i - 3) / 8
      invariant 8 * |words| <= MSG_SIZE && words == Words(msg, |words|)
      decreases 258 - i
    {
      assert HEADER_SIZE + i == 8 * |words|;
      words := words + [Read64(msg, HEADER_SIZE + i)];
      len := len + 8;
      i := i + 8;
    }
    forall n | 0 <= n < 8 * |words| ensures WireByte(words, n) == msg[n] {
      WordsByte(msg, |words|, n);
    }
  }

  /** `axiom_hw_raw_rx`: fills `m` with the first message of the FIFO, `len` bytes. */
  method RawRx(m: seq<Byte>, words: seq<Word>, len: nat) returns (msg: seq<Byte>)
    requires |m| == MSG_SIZE && len == 8 * |words| && 8 <= len <= MSG_SIZE
    ensures msg == Join(Chunks(words)) + m[len..]
    ensures |msg| == MSG_SIZE
    ensures forall n :: 0 <= n < MSG_SIZE ==> msg[n] == if n < len then WireByte(words, n) else m[n]
  {
    var total := len;
    msg := Overwrite(m, 0, Bytes(words[0]));
    total := total - 8;
    var i := 3;
    var k := 1;  // words read
    assert words[..1] == [] + [words[0]];
    ChunksSnoc([], words[0]);
    while total > 0
      invariant 1 <= k <= |words| && HEADER_SIZE + i == 8 * k && total == len - 8 * k
      invariant msg == Join(Chunks(words[..k])) + m[8 * k..]
    {
      assert words[..k + 1] == words[..k] + [words[k]];
      ChunksSnoc(words[..k], words[k]);
      OverwriteNext(Join(Chunks(words[..k])), m, Bytes(words[k]));
      msg := Overwrite(msg, HEADER_SIZE + i, Bytes(words[k]));
      total := total - 8;
      i := i + 8;
      k := k + 1;
    }
    assert words[..k] == words;
    forall n | 0 <= n < len ensures msg[n] == WireByte(words, n) {
      JoinAt(Chunks(words), n);
      StoreByte(words[n / 8], 8, n % 8);
    }
  }

  lemma OverwriteNext(done: seq<Byte>, m: seq<Byte>, c: Chunk)
    requires |done| + 8 <= |m|
    ensures Overwrite(done + m[|done|..], |done|, c) == done + c + m[|done| + 8..]
  {}

  function Chunks(words: seq<Word>): (cs: seq<Chunk>)
    ensures |cs| == |words|
  {
    seq(|words|, k requires 0 <= k < |words| => Bytes(words[k]))
  }

  lemma ChunksSnoc(ws: seq<Word>, w: Word)
    ensures Join(Chunks(ws + [w])) == Join(Chunks(ws)) + Bytes(w)
  {
    assert Chunks(ws + [w]) == Chunks(ws) + [Bytes(w)];
    JoinSnoc(Chunks(ws), Bytes(w));
  }

  lemma {:induction false} JoinSlices(m: seq<Byte>, cs: seq<Chunk>)
    requires 8 * |cs| <= |m| && forall k :: 0 <= k < |cs| ==> cs[k] == m[8 * k..8 * k + 8]
    ensures Join(cs) == m[..8 * |cs|]
    decreases |cs|
  {
    if cs != [] {
      var at := 8 * (|cs| - 1);
      JoinSlices(m, cs[..|cs| - 1]);
      assert m[..at + 8] == m[..at] + m[at..at + 8];
    }
  }

  /** Reading the words back gives the bytes they were made from. */
  lemma UnframeWords(m: seq<Byte>, count: nat)
    requires 8 * count <= |m|
    ensures Join(Chunks(Words(m, count))) == m[..8 * count]
  {
    var cs := Chunks(Words(m, count));
    forall k | 0 <= k < |cs| ensures cs[k] == m[8 * k..8 * k + 8] {
      BytesOfRead(m, 8 * k);
    }
    JoinSlices(m, cs);
  }

  // ---------------------------------------------------------------- iovecs

  function Flatten(iov: seq<seq<Byte>>): seq<Byte> {
    if iov == [] then [] else Flatten(iov[..|iov| - 1]) + iov[|iov| - 1]
  }

  function Sum(caps: seq<nat>): nat {
    if caps == [] then 0 else Sum(caps[..|caps| - 1]) + caps[|caps| - 1]
  }

  /** The bytes of piece i come after those of the pieces before it, in order. */
  lemma {:induction false} FlattenAt(iov: seq<seq<Byte>>, i: nat, j: nat)
    requires i < |iov| && j < |iov[i]|
    ensures |Flatten(iov[..i])| + j < |Flatten(iov)| && Flatten(iov)[|Flatten(iov[..i])| + j] == iov[i][j]
    decreases |iov|
  {
    if i < |iov| - 1 {
      FlattenAt(iov[..|iov| - 1], i, j);
      assert iov[..|iov| - 1][..i] == iov[..i];
    }
  }

  lemma {:induction false} FlattenPrefix(iov: seq<seq<Byte>>, i: nat)
    requires i <= |iov|
    ensures |Flatten(iov[..i])| <= |Flatten(iov)|
    decreases |iov|
  {
    if i < |iov| {
      FlattenPrefix(iov[..|iov| - 1], i);
      assert iov[..|iov| - 1][..i] == iov[..i];
    } else {
      assert iov[..i] == iov;
    }
  }

  lemma {:induction false} SumPrefix(caps: seq<nat>, i: nat)
    requires i <= |caps|
    ensures Sum(caps[..i]) <= Sum(caps)
    decreases |caps|
  {
    if i < |caps| {
      SumPrefix(caps[..|caps| - 1], i);
      assert caps[..|caps| - 1][..i] == caps[..i];
    } else {
      assert caps[..i] == caps;
    }
  }

  /** The gather loop of axiomnet_raw_send, over whatever the payload buffer held before. None is -EFBIG. */
  method Gather(buf: seq<Byte>, iov: seq<seq<Byte>>, payloadSize: nat) returns (r: Option<seq<Byte>>)
    requires payloadSize <= |buf|
    ensures r.None? <==> |Flatten(iov)| > payloadSize
    ensures r.Some? ==> r.value == Flatten(iov) + buf[|Flatten(iov)|..]
  {
    var payload, offset := buf, 0;
    var i := 0;
    while i < |iov|
      invariant 0 <= i <= |iov| && offset == |Flatten(iov[..i])| <= payloadSize
      invariant payload == Flatten(iov[..i]) + buf[offset..]
    {
      var copied := |iov[i]|;
      assert iov[..i + 1][..i] == iov[..i];
      if copied + offset > payloadSize {
        FlattenPrefix(iov, i + 1);
        return None;
      }
      payload := payload[..offset] + iov[i] + payload[offset + copied..];
      offset := offset + copied;
      i := i + 1;
    }
    assert iov[..i] == iov;
    r := Some(payload);
  }

  /** The scatter loop of axiomnet_raw_recv: what each of the receiver's buffers gets. */
  method Scatter(payload: seq<Byte>, size: nat, caps: seq<nat>) returns (out: seq<seq<Byte>>)
    requires size <= |payload|
    ensures |out| <= |caps| && forall j :: 0 <= j < |out| ==> |out[j]| <= caps[j]
    ensures forall j :: 0 <= j < |out| - 1 ==> |out[j]| == caps[j]
    ensures Flatten(out) == payload[..if Sum(caps) < size then Sum(caps) else size]
  {
    out := [];
    var i, offset := 0, 0;
    while i < |caps| && offset < size
      invariant 0 <= i <= |caps| && |out| == i
      invariant offset == (if Sum(caps[..i]) < size then Sum(caps[..i]) else size)
      invariant Flatten(out) == payload[..offset]
      invariant forall j :: 0 <= j < i ==> |out[j]| <= caps[j]
      invariant forall j :: 0 <= j < i - 1 || (0 <= j == i - 1 && offset < size) ==> |out[j]| == caps[j]
    {
      var copied := if caps[i] < size - offset then caps[i] else size - offset;
      assert caps[..i + 1][..i] == caps[..i];
      var piece := payload[offset..offset + copied];
      assert (out + [piece])[..i] == out;
      assert payload[..offset] + piece == payload[..offset + copied];
      out := out + [piece];
      offset := offset + copied;
      i := i + 1;
    }
    SumPrefix(caps, i);
    if i == |caps| { assert caps[..i] == caps; }
  }

  // ---------------------------------------------------------------- end to end

  datatype Received = Received(header: Header, out: seq<seq<Byte>>)

  /**
   `axiomnet_raw_send`: what goes through the FIFO, nothing if the pieces do not fit (-EFBIG).
   `stack` is what the sender's payload buffer held.
   */
  method Send(h: Header, iov: seq<seq<Byte>>, stack: seq<Byte>, nextId: Byte) returns (wire: seq<Word>)
    requires |stack| == PAYLOAD_BUF
    ensures wire == [] <==> h.payloadSize > PAYLOAD_BUF || |Flatten(iov)| > h.payloadSize
    ensures wire != [] ==> OnWire(wire, h, nextId, Payload(iov, stack))
  {
    if h.payloadSize > PAYLOAD_BUF { return []; }
    var gathered := Gather(stack, iov, h.payloadSize);
    if gathered.None? { return []; }
    var payload := gathered.value;
    var sent := HeaderBytes(h.(portType := h.portType % 64)) + payload;
    var onWire, words, len, id := RawTx(sent, nextId);
    wire := words;
    FramedLength(h.payloadSize);
    OnWireMeans(h, nextId, payload, onWire, wire);
  }

  /**
   `axiomnet_raw_recv` of a message of these words: None, -EFBIG, exactly if the receiver allows
   less than its payload size. `slot` is what the receiver's message held.
   */
  method Receive(slot: seq<Byte>, wire: seq<Word>, maxSize: Byte, caps: seq<nat>) returns (r: Option<Received>)
    requires |slot| == MSG_SIZE && 1 <= |wire| <= 32 && HEADER_SIZE + WireByte(wire, 3) <= 8 * |wire|
    ensures r.None? <==> maxSize < WireByte(wire, 3)
    ensures r.Some? ==> WireHeader(wire, r.value.header)
    ensures r.Some? ==> |r.value.out| <= |caps| && forall j :: 0 <= j < |r.value.out| ==> |r.value.out[j]| <= caps[j]
    ensures r.Some? ==> forall j :: 0 <= j < |r.value.out| - 1 ==> |r.value.out[j]| == caps[j]
    ensures r.Some? ==> WirePayload(wire, Flatten(r.value.out), Min(Sum(caps), WireByte(wire, 3)))
  {
    var msg := RawRx(slot, wire, 8 * |wire|);
    hide WireByte;
    var header := ParseHeader(msg);
    if maxSize < header.payloadSize { return None; }
    var out := Scatter(msg[HEADER_SIZE..], header.payloadSize, caps);
    r := Some(Received(header, out));
  }

  ghost predicate WireHeader(wire: seq<Word>, h: Header)
    requires wire != []
  {
    && h.portType == WireByte(wire, 0) && h.node == WireByte(wire, 1) && h.msgId == WireByte(wire, 2)
    && h.payloadSize == WireByte(wire, 3) && h.padding == WireByte(wire, 4)
  }

  ghost predicate WirePayload(wire: seq<Word>, bytes: seq<Byte>, n: nat)
    requires HEADER_SIZE + n <= 8 * |wire|
  {
    |bytes| == n && forall j :: 0 <= j < n ==> bytes[j] == WireByte(wire, 5 + j)
  }

  /**
   A message sent and received, the FIFO carrying the words unchanged. None is the error -EFBIG
   of either side. The receiver's pieces get the payload, each full before the next, as far as
   they reach.
   */
  method SendAndReceive(h: Header, iov: seq<seq<Byte>>, stack: seq<Byte>, nextId: Byte,
                        slot: seq<Byte>, maxSize: Byte, caps: seq<nat>)
    returns (r: Option<Received>)
    requires |stack| == PAYLOAD_BUF && |slot| == MSG_SIZE
    ensures r.Some? <==> h.payloadSize <= PAYLOAD_BUF && |Flatten(iov)| <= h.payloadSize <= maxSize
    ensures r.Some? ==> r.value.header == Outgoing(h, nextId) && SameHeader(h, r.value.header, nextId)
    ensures r.Some? ==> |r.value.out| <= |caps| && forall j :: 0 <= j < |r.value.out| ==> |r.value.out[j]| <= caps[j]
    ensures r.Some? && |Flatten(iov)| == h.payloadSize <= Sum(caps) ==> Flatten(r.value.out) == Flatten(iov)
    ensures r.Some? ==> Flatten(r.value.out) == Payload(iov, stack)[..Min(Sum(caps), h.payloadSize)]
    ensures r.Some? ==> forall j :: 0 <= j < |r.value.out| - 1 ==> |r.value.out[j]| == caps[j]
  {
    var wire := Send(h, iov, stack, nextId);
    if wire == [] { return None; }
    r := Receive(slot, wire, maxSize, caps);
    if r.Some? {
      var payload, n := Payload(iov, stack), Min(Sum(caps), h.payloadSize);
      SameMessage(wire, h, nextId, payload, r.value.header, Flatten(r.value.out), n);
    }
  }

  /** What was put on the wire is what is taken off it. */
  lemma SameMessage(wire: seq<Word>, h: Header, id: Byte, payload: seq<Byte>, r: Header, bytes: seq<Byte>, n: nat)
    requires wire != [] && OnWire(wire, h, id, payload) && WireHeader(wire, r)
    requires n <= h.payloadSize && WirePayload(wire, bytes, n)
    ensures r == Outgoing(h, id) && SameHeader(h, r, id) && bytes == payload[..n]
  {
    hide WireByte;
    LowSix(h.portType, r.portType);
  }

  lemma LowSix(a: Byte, b: Byte)
    requires b < 64 && (a - b) % 64 == 0
    ensures b == a % 64
  {}

  function Min(a: nat, b: nat): nat { if a < b then a else b }

  /** What is sent: the sender's pieces, and after them what its payload buffer held. */
  function Payload(iov: seq<seq<Byte>>, stack: seq<Byte>): (p: seq<Byte>)
    ensures |Flatten(iov)| <= |stack| ==> |p| == |stack|
  {
    if |Flatten(iov)| <= |stack| then Flatten(iov) + stack[|Flatten(iov)|..] else []
  }

  /** Only the id and the two high bits of port/type, now clear, may differ. */
  ghost predicate SameHeader(h: Header, r: Header, id: Byte) {
    && r.portType < 64 && (h.portType - r.portType) % 64 == 0 && r.msgId == id
    && r.node == h.node && r.payloadSize == h.payloadSize && r.padding == h.padding
  }

  /** The words carry the five header bytes, in their order, and then the payload. */
  ghost predicate OnWire(wire: seq<Word>, h: Header, id: Byte, payload: seq<Byte>) {
    && HEADER_SIZE + h.payloadSize <= 8 * |wire| <= HEADER_SIZE + h.payloadSize + 7
    && WireByte(wire, 0) < 64 && (h.portType - WireByte(wire, 0)) % 64 == 0
    && WireByte(wire, 1) == h.node && WireByte(wire, 2) == id
    && WireByte(wire, 3) == h.payloadSize && WireByte(wire, 4) == h.padding
    && h.payloadSize <= |payload|
    && forall j :: 0 <= j < h.payloadSize ==> WireByte(wire, 5 + j) == payload[j]
  }

  lemma OnWireMeans(h: Header, id: Byte, payload: seq<Byte>, onWire: seq<Byte>, wire: seq<Word>)
    requires |payload| == PAYLOAD_BUF && h.payloadSize <= PAYLOAD_BUF && |wire| == WordCount(h.payloadSize)
    requires 8 * |wire| <= |onWire| && forall n :: 0 <= n < 8 * |wire| ==> WireByte(wire, n) == onWire[n]
    requires onWire == (HeaderBytes(h.(portType := h.portType % 64)) + payload)[0 := h.portType % 64][2 := id]
    ensures OnWire(wire, h, id, payload)
  {
    hide WireByte;
    FramedLength(h.payloadSize);
    assert forall j :: 0 <= j < h.payloadSize ==> onWire[5 + j] == payload[j];
  }

  /** The framed length is a multiple of 8 between 8 and 256 and covers header and payload. */
  lemma FramedLength(n: nat)
    ensures n <= PAYLOAD_BUF ==>
              8 <= 8 * WordCount(n) <= MSG_SIZE && HEADER_SIZE + n <= 8 * WordCount(n) <= HEADER_SIZE + n + 7
    ensures n > PAYLOAD_BUF ==> 8 * WordCount(n) == MSG_SIZE
  {}
}
