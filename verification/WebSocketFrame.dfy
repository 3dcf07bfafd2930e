/**
 The WebSocket frame codec: the client's decoder and encoder, and the wire format of section 5.2
 of RFC 6455 as the reference both are checked against.
 */
module WebSocketFrame {
  import opened Common

  /** An octet; its bit fields are written as quotients and remainders of powers of two. */
  type Byte = b: int | 0 <= b < 256
  type Bytes = seq<Byte>

  predicate TopBit(b: Byte) {
    b >= 128
  }

  function LowSeven(b: Byte): nat {
    b % 128
  }

  function LowFour(b: Byte): nat {
    b % 16
  }

  /** Bits 6, 5 and 4, which stay clear when no extension was negotiated. */
  predicate ReservedSet(b: Byte) {
    b / 16 % 8 != 0
  }

  function Pow2(k: nat): nat {
    if k == 0 then 1 else 2 * Pow2(k - 1)
  }

  /** Exclusive or of two `bits`-bit numbers. */
  function XorBits(a: nat, b: nat, bits: nat): (x: nat)
    ensures x < Pow2(bits)
  {
    if bits == 0 then 0
    else 2 * XorBits(a / 2, b / 2, bits - 1) + (if a % 2 == b % 2 then 0 else 1)
  }

  lemma {:induction false} XorTwice(a: nat, b: nat, bits: nat)
    requires a < Pow2(bits)
    ensures XorBits(XorBits(a, b, bits), b, bits) == a
  {
    if bits > 0 {
      var x, rest := XorBits(a, b, bits), XorBits(a / 2, b / 2, bits - 1);
      assert x / 2 == rest && x % 2 == (if a % 2 == b % 2 then 0 else 1);
      XorTwice(a / 2, b / 2, bits - 1);
    }
  }

  function Bit(n: nat, k: nat): nat {
    if k == 0 then n % 2 else Bit(n / 2, k - 1)
  }

  /** Bit by bit: set exactly where the two differ. */
  lemma {:induction false} XorIsBitwise(a: nat, b: nat, bits: nat, k: nat)
    requires k < bits
    ensures Bit(XorBits(a, b, bits), k) == if Bit(a, k) == Bit(b, k) then 0 else 1
  {
    var x := XorBits(a, b, bits);
    assert x / 2 == XorBits(a / 2, b / 2, bits - 1) && x % 2 == (if a % 2 == b % 2 then 0 else 1);
    if k > 0 {
      XorIsBitwise(a / 2, b / 2, bits - 1, k - 1);
    }
  }

  lemma EightBits()
    ensures Pow2(8) == 256
  {
    assert Pow2(8) == 2 * Pow2(7) == 4 * Pow2(6) == 8 * Pow2(5) == 16 * Pow2(4);
    assert Pow2(4) == 2 * Pow2(3) == 4 * Pow2(2) == 8 * Pow2(1) == 16;
  }

  function Xor(a: Byte, b: Byte): Byte {
    EightBits();
    XorBits(a, b, 8)
  }

  function Flatten(chunks: seq<Bytes>): Bytes {
    if chunks == [] then [] else chunks[0] + Flatten(chunks[1..])
  }

  lemma {:induction false} FlattenAppend(chunks: seq<Bytes>, last: Bytes)
    ensures Flatten(chunks + [last]) == Flatten(chunks) + last
  {
    if chunks == [] {
      assert [last][1..] == [];
      assert last + Flatten([]) == last;
      assert [] + [last] == [last];
    } else {
      assert (chunks + [last])[1..] == chunks[1..] + [last];
      FlattenAppend(chunks[1..], last);
    }
  }

  const TWO_63 := 0x8000_0000_0000_0000
  const TWO_64 := 0x1_0000_0000_0000_0000

  datatype Opcode = Continuation | Text | Binary | Close | Ping | Pong {
    function Code(): (c: Byte)
      ensures c < 16
    {
      match this
      case Continuation => 0x0
      case Text => 0x1
      case Binary => 0x2
      case Close => 0x8
      case Ping => 0x9
      case Pong => 0xA
    }

    predicate IsControl() {
      Close? || Ping? || Pong?
    }
  }

  function OpcodeOf(code: Byte): Option<Opcode> {
    if code == 0x0 then Some(Continuation)
    else if code == 0x1 then Some(Text)
    else if code == 0x2 then Some(Binary)
    else if code == 0x8 then Some(Close)
    else if code == 0x9 then Some(Ping)
    else if code == 0xA then Some(Pong)
    else None
  }

  /** Outcome of a decoder: the source returns no value, throws, or returns a value. */
  datatype Decoded<T> = NeedMore | Rejected | Got(value: T)

  datatype Header = Header(fin: bool, opcode: Opcode, payloadLength: nat, headerSize: nat)

  datatype Frame = Frame(header: Header, payload: Bytes, totalSize: nat)

  function ReadBigEndian16(data: Bytes, offset: nat): (v: nat)
    requires offset + 2 <= |data|
    ensures v < 0x1_0000
  {
    var high: int := data[offset];
    256 * high + data[offset + 1]
  }

  /** The value of `chunks` consecutive 16-bit groups. */
  function ReadChunks(data: Bytes, offset: nat, chunks: nat): nat
    requires offset + 2 * chunks <= |data|
  {
    if chunks == 0 then 0
    else 0x1_0000 * ReadChunks(data, offset, chunks - 1) + ReadBigEndian16(data, offset + 2 * (chunks - 1))
  }

  function ReadBigEndian64(data: Bytes, offset: nat): nat
    requires offset + 8 <= |data|
  {
    ReadChunks(data, offset, 4)
  }

  /** The source's loop: each turn shifts in the next sixteen bits. */
  method AccumulateBigEndian64(data: Bytes, offset: nat) returns (value: nat)
    requires offset + 8 <= |data|
    ensures value == ReadBigEndian64(data, offset)
  {
    value := 0;
    for chunk := 0 to 4
      invariant value == ReadChunks(data, offset, chunk)
    {
      value := 0x1_0000 * value + ReadBigEndian16(data, offset + 2 * chunk);
    }
  }

  function DecodeFrameHeader(data: Bytes): Decoded<Header> {
    if |data| < 2 then NeedMore
    else if ReservedSet(data[0]) then Rejected
    else if TopBit(data[1]) then Rejected
    else
      match OpcodeOf(LowFour(data[0]))
      case None => Rejected
      case Some(opcode) =>
        var fin := TopBit(data[0]);
        var marker := LowSeven(data[1]);
        if marker == 126 then
          if |data| < 4 then NeedMore else Got(Header(fin, opcode, ReadBigEndian16(data, 2), 4))
        else if marker == 127 then
          if |data| < 10 then NeedMore else Got(Header(fin, opcode, ReadBigEndian64(data, 2), 10))
        else Got(Header(fin, opcode, marker, 2))
  }

  /** `string_view::substr`, which stops at the end of the view. */
  function Substr(data: Bytes, from: nat, count: nat): Bytes
    requires from <= |data|
  {
    if from + count <= |data| then data[from..from + count] else data[from..]
  }

  /** The total size is a 64-bit sum, so it wraps. */
  function DecodeFrame(data: Bytes): Decoded<Frame> {
    match DecodeFrameHeader(data)
    case NeedMore => NeedMore
    case Rejected => Rejected
    case Got(header) =>
      HeaderFits(data);
      var total := (header.headerSize + header.payloadLength) % 0x1_0000_0000_0000_0000;
      if |data| < total then NeedMore
      else Got(Frame(header, Substr(data, header.headerSize, header.payloadLength), total))
  }

  lemma HeaderFits(data: Bytes)
    ensures var r := DecodeFrameHeader(data); r.Got? ==> 2 <= r.value.headerSize <= 10 && r.value.headerSize <= |data|
  {
  }

  /**
   A decoded frame takes exactly its header and payload off the buffer if and only if the sum of
   their sizes does not wrap; then it takes at least two bytes.
   */
  lemma FrameConsumesItsBytes(data: Bytes)
    requires DecodeFrame(data).Got?
    ensures var f := DecodeFrame(data).value;
            && (f.totalSize == f.header.headerSize + |f.payload| && |f.payload| == f.header.payloadLength
                <==> f.header.headerSize + f.header.payloadLength < TWO_64)
            && (f.header.payloadLength < TWO_63 ==> 2 <= f.totalSize <= |data| && |f.payload| == f.header.payloadLength)
  {
    HeaderFits(data);
  }

  lemma HeaderIsStable(data: Bytes, more: Bytes)
    requires !DecodeFrameHeader(data).NeedMore?
    ensures DecodeFrameHeader(data + more) == DecodeFrameHeader(data)
  {
    var all := data + more;
    assert all[0] == data[0] && all[1] == data[1];
    if |data| >= 4 {
      assert all[2] == data[2] && all[3] == data[3];
    }
    if |data| >= 10 {
      ReadChunksStable(data, more, 2, 4);
    }
  }

  /**
   More bytes never change a rejection or a header already decoded.  They leave the frame as it
   was exactly when its payload was all there, which it is whenever the size sum does not wrap.
   */
  lemma DecodeIsStable(data: Bytes, more: Bytes)
    requires !DecodeFrame(data).NeedMore?
    ensures DecodeFrame(data).Rejected? ==> DecodeFrame(data + more).Rejected?
    ensures DecodeFrame(data).Got? ==>
              var h := DecodeFrame(data).value.header;
              && DecodeFrame(data + more).Got?
              && DecodeFrame(data + more).value.header == h
              && (DecodeFrame(data + more) == DecodeFrame(data) <==> more == [] || h.headerSize + h.payloadLength <= |data|)
              && (h.headerSize + h.payloadLength < TWO_64 ==> h.headerSize + h.payloadLength <= |data|)
              && (h.payloadLength < TWO_63 ==> DecodeFrame(data + more) == DecodeFrame(data))
  {
    HeaderIsStable(data, more);
    HeaderFits(data);
    if DecodeFrame(data).Got? {
      var h := DecodeFrame(data).value.header;
      var end := h.headerSize + h.payloadLength;
      var all := data + more;
      if end <= |data| {
        assert all[h.headerSize..end] == data[h.headerSize..end];
      } else {
        assert more == [] ==> all == data;
        assert |Substr(all, h.headerSize, h.payloadLength)| > |Substr(data, h.headerSize, h.payloadLength)| || more == [];
      }
    }
  }

  lemma {:induction false} ReadChunksStable(data: Bytes, more: Bytes, offset: nat, chunks: nat)
    requires offset + 2 * chunks <= |data|
    ensures ReadChunks(data + more, offset, chunks) == ReadChunks(data, offset, chunks)
  {
    if chunks > 0 {
      ReadChunksStable(data, more, offset, chunks - 1);
    }
  }

  // ---------- The wire format ----------

  type Key = k: Bytes | |k| == 4 witness [0, 0, 0, 0]

  /** A frame as section 5.2 of RFC 6455 lays it out; a client frame carries a masking key. */
  datatype WireFrame = WireFrame(fin: bool, opcode: Opcode, mask: Option<Key>, payload: Bytes)

  function BigEndian16(n: nat): Bytes
    requires n < 0x1_0000
  {
    [n / 256, n % 256]
  }

  /** The lowest `groups` 16-bit groups of `n`, most significant first. */
  function BigEndian(n: nat, groups: nat): (b: Bytes)
    ensures |b| == 2 * groups
  {
    if groups == 0 then [] else BigEndian(n / 0x1_0000, groups - 1) + BigEndian16(n % 0x1_0000)
  }

  function BigEndian64(n: nat): (b: Bytes)
    requires n < TWO_64
    ensures |b| == 8
  {
    BigEndian(n, 4)
  }

  /** Mask bit and payload length, in the fewest bytes. */
  function LengthField(masked: bool, n: nat): Bytes
    requires n < TWO_63
  {
    var bit := if masked then 0x80 else 0x00;
    if n <= 125 then [bit + n]
    else if n <= 0xFFFF then [bit + 126] + BigEndian16(n)
    else [bit + 127] + BigEndian64(n)
  }

  /** Section 5.3: byte `i` is combined with key byte `i` modulo four; doing it twice undoes it. */
  function Masked(payload: Bytes, key: Key): (m: Bytes)
    ensures |m| == |payload|
    ensures forall i :: 0 <= i < |m| ==> m[i] == Xor(payload[i], key[i % 4])
  {
    seq(|payload|, i requires 0 <= i < |payload| => Xor(payload[i], key[i % 4]))
  }

  function FirstByte(fin: bool, opcode: Opcode): Byte {
    (if fin then 0x80 else 0x00) + opcode.Code()
  }

  ghost predicate Sendable(f: WireFrame) {
    |f.payload| < TWO_63
  }

  lemma BigEndian16RoundTrip(data: Bytes, offset: nat, n: nat)
    requires n < 0x1_0000 && At(data, offset, BigEndian16(n))
    ensures ReadBigEndian16(data, offset) == n
  {
    var part := data[offset..offset + 2];
    assert part[0] == data[offset] && part[1] == data[offset + 1];
  }

  function GroupLimit(groups: nat): nat {
    if groups == 0 then 1 else 0x1_0000 * GroupLimit(groups - 1)
  }

  lemma {:induction false} BigEndianRoundTrip(data: Bytes, offset: nat, n: nat, groups: nat)
    requires n < GroupLimit(groups) && At(data, offset, BigEndian(n, groups))
    ensures ReadChunks(data, offset, groups) == n
  {
    if groups > 0 {
      AtSplit(data, offset, BigEndian(n / 0x1_0000, groups - 1), BigEndian16(n % 0x1_0000));
      BigEndianRoundTrip(data, offset, n / 0x1_0000, groups - 1);
      BigEndian16RoundTrip(data, offset + 2 * (groups - 1), n % 0x1_0000);
    }
  }

  lemma BigEndian64RoundTrip(data: Bytes, offset: nat, n: nat)
    requires n < TWO_64 && At(data, offset, BigEndian64(n))
    ensures ReadBigEndian64(data, offset) == n
  {
    assert GroupLimit(4) == 0x1_0000 * GroupLimit(3) == 0x1_0000_0000 * GroupLimit(2);
    assert GroupLimit(2) == 0x1_0000 * GroupLimit(1) == 0x1_0000_0000;
    BigEndianRoundTrip(data, offset, n, 4);
  }

  /** A length with its top bit set can wrap the sum to zero: the frame then consumes nothing. */
  lemma WrappedFrameConsumesNothing(data: Bytes)
    requires data == [0x81, 0x7F] + BigEndian64(TWO_64 - 10)
    ensures DecodeFrame(data).Got? && DecodeFrame(data).value.totalSize == 0
  {
    assert data[2..10] == BigEndian64(TWO_64 - 10);
    BigEndian64RoundTrip(data, 2, TWO_64 - 10);
    assert DecodeFrameHeader(data) == Got(Header(true, Text, TWO_64 - 10, 10));
  }

  lemma FirstByteFields(fin: bool, opcode: Opcode)
    ensures var b := FirstByte(fin, opcode);
            && !ReservedSet(b)
            && OpcodeOf(LowFour(b)) == Some(opcode)
            && (TopBit(b) <==> fin)
  {
  }

  function HeaderSize(n: nat): nat {
    if n <= 125 then 2 else if n <= 0xFFFF then 4 else 10
  }

  function Marker(n: nat): nat {
    if n <= 125 then n else if n <= 0xFFFF then 126 else 127
  }

  /** The length field starts with the mask bit and the marker; the rest is the extended length. */
  lemma LengthFieldShape(masked: bool, n: nat)
    requires n < TWO_63
    ensures LengthField(masked, n)
            == [(if masked then 0x80 else 0x00) + Marker(n)]
               + (if n <= 125 then [] else if n <= 0xFFFF then BigEndian16(n) else BigEndian64(n))
    ensures |LengthField(masked, n)| == HeaderSize(n) - 1
  {
  }

  /** Mask bit, marker and extended length, read back from the start of a frame. */
  lemma LengthFieldFields(data: Bytes, masked: bool, n: nat)
    requires n < TWO_63 && At(data, 1, LengthField(masked, n))
    ensures |LengthField(masked, n)| == HeaderSize(n) - 1
    ensures (TopBit(data[1]) <==> masked) && LowSeven(data[1]) == Marker(n)
    ensures HeaderSize(n) == 4 ==> ReadBigEndian16(data, 2) == n
    ensures HeaderSize(n) == 10 ==> ReadBigEndian64(data, 2) == n
  {
    LengthFieldShape(masked, n);
    var first := [(if masked then 0x80 else 0x00) + Marker(n)];
    if n <= 125 {
      AtSplit(data, 1, first, []);
    } else if n <= 0xFFFF {
      AtSplit(data, 1, first, BigEndian16(n));
      BigEndian16RoundTrip(data, 2, n);
    } else {
      AtSplit(data, 1, first, BigEndian64(n));
      BigEndian64RoundTrip(data, 2, n);
    }
    assert data[1] == data[1..2][0] == first[0];
  }

  function Head(f: WireFrame): Bytes
    requires |f.payload| < TWO_63
  {
    [FirstByte(f.fin, f.opcode)] + LengthField(f.mask.Some?, |f.payload|)
  }

  function Body(f: WireFrame): Bytes {
    match f.mask
    case None => f.payload
    case Some(key) => key + Masked(f.payload, key)
  }

  function Wire(f: WireFrame): Bytes
    requires |f.payload| < TWO_63
  {
    Head(f) + Body(f)
  }

  /** The first two bytes and the length of a frame that starts with the given head. */
  lemma HeadFields(data: Bytes, f: WireFrame)
    requires Sendable(f) && At(data, 0, Head(f))
    ensures |Head(f)| == HeaderSize(|f.payload|) <= |data|
    ensures !ReservedSet(data[0]) && OpcodeOf(LowFour(data[0])) == Some(f.opcode) && (TopBit(data[0]) <==> f.fin)
    ensures TopBit(data[1]) <==> f.mask.Some?
    ensures var size := HeaderSize(|f.payload|);
            && LowSeven(data[1]) == Marker(|f.payload|)
            && (size == 4 ==> ReadBigEndian16(data, 2) == |f.payload|)
            && (size == 10 ==> ReadBigEndian64(data, 2) == |f.payload|)
  {
    var first, field := [FirstByte(f.fin, f.opcode)], LengthField(f.mask.Some?, |f.payload|);
    AtSplit(data, 0, first, field);
    assert data[0] == data[0..1][0] == first[0];
    FirstByteFields(f.fin, f.opcode);
    LengthFieldFields(data, f.mask.Some?, |f.payload|);
  }

  lemma WireAt(f: WireFrame, rest: Bytes)
    requires Sendable(f)
    ensures At(Wire(f) + rest, 0, Head(f)) && At(Wire(f) + rest, |Head(f)|, Body(f))
    ensures |Wire(f)| == |Head(f)| + |Body(f)|
  {
    var head, body := Head(f), Body(f);
    var data := head + body + rest;
    assert data[0..|head|] == head && data[|head|..|head| + |body|] == body;
  }

  /** A decoded header followed by its payload is a decoded frame. */
  lemma DecodePayload(data: Bytes, h: Header, payload: Bytes)
    requires DecodeFrameHeader(data) == Got(h) && h.payloadLength == |payload| < TWO_63
    requires At(data, h.headerSize, payload)
    ensures DecodeFrame(data) == Got(Frame(h, payload, h.headerSize + |payload|))
  {
    HeaderFits(data);
  }

  lemma DecodeHead(data: Bytes, f: WireFrame)
    requires Sendable(f) && f.mask.None? && At(data, 0, Head(f))
    ensures DecodeFrameHeader(data) == Got(Header(f.fin, f.opcode, |f.payload|, HeaderSize(|f.payload|)))
  {
    HeadFields(data, f);
  }

  lemma DecodeBody(data: Bytes, f: WireFrame)
    requires Sendable(f) && f.mask.None? && At(data, 0, Head(f)) && At(data, |Head(f)|, Body(f))
    ensures |Head(f)| == HeaderSize(|f.payload|)
    ensures DecodeFrame(data)
            == Got(Frame(Header(f.fin, f.opcode, |f.payload|, HeaderSize(|f.payload|)), f.payload, |Head(f)| + |f.payload|))
  {
    HeadFields(data, f);
    DecodeHead(data, f);
    DecodePayload(data, Header(f.fin, f.opcode, |f.payload|, HeaderSize(|f.payload|)), f.payload);
  }

  /** The client decodes every unmasked wire frame to exactly what was sent, whatever follows it. */
  lemma DecodesWireFrame(f: WireFrame, rest: Bytes)
    requires Sendable(f) && f.mask.None?
    ensures |Wire(f)| == HeaderSize(|f.payload|) + |f.payload|
    ensures DecodeFrame(Wire(f) + rest)
            == Got(Frame(Header(f.fin, f.opcode, |f.payload|, HeaderSize(|f.payload|)), f.payload, |Wire(f)|))
  {
    WireAt(f, rest);
    DecodeBody(Wire(f) + rest, f);
  }

  // ---------- The encoder ----------

  /** Two bytes, most significant first. */
  method AppendBigEndian16(out: Bytes, value: nat) returns (r: Bytes)
    requires value < 0x1_0000
    ensures r == out + BigEndian16(value)
  {
    r := out + [value / 256];
    r := r + [value % 256];
  }

  /** `n >> (16 * groups)`. */
  function ShiftedBy(n: nat, groups: nat): nat {
    if groups == 0 then n else ShiftedBy(n, groups - 1) / 0x1_0000
  }

  method AppendBigEndian64(out: Bytes, value: nat) returns (r: Bytes)
    requires value < TWO_64
    ensures r == out + BigEndian64(value)
  {
    r := out;
    for shift := 4 downto 0
      invariant r == out + BigEndian(ShiftedBy(value, shift), 4 - shift)
    {
      r := AppendBigEndian16(r, ShiftedBy(value, shift) % 0x1_0000);
    }
  }

  method AppendLength(out: Bytes, n: nat) returns (r: Bytes)
    requires n < TWO_63
    ensures r == out + LengthField(true, n)
  {
    if n <= 125 {
      r := out + [0x80 + n];
    } else if n <= 0xFFFF {
      r := AppendBigEndian16(out + [0x80 + 126], n);
      assert r == out + ([0x80 + 126] + BigEndian16(n));
    } else {
      r := AppendBigEndian64(out + [0x80 + 127], n);
      assert r == out + ([0x80 + 127] + BigEndian64(n));
    }
  }

  method AppendMasked(out: Bytes, payload: Bytes, key: Key) returns (r: Bytes)
    ensures r == out + Masked(payload, key)
  {
    r := out;
    ghost var masked := Masked(payload, key);
    for i := 0 to |payload|
      invariant r == out + masked[..i]
    {
      r := r + [Xor(payload[i], key[i % 4])];
      assert masked[..i] + [masked[i]] == masked[..i + 1];
    }
    assert masked[..|payload|] == masked;
  }

  /** The client's frame for a payload, with the masking key drawn for it. */
  method EncodeFrame(opcode: Opcode, payload: Bytes, key: Key) returns (frame: Bytes)
    requires |payload| < TWO_63
    ensures frame == Wire(WireFrame(true, opcode, Some(key), payload))
  {
    frame := [0x80 + opcode.Code()];
    frame := AppendLength(frame, |payload|);
    ghost var head := frame;
    frame := frame + key;
    frame := AppendMasked(frame, payload, key);
    assert frame == head + (key + Masked(payload, key));
  }

  // ---------- The server's decoder ----------

  datatype Parsed = Incomplete | Invalid | Parsed(frame: WireFrame, size: nat)

  /** What a server reads at the front of a client's bytes, by sections 5.2 and 5.3. */
  function Parse(data: Bytes): Parsed {
    if |data| < 2 then Incomplete
    else if ReservedSet(data[0]) || OpcodeOf(LowFour(data[0])).None? || !TopBit(data[1]) then Invalid
    else
      var marker := LowSeven(data[1]);
      var size := if marker == 126 then 4 else if marker == 127 then 10 else 2;
      if |data| < size + 4 then Incomplete
      else
        var n := if marker == 126 then ReadBigEndian16(data, 2)
                 else if marker == 127 then ReadBigEndian64(data, 2) else marker;
        var key := data[size..size + 4];
        var end := size + 4 + n;
        if |data| < end then Incomplete
        else
          var opcode := OpcodeOf(LowFour(data[0])).value;
          Parsed(WireFrame(TopBit(data[0]), opcode, Some(key), Masked(data[size + 4..end], key)), end)
  }

  /** Every frame at the front of the bytes, up to the first incomplete or invalid one. */
  function ParseAll(data: Bytes): seq<WireFrame> {
    match Parse(data)
    case Parsed(f, size) => [f] + ParseAll(data[size..])
    case _ => []
  }

  lemma MaskedTwice(payload: Bytes, key: Key)
    ensures Masked(Masked(payload, key), key) == payload
  {
    EightBits();
    forall i | 0 <= i < |payload| ensures Xor(Xor(payload[i], key[i % 4]), key[i % 4]) == payload[i] {
      XorTwice(payload[i], key[i % 4], 8);
    }
  }

  lemma ParseBody(data: Bytes, f: WireFrame)
    requires Sendable(f) && f.mask.Some? && At(data, 0, Head(f)) && At(data, |Head(f)|, Body(f))
    ensures Parse(data) == Parsed(f, |Head(f)| + |Body(f)|)
  {
    HeadFields(data, f);
    AtSplit(data, |Head(f)|, f.mask.value, Masked(f.payload, f.mask.value));
    MaskedTwice(f.payload, f.mask.value);
  }

  /** The server recovers every masked frame exactly, whatever follows it. */
  lemma ServerRecoversFrame(f: WireFrame, rest: Bytes)
    requires Sendable(f) && f.mask.Some?
    ensures Parse(Wire(f) + rest) == Parsed(f, |Wire(f)|)
  {
    WireAt(f, rest);
    ParseBody(Wire(f) + rest, f);
  }

  ghost predicate AllMasked(fs: seq<WireFrame>) {
    forall i :: 0 <= i < |fs| ==> Sendable(fs[i]) && fs[i].mask.Some?
  }

  function WireAll(fs: seq<WireFrame>): Bytes
    requires forall i :: 0 <= i < |fs| ==> |fs[i].payload| < TWO_63
  {
    if fs == [] then [] else Wire(fs[0]) + WireAll(fs[1..])
  }

  lemma ParseAllStep(first: Bytes, rest: Bytes, f: WireFrame)
    requires Parse(first + rest) == Parsed(f, |first|)
    ensures ParseAll(first + rest) == [f] + ParseAll(rest)
  {
    assert (first + rest)[|first|..] == rest;
  }

  /** `chunks` are the encodings of `fs`. */
  ghost predicate Encodings(chunks: seq<Bytes>, fs: seq<WireFrame>) {
    |chunks| == |fs| && forall i :: 0 <= i < |fs| ==> Sendable(fs[i]) && chunks[i] == Wire(fs[i])
  }

  lemma {:induction false} FlattenEncodings(chunks: seq<Bytes>, fs: seq<WireFrame>)
    requires Encodings(chunks, fs)
    ensures Flatten(chunks) == WireAll(fs)
  {
    if fs != [] {
      FlattenEncodings(chunks[1..], fs[1..]);
    }
  }

  /** A server reads back a whole sequence of client frames. */
  lemma {:induction false} ServerRecoversAll(fs: seq<WireFrame>)
    requires AllMasked(fs)
    ensures ParseAll(WireAll(fs)) == fs
  {
    if fs != [] {
      var first, rest := Wire(fs[0]), WireAll(fs[1..]);
      ServerRecoversFrame(fs[0], rest);
      ServerRecoversAll(fs[1..]);
      ParseAllStep(first, rest, fs[0]);
    }
  }

  lemma ParseIsStable(data: Bytes, more: Bytes)
    requires Parse(data).Parsed?
    ensures Parse(data + more) == Parse(data)
  {
    var all := data + more;
    assert forall i :: 0 <= i < |data| ==> all[i] == data[i];
    var size := Parse(data).size;
    if |data| >= 10 {
      ReadChunksStable(data, more, 2, 4);
    }
    assert forall i, j :: 0 <= i <= j <= |data| ==> all[i..j] == data[i..j];
  }

  /** Bytes that have arrived so far give a prefix of the frames, in order and whole. */
  lemma {:induction false} ParsePrefix(data: Bytes, more: Bytes)
    ensures ParseAll(data) <= ParseAll(data + more)
    decreases |data|
  {
    if Parse(data).Parsed? {
      ParseIsStable(data, more);
      var size := Parse(data).size;
      assert (data + more)[size..] == data[size..] + more;
      ParsePrefix(data[size..], more);
    }
  }
}
