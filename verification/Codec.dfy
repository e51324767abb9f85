/** Big-endian field layouts: packet header and control payloads, encoded and decoded. */
module Codec {
  import opened Types

  // ---------------------------------------------------------------- unsigned integers

  function Pow256(width: nat): nat {
    if width == 0 then 1 else 256 * Pow256(width - 1)
  }

  lemma PowValues()
    ensures Pow256(1) == 0x100 && Pow256(2) == 0x1_0000
    ensures Pow256(4) == 0x1_0000_0000 && Pow256(8) == 0x1_0000_0000_0000_0000
  {
    assert Pow256(3) == 256 * Pow256(2);
    assert Pow256(5) == 256 * Pow256(4);
    assert Pow256(6) == 256 * Pow256(5);
    assert Pow256(7) == 256 * Pow256(6);
  }

  function BigEndian(value: nat, width: nat): (r: seq<Byte>)
    ensures |r| == width
  {
    if width == 0 then [] else BigEndian(value / 256, width - 1) + [value % 256]
  }

  function FromBigEndian(bytes: seq<Byte>): nat {
    if bytes == [] then 0
    else FromBigEndian(bytes[..|bytes| - 1]) * 256 + bytes[|bytes| - 1]
  }

  lemma {:induction false} ReadWritten(value: nat, width: nat)
    requires value < Pow256(width)
    ensures FromBigEndian(BigEndian(value, width)) == value
  {
    if width > 0 {
      ReadWritten(value / 256, width - 1);
      assert BigEndian(value, width)[..width - 1] == BigEndian(value / 256, width - 1);
    }
  }

  lemma {:induction false} WrittenRead(bytes: seq<Byte>)
    ensures FromBigEndian(bytes) < Pow256(|bytes|)
    ensures BigEndian(FromBigEndian(bytes), |bytes|) == bytes
  {
    if bytes != [] {
      WrittenRead(bytes[..|bytes| - 1]);
    }
  }

  /** Byte `k` of the encoding is the value shifted right and truncated. */
  lemma {:induction false} BigEndianByte(value: nat, width: nat, k: nat)
    requires k < width
    ensures Pow256(width - 1 - k) > 0
    ensures BigEndian(value, width)[k] == value / Pow256(width - 1 - k) % 256
  {
    PowPositive(width - 1 - k);
    if k < width - 1 {
      BigEndianByte(value / 256, width - 1, k);
      DivDiv(value, Pow256(width - 2 - k));
    }
  }

  lemma {:induction false} PowPositive(width: nat)
    ensures Pow256(width) > 0
  {
    if width > 0 {
      PowPositive(width - 1);
    }
  }

  lemma DivDiv(value: nat, p: nat)
    requires p > 0
    ensures value / 256 / p == value / (256 * p)
  {
    var a := value / 256;
    var q := a / p;
    assert value == 256 * a + value % 256;
    assert a == q * p + a % p;
    var rest := value - (256 * p) * q;
    assert rest == 256 * (a % p) + value % 256;
    assert 0 <= rest < 256 * p;
    QuotientUnique(value, 256 * p, q, rest);
  }

  lemma QuotientUnique(value: nat, d: nat, q: nat, rest: nat)
    requires d > 0 && value == d * q + rest && rest < d
    ensures value / d == q
  {
    var e := value / d;
    assert value == d * e + value % d;
    assert e < q ==> d * (e + 1) <= d * q;
    assert q < e ==> d * (q + 1) <= d * e;
  }

  // ---------------------------------------------------------------- sequences of fields

  function Width(layout: seq<nat>): nat {
    if layout == [] then 0 else Width(layout[..|layout| - 1]) + layout[|layout| - 1]
  }

  /** Fields of the given widths, one after the other. */
  function EncodeFields(values: seq<nat>, layout: seq<nat>): (r: seq<Byte>)
    requires |values| == |layout|
    ensures |r| == Width(layout)
  {
    if layout == [] then []
    else
      var n := |layout| - 1;
      EncodeFields(values[..n], layout[..n]) + BigEndian(values[n], layout[n])
  }

  function DecodeFields(bytes: seq<Byte>, layout: seq<nat>): (r: seq<nat>)
    requires |bytes| == Width(layout)
    ensures |r| == |layout|
    ensures forall k: nat | k < |layout| :: r[k] < Pow256(layout[k])
    decreases |layout|
  {
    if layout == [] then []
    else
      var n := |layout| - 1;
      var cut := Width(layout[..n]);
      WrittenRead(bytes[cut..]);
      DecodeFields(bytes[..cut], layout[..n]) + [FromBigEndian(bytes[cut..])]
  }

  ghost predicate Fits(values: seq<nat>, layout: seq<nat>) {
    |values| == |layout| && forall k: nat | k < |layout| :: values[k] < Pow256(layout[k])
  }

  lemma {:induction false} FieldsRoundTrip(values: seq<nat>, layout: seq<nat>)
    requires Fits(values, layout)
    ensures DecodeFields(EncodeFields(values, layout), layout) == values
  {
    if layout != [] {
      var n := |layout| - 1;
      var bytes := EncodeFields(values, layout);
      var cut := Width(layout[..n]);
      assert bytes[..cut] == EncodeFields(values[..n], layout[..n]);
      assert bytes[cut..] == BigEndian(values[n], layout[n]);
      FieldsRoundTrip(values[..n], layout[..n]);
      ReadWritten(values[n], layout[n]);
    }
  }

  lemma {:induction false} FieldsReproduce(bytes: seq<Byte>, layout: seq<nat>)
    requires |bytes| == Width(layout)
    ensures EncodeFields(DecodeFields(bytes, layout), layout) == bytes
    decreases |layout|
  {
    if layout != [] {
      var n := |layout| - 1;
      var cut := Width(layout[..n]);
      FieldsReproduce(bytes[..cut], layout[..n]);
      WrittenRead(bytes[cut..]);
      var values := DecodeFields(bytes, layout);
      assert values[..n] == DecodeFields(bytes[..cut], layout[..n]);
      assert bytes == bytes[..cut] + bytes[cut..];
    }
  }

  // ---------------------------------------------------------------- packets

  datatype PacketType = START | START_ACK | DATA | ACK | COMPLETE | COMPLETE_ACK | ERROR

  function TypeCode(t: PacketType): Byte {
    match t
    case START => 1
    case START_ACK => 2
    case DATA => 3
    case ACK => 4
    case COMPLETE => 5
    case COMPLETE_ACK => 6
    case ERROR => 7
  }

  function TypeOf(code: nat): (r: Option<PacketType>)
    ensures r.Some? <==> 1 <= code <= 7
    ensures r.Some? ==> TypeCode(r.value) == code
  {
    if code == 1 then Some(START) else if code == 2 then Some(START_ACK)
    else if code == 3 then Some(DATA) else if code == 4 then Some(ACK)
    else if code == 5 then Some(COMPLETE) else if code == 6 then Some(COMPLETE_ACK)
    else if code == 7 then Some(ERROR) else None
  }

  const FLAG_RETRANSMITTED: U16 := 2
  const FLAG_SACK: U16 := 4

  predicate HasCrcFlag(flags: U16) { flags % 2 == 1 }
  predicate HasRetransmittedFlag(flags: U16) { flags / 2 % 2 == 1 }
  predicate HasSackFlag(flags: U16) { flags / 4 % 2 == 1 }

  datatype Header = Header(
    magic: U32, version: Byte, kind: PacketType, flags: U16, session: U32, number: U32,
    payloadLength: U16, headerLength: U16, crc: U32)

  datatype Packet = Packet(header: Header, payload: seq<Byte>)

  /** A header as both programs build it; the lengths are filled in when it is encoded. */
  function MakeHeader(kind: PacketType, session: U32, number: U32, flags: U16): Header {
    Header(MAGIC, VERSION, kind, flags, session, number, 0, HEADER_SIZE, 0)
  }

  datatype DecodeError =
    TooShort | UnknownType | BadMagic | BadVersion | BadHeaderLength | LengthMismatch | CrcUnsupported

  datatype Decoded = Accepted(packet: Packet) | Rejected(reason: DecodeError)

  // magic, version, type, flags, session, number, payload length, header length, crc
  function HeaderLayout(): seq<nat> { [4, 1, 1, 2, 4, 4, 2, 2, 4] }

  function HeaderValues(h: Header, payloadSize: U16): seq<nat> {
    [h.magic, h.version, TypeCode(h.kind), h.flags, h.session, h.number, payloadSize,
     HEADER_SIZE, h.crc]
  }

  lemma {:induction false} HeaderWidth()
    ensures Width(HeaderLayout()) == HEADER_SIZE
  {
    assert HeaderLayout()[..8] == [4, 1, 1, 2, 4, 4, 2, 2];
    assert [4, 1, 1, 2, 4, 4, 2, 2][..7] == [4, 1, 1, 2, 4, 4, 2];
    assert [4, 1, 1, 2, 4, 4, 2][..6] == [4, 1, 1, 2, 4, 4];
    assert [4, 1, 1, 2, 4, 4][..5] == [4, 1, 1, 2, 4];
    assert [4, 1, 1, 2, 4][..4] == [4, 1, 1, 2];
    assert [4, 1, 1, 2][..3] == [4, 1, 1];
    assert [4, 1, 1][..2] == [4, 1];
    assert Width([4, 1]) == 5;
    assert Width([4, 1, 1]) == 6;
    assert Width([4, 1, 1, 2]) == 8;
    assert Width([4, 1, 1, 2, 4]) == 12;
    assert Width([4, 1, 1, 2, 4, 4]) == 16;
    assert Width([4, 1, 1, 2, 4, 4, 2]) == 18;
  }

  /** Nothing where the program throws: the length field has 16 bits. */
  function EncodePacket(h: Header, payload: seq<Byte>): Option<Datagram> {
    if |payload| > 0xFFFF then None
    else Some(EncodeFields(HeaderValues(h, |payload|), HeaderLayout()) + payload)
  }

  function DecodePacket(d: Datagram): Decoded {
    if |d| < HEADER_SIZE then Rejected(TooShort)
    else
      HeaderWidth(); PowValues();
      var v := DecodeFields(d[..HEADER_SIZE], HeaderLayout());
      var kind := TypeOf(v[2]);
      if kind.None? then Rejected(UnknownType)
      else if v[0] != MAGIC then Rejected(BadMagic)
      else if v[1] != VERSION then Rejected(BadVersion)
      else if v[7] != HEADER_SIZE then Rejected(BadHeaderLength)
      else if |d| != v[7] + v[6] then Rejected(LengthMismatch)
      else if HasCrcFlag(v[3]) then Rejected(CrcUnsupported)
      else
        Accepted(Packet(
          Header(v[0], v[1], kind.value, v[3], v[4], v[5], v[6], v[7], v[8]), d[HEADER_SIZE..]))
  }

  lemma HeaderFits(h: Header, payloadSize: U16)
    ensures Fits(HeaderValues(h, payloadSize), HeaderLayout())
  {
    PowValues();
  }

  /** What is sent with a valid header decodes to that header (lengths filled in) and payload. */
  lemma PacketRoundTrip(h: Header, payload: seq<Byte>)
    requires |payload| <= 0xFFFF
    requires h.magic == MAGIC && h.version == VERSION && !HasCrcFlag(h.flags)
    ensures EncodePacket(h, payload).Some?
    ensures DecodePacket(EncodePacket(h, payload).value) ==
            Accepted(Packet(h.(payloadLength := |payload|, headerLength := HEADER_SIZE), payload))
  {
    var values := HeaderValues(h, |payload|);
    var head := EncodeFields(values, HeaderLayout());
    HeaderWidth();
    HeaderFits(h, |payload|);
    FieldsRoundTrip(values, HeaderLayout());
    assert (head + payload)[..HEADER_SIZE] == head;
    assert (head + payload)[HEADER_SIZE..] == payload;
  }

  /** Every accepted datagram is reproduced byte for byte from its decoded form. */
  lemma PacketReproduced(d: Datagram)
    requires DecodePacket(d).Accepted?
    ensures var p := DecodePacket(d).packet; EncodePacket(p.header, p.payload) == Some(d)
  {
    var p := DecodePacket(d).packet;
    HeaderWidth();
    var values := DecodeFields(d[..HEADER_SIZE], HeaderLayout());
    assert values == HeaderValues(p.header, |p.payload|);
    FieldsReproduce(d[..HEADER_SIZE], HeaderLayout());
    assert d == d[..HEADER_SIZE] + d[HEADER_SIZE..];
  }

  // ---------------------------------------------------------------- control payloads

  function StartLayout(): seq<nat> { [8, 4, 4, 4, 2, 2] }

  // The second field is the two bytes the encoder leaves zero and the decoder skips.
  function StartAckLayout(): seq<nat> { [2, 2, 4, 2, 2] }
  function CompleteAckLayout(): seq<nat> { [2, 2, 4, 8, 8] }
  function AckLayout(): seq<nat> { [4, 4, 4, 2, 2] }

  lemma {:induction false} PayloadWidths()
    ensures Width(StartLayout()) == 24 && Width(StartAckLayout()) == 12
    ensures Width(CompleteAckLayout()) == 24 && Width(AckLayout()) == 16
  {
    var s := StartLayout();
    assert s[..5] == [8, 4, 4, 4, 2] && s[..5][..4] == [8, 4, 4, 4] && s[..5][..4][..3] == [8, 4, 4];
    assert Width([8, 4]) == 12 && Width([8, 4, 4]) == 16;
    var a := StartAckLayout();
    assert a[..4] == [2, 2, 4, 2] && a[..4][..3] == [2, 2, 4] && a[..4][..3][..2] == [2, 2];
    var c := CompleteAckLayout();
    assert c[..4] == [2, 2, 4, 8] && c[..4][..3] == [2, 2, 4] && c[..4][..3][..2] == [2, 2];
    var k := AckLayout();
    assert k[..4] == [4, 4, 4, 2] && k[..4][..3] == [4, 4, 4] && k[..4][..3][..2] == [4, 4];
    assert Width([2, 2]) == 4 && Width([4, 4]) == 8;
  }

  function StartValues(p: StartPayload): seq<nat> {
    [p.fileSize, p.chunkSize, p.totalChunks, p.windowChunks, p.ackBitmapBits, p.ackIntervalMs]
  }

  function EncodeStart(p: StartPayload): seq<Byte> {
    EncodeFields(StartValues(p), StartLayout())
  }

  function DecodeStart(b: seq<Byte>): Option<StartPayload> {
    if |b| != 24 then None
    else
      PayloadWidths(); PowValues();
      var v := DecodeFields(b, StartLayout());
      Some(StartPayload(v[0], v[1], v[2], v[3], v[4], v[5]))
  }

  function StartAckValues(p: StartAckPayload): seq<nat> {
    [p.status, 0, p.acceptedWindowChunks, p.acceptedBitmapBits, p.acceptedAckIntervalMs]
  }

  function EncodeStartAck(p: StartAckPayload): seq<Byte> {
    EncodeFields(StartAckValues(p), StartAckLayout())
  }

  function DecodeStartAck(b: seq<Byte>): Option<StartAckPayload> {
    if |b| != 12 then None
    else
      PayloadWidths(); PowValues();
      var v := DecodeFields(b, StartAckLayout());
      Some(StartAckPayload(v[0], v[2], v[3], v[4]))
  }

  function CompleteAckValues(p: CompleteAckPayload): seq<nat> {
    [p.status, 0, p.receivedChunks, p.receivedBytes, p.receiverTimeUs]
  }

  function EncodeCompleteAck(p: CompleteAckPayload): seq<Byte> {
    EncodeFields(CompleteAckValues(p), CompleteAckLayout())
  }

  function DecodeCompleteAck(b: seq<Byte>): Option<CompleteAckPayload> {
    if |b| != 24 then None
    else
      PayloadWidths(); PowValues();
      var v := DecodeFields(b, CompleteAckLayout());
      Some(CompleteAckPayload(v[0], v[2], v[3], v[4]))
  }

  function BitmapBytes(bits: U16): nat {
    (bits + 7) / 8
  }

  function AckValues(p: AckPayload): seq<nat> {
    [p.cumulativeAck, p.largestReceivedPlusOne, p.bitmapBase, p.bitmapBits, 0]
  }

  /** Nothing where the program throws. */
  function EncodeAck(p: AckPayload): Option<seq<Byte>> {
    if |p.bitmap| != BitmapBytes(p.bitmapBits) then None
    else Some(EncodeFields(AckValues(p), AckLayout()) + p.bitmap)
  }

  function DecodeAck(b: seq<Byte>): Option<AckPayload> {
    if |b| < 16 then None
    else
      PayloadWidths(); PowValues();
      var v := DecodeFields(b[..16], AckLayout());
      if |b| != 16 + BitmapBytes(v[3]) then None
      else Some(AckPayload(v[0], v[1], v[2], v[3], b[16..]))
  }

  lemma StartRoundTrip(p: StartPayload)
    ensures DecodeStart(EncodeStart(p)) == Some(p)
  {
    PayloadWidths();
    PowValues();
    FieldsRoundTrip(StartValues(p), StartLayout());
  }

  /** START has no spare bytes: a decoded payload re-encodes to the same bytes. */
  lemma StartReproduced(b: seq<Byte>)
    requires DecodeStart(b).Some?
    ensures EncodeStart(DecodeStart(b).value) == b
  {
    PayloadWidths();
    FieldsReproduce(b, StartLayout());
    assert StartValues(DecodeStart(b).value) == DecodeFields(b, StartLayout());
  }

  lemma StartAckRoundTrip(p: StartAckPayload)
    ensures DecodeStartAck(EncodeStartAck(p)) == Some(p)
  {
    PayloadWidths();
    PowValues();
    FieldsRoundTrip(StartAckValues(p), StartAckLayout());
  }

  lemma CompleteAckRoundTrip(p: CompleteAckPayload)
    ensures DecodeCompleteAck(EncodeCompleteAck(p)) == Some(p)
  {
    PayloadWidths();
    PowValues();
    FieldsRoundTrip(CompleteAckValues(p), CompleteAckLayout());
  }

  lemma AckRoundTrip(p: AckPayload)
    requires |p.bitmap| == BitmapBytes(p.bitmapBits)
    ensures EncodeAck(p).Some? && DecodeAck(EncodeAck(p).value) == Some(p)
  {
    PayloadWidths();
    PowValues();
    var v := AckValues(p);
    assert v[0] == p.cumulativeAck && v[1] == p.largestReceivedPlusOne;
    assert v[2] == p.bitmapBase && v[3] == p.bitmapBits;
    FieldsRoundTrip(v, AckLayout());
    var head := EncodeFields(v, AckLayout());
    assert (head + p.bitmap)[..16] == head;
    assert (head + p.bitmap)[16..] == p.bitmap;
  }

  // ---------------------------------------------------------------- reserved bytes

  lemma FieldsInjective(a: seq<nat>, b: seq<nat>, layout: seq<nat>)
    requires Fits(a, layout) && Fits(b, layout)
    ensures EncodeFields(a, layout) == EncodeFields(b, layout) <==> a == b
  {
    FieldsRoundTrip(a, layout);
    FieldsRoundTrip(b, layout);
  }

  /** Writing zero into field `k` reproduces the bytes exactly when that field was zero. */
  lemma ZeroedField(bytes: seq<Byte>, layout: seq<nat>, k: nat)
    requires |bytes| == Width(layout) && k < |layout|
    ensures EncodeFields(DecodeFields(bytes, layout)[k := 0], layout) == bytes <==>
            DecodeFields(bytes, layout)[k] == 0
  {
    var v := DecodeFields(bytes, layout);
    PowPositive(layout[k]);
    FieldsReproduce(bytes, layout);
    FieldsInjective(v[k := 0], v, layout);
    if v[k := 0] == v {
      assert v[k := 0][k] == 0;
    }
  }

  /** The last field is read from the last bytes, the others from the rest. */
  lemma LastField(bytes: seq<Byte>, layout: seq<nat>)
    requires |bytes| == Width(layout) && layout != []
    ensures var n := |layout| - 1;
      var cut := Width(layout[..n]);
      && cut + layout[n] == |bytes|
      && DecodeFields(bytes, layout) ==
           DecodeFields(bytes[..cut], layout[..n]) + [FromBigEndian(bytes[cut..])]
  {
    hide FromBigEndian;
  }

  lemma {:induction false} FieldAt(bytes: seq<Byte>, layout: seq<nat>, k: nat)
    requires |bytes| == Width(layout) && k < |layout|
    ensures Width(layout[..k]) + layout[k] <= |bytes|
    ensures DecodeFields(bytes, layout)[k] ==
            FromBigEndian(bytes[Width(layout[..k])..Width(layout[..k]) + layout[k]])
    decreases |layout|
  {
    hide FromBigEndian, DecodeFields, Pow256;
    var n := |layout| - 1;
    var cut := Width(layout[..n]);
    LastField(bytes, layout);
    if k < n {
      FieldAt(bytes[..cut], layout[..n], k);
      assert layout[..n][..k] == layout[..k] && layout[..n][k] == layout[k];
      var lo := Width(layout[..k]);
      assert bytes[..cut][lo..lo + layout[k]] == bytes[lo..lo + layout[k]];
    } else {
      assert bytes[cut..cut + layout[n]] == bytes[cut..];
    }
  }

  lemma TwoZeroBytes(b: seq<Byte>)
    requires |b| == 2
    ensures FromBigEndian(b) == 0 <==> b[0] == 0 && b[1] == 0
  {
    assert b[..1] == [b[0]] && [b[0]][..0] == [];
    assert FromBigEndian([b[0]]) == b[0];
  }

  /**
   * An accepted ACK payload re-encodes to the same bytes exactly when its two reserved bytes
   * are zero: the decoder skips them and the encoder writes zero.
   */
  lemma AckReproduced(b: seq<Byte>)
    requires DecodeAck(b).Some?
    ensures EncodeAck(DecodeAck(b).value).Some?
    ensures EncodeAck(DecodeAck(b).value).value == b <==> b[14] == 0 && b[15] == 0
  {
    hide FromBigEndian, Pow256, BigEndian;
    PayloadWidths();
    var p := DecodeAck(b).value;
    var head := b[..16];
    assert AckValues(p) == DecodeFields(head, AckLayout())[4 := 0];
    ZeroedField(head, AckLayout(), 4);
    FieldAt(head, AckLayout(), 4);
    assert AckLayout()[..4] == [4, 4, 4, 2] && Width(AckLayout()) == Width([4, 4, 4, 2]) + 2;
    TwoZeroBytes(head[14..16]);
    var again := EncodeFields(AckValues(p), AckLayout());
    assert (again + p.bitmap)[..16] == again;
    assert b == head + p.bitmap;
  }

  lemma StartAckReproduced(b: seq<Byte>)
    requires DecodeStartAck(b).Some?
    ensures EncodeStartAck(DecodeStartAck(b).value) == b <==> b[2] == 0 && b[3] == 0
  {
    PayloadWidths();
    assert StartAckValues(DecodeStartAck(b).value) == DecodeFields(b, StartAckLayout())[1 := 0];
    ZeroedField(b, StartAckLayout(), 1);
    FieldAt(b, StartAckLayout(), 1);
    assert StartAckLayout()[..1] == [2] && [2][..0] == [] && Width([2]) == 2;
    TwoZeroBytes(b[2..4]);
  }

  lemma CompleteAckReproduced(b: seq<Byte>)
    requires DecodeCompleteAck(b).Some?
    ensures EncodeCompleteAck(DecodeCompleteAck(b).value) == b <==> b[2] == 0 && b[3] == 0
  {
    PayloadWidths();
    assert CompleteAckValues(DecodeCompleteAck(b).value) ==
           DecodeFields(b, CompleteAckLayout())[1 := 0];
    ZeroedField(b, CompleteAckLayout(), 1);
    FieldAt(b, CompleteAckLayout(), 1);
    assert CompleteAckLayout()[..1] == [2] && [2][..0] == [] && Width([2]) == 2;
    TwoZeroBytes(b[2..4]);
  }
}
