/**
 * The bytes on the wire, written out one by one: where every field of the header and of the four
 * payloads stands, which datagrams are accepted, and why the others are not.
 */
module Wire {
  import opened Types
  import opened Codec

  // ---------------------------------------------------------------- integers

  function Be16(v: U16): seq<Byte> {
    [v / 0x100, v % 0x100]
  }

  function Be32(v: U32): seq<Byte> {
    [v / 0x100_0000, v / 0x1_0000 % 0x100, v / 0x100 % 0x100, v % 0x100]
  }

  function Be64(v: U64): seq<Byte> {
    Be32(v / 0x1_0000_0000) + Be32(v % 0x1_0000_0000)
  }

  lemma BigEndian1(v: Byte)
    ensures BigEndian(v, 1) == [v]
  {
    assert BigEndian(v / 256, 0) == [];
  }

  lemma BigEndian2(v: U16)
    ensures BigEndian(v, 2) == Be16(v)
  {
    BigEndian1(v / 256);
  }

  lemma BigEndian4(v: U32)
    ensures BigEndian(v, 4) == Be32(v)
  {
    BigEndian2(v / 256 / 256);
    assert BigEndian(v / 256, 3) == BigEndian(v / 256 / 256, 2) + [v / 256 % 256];
  }

  lemma Spread(d: nat, a: nat, b: nat)
    ensures d * a + d * b == d * (a + b)
  {
  }

  lemma DropsHigh(m: nat, q: nat)
    ensures (256 * m + q) % 256 == q % 256
  {
  }

  /** A byte of the lower part of a value does not depend on the upper part. */
  lemma LowByte(v: nat, high: nat, d: nat, r: nat)
    requires d > 0 && v == d * (256 * high) + r
    ensures v / d % 256 == r / d % 256
  {
    var q, rest := r / d, r % d;
    assert r == d * q + rest;
    var a := 256 * high;
    Spread(d, a, q);
    QuotientUnique(v, d, a + q, rest);
    DropsHigh(high, q);
  }

  /** The last four bytes of a value depend on its remainder alone. */
  lemma LowHalf(v: nat, e: nat, r: nat)
    requires v == e * 0x1_0000_0000 + r && r < 0x1_0000_0000
    ensures v % 0x100 == r % 0x100
    ensures v / 0x100 % 0x100 == r / 0x100 % 0x100
    ensures v / 0x1_0000 % 0x100 == r / 0x1_0000 % 0x100
    ensures v / 0x100_0000 % 0x100 == r / 0x100_0000
  {
    LowByte(v, e * 0x100_0000, 1, r);
    LowByte(v, e * 0x1_0000, 0x100, r);
    LowByte(v, e * 0x100, 0x1_0000, r);
    LowByte(v, e, 0x100_0000, r);
  }

  lemma FourSteps(v: nat, width: nat)
    ensures BigEndian(v, width + 4) ==
            BigEndian(v / 0x1_0000_0000, width) +
            [v / 0x100_0000 % 0x100, v / 0x1_0000 % 0x100, v / 0x100 % 0x100, v % 0x100]
  {
    var a, b, c := v / 0x100, v / 0x1_0000, v / 0x100_0000;
    assert a / 0x100 == b && b / 0x100 == c && c / 0x100 == v / 0x1_0000_0000;
    assert BigEndian(c, width + 1) == BigEndian(v / 0x1_0000_0000, width) + [c % 0x100];
    assert BigEndian(b, width + 2) == BigEndian(c, width + 1) + [b % 0x100];
    assert BigEndian(a, width + 3) == BigEndian(b, width + 2) + [a % 0x100];
    assert BigEndian(v, width + 4) == BigEndian(a, width + 3) + [v % 0x100];
  }

  lemma BigEndian8(v: U64)
    ensures BigEndian(v, 8) == Be64(v)
  {
    hide BigEndian;
    FourSteps(v, 4);
    BigEndian4(v / 0x1_0000_0000);
    LowHalf(v, v / 0x1_0000_0000, v % 0x1_0000_0000);
  }

  // ---------------------------------------------------------------- fields in a row

  /** The first `k + 1` fields are the first `k` and then field `k`. */
  lemma EncodePrefix(values: seq<nat>, layout: seq<nat>, k: nat)
    requires |values| == |layout| && k < |values|
    ensures EncodeFields(values[..k + 1], layout[..k + 1]) ==
            EncodeFields(values[..k], layout[..k]) + BigEndian(values[k], layout[k])
    ensures EncodeFields(values[..0], layout[..0]) == []
    ensures values[..|values|] == values && layout[..|values|] == layout
  {
    assert values[..k + 1][..k] == values[..k];
    assert layout[..k + 1][..k] == layout[..k];
  }

  // ---------------------------------------------------------------- payloads

  /** START: file size at byte 0, chunk size at 8, chunks at 12, window at 16, bits at 20, interval at 22. */
  lemma StartOnWire(p: StartPayload)
    ensures EncodeStart(p) ==
            Be64(p.fileSize) + Be32(p.chunkSize) + Be32(p.totalChunks) + Be32(p.windowChunks) +
            Be16(p.ackBitmapBits) + Be16(p.ackIntervalMs)
  {
    hide BigEndian, EncodeFields, Be64, Be32, Be16;
    var v, l := StartValues(p), StartLayout();
    EncodePrefix(v, l, 0);
    EncodePrefix(v, l, 1);
    EncodePrefix(v, l, 2);
    EncodePrefix(v, l, 3);
    EncodePrefix(v, l, 4);
    EncodePrefix(v, l, 5);
    BigEndian8(p.fileSize);
    BigEndian4(p.chunkSize);
    BigEndian4(p.totalChunks);
    BigEndian4(p.windowChunks);
    BigEndian2(p.ackBitmapBits);
    BigEndian2(p.ackIntervalMs);
  }

  /** START_ACK: status at byte 0, two spare bytes, window at 4, bits at 8, interval at 10. */
  lemma StartAckOnWire(p: StartAckPayload)
    ensures EncodeStartAck(p) ==
            Be16(p.status) + [0, 0] + Be32(p.acceptedWindowChunks) + Be16(p.acceptedBitmapBits) +
            Be16(p.acceptedAckIntervalMs)
  {
    hide BigEndian, EncodeFields, Be64, Be32;
    var v, l := StartAckValues(p), StartAckLayout();
    EncodePrefix(v, l, 0);
    EncodePrefix(v, l, 1);
    EncodePrefix(v, l, 2);
    EncodePrefix(v, l, 3);
    EncodePrefix(v, l, 4);
    BigEndian2(p.status);
    BigEndian2(0);
    BigEndian4(p.acceptedWindowChunks);
    BigEndian2(p.acceptedBitmapBits);
    BigEndian2(p.acceptedAckIntervalMs);
  }

  /** COMPLETE_ACK: status at byte 0, two spare bytes, chunks at 4, bytes at 8, microseconds at 16. */
  lemma CompleteAckOnWire(p: CompleteAckPayload)
    ensures EncodeCompleteAck(p) ==
            Be16(p.status) + [0, 0] + Be32(p.receivedChunks) + Be64(p.receivedBytes) +
            Be64(p.receiverTimeUs)
  {
    hide BigEndian, EncodeFields, Be64, Be32;
    var v, l := CompleteAckValues(p), CompleteAckLayout();
    EncodePrefix(v, l, 0);
    EncodePrefix(v, l, 1);
    EncodePrefix(v, l, 2);
    EncodePrefix(v, l, 3);
    EncodePrefix(v, l, 4);
    BigEndian2(p.status);
    BigEndian2(0);
    BigEndian4(p.receivedChunks);
    BigEndian8(p.receivedBytes);
    BigEndian8(p.receiverTimeUs);
  }

  lemma AckFieldsOnWire(p: AckPayload)
    ensures EncodeFields(AckValues(p), AckLayout()) ==
            Be32(p.cumulativeAck) + Be32(p.largestReceivedPlusOne) + Be32(p.bitmapBase) +
            Be16(p.bitmapBits) + [0, 0]
  {
    hide BigEndian, EncodeFields, Be64, Be32;
    var v, l := AckValues(p), AckLayout();
    EncodePrefix(v, l, 0);
    EncodePrefix(v, l, 1);
    EncodePrefix(v, l, 2);
    EncodePrefix(v, l, 3);
    EncodePrefix(v, l, 4);
    BigEndian4(p.cumulativeAck);
    BigEndian4(p.largestReceivedPlusOne);
    BigEndian4(p.bitmapBase);
    BigEndian2(p.bitmapBits);
    BigEndian2(0);
  }

  /**
   * ACK: cumulative ACK at byte 0, largest plus one at 4, bitmap base at 8, bits at 12, two spare
   * bytes, bitmap from 16; it is refused exactly when the bitmap is not one bit per announced bit.
   */
  lemma AckOnWire(p: AckPayload)
    ensures EncodeAck(p).Some? <==> |p.bitmap| == (p.bitmapBits + 7) / 8
    ensures EncodeAck(p).Some? ==>
      EncodeAck(p).value ==
            Be32(p.cumulativeAck) + Be32(p.largestReceivedPlusOne) + Be32(p.bitmapBase) +
            Be16(p.bitmapBits) + [0, 0] + p.bitmap
  {
    hide EncodeFields, Be32, Be16;
    AckFieldsOnWire(p);
  }

  // ---------------------------------------------------------------- headers

  function KindCode(kind: PacketType): Byte {
    match kind
    case START => 1
    case START_ACK => 2
    case DATA => 3
    case ACK => 4
    case COMPLETE => 5
    case COMPLETE_ACK => 6
    case ERROR => 7
  }

  lemma HeaderStartOnWire(h: Header, size: U16)
    ensures EncodeFields(HeaderValues(h, size)[..5], HeaderLayout()[..5]) ==
            Be32(h.magic) + [h.version, KindCode(h.kind)] + Be16(h.flags) + Be32(h.session)
  {
    hide BigEndian, EncodeFields, Be32, Be16;
    var v, l := HeaderValues(h, size), HeaderLayout();
    EncodePrefix(v, l, 0);
    EncodePrefix(v, l, 1);
    EncodePrefix(v, l, 2);
    EncodePrefix(v, l, 3);
    EncodePrefix(v, l, 4);
    BigEndian4(h.magic);
    BigEndian1(h.version);
    BigEndian1(KindCode(h.kind));
    BigEndian2(h.flags);
    BigEndian4(h.session);
    assert [h.version] + [KindCode(h.kind)] == [h.version, KindCode(h.kind)];
  }

  lemma HeaderFieldsOnWire(h: Header, size: U16)
    ensures EncodeFields(HeaderValues(h, size), HeaderLayout()) ==
            Be32(h.magic) + [h.version, KindCode(h.kind)] + Be16(h.flags) + Be32(h.session) +
            Be32(h.number) + Be16(size) + [0, 24] + Be32(h.crc)
  {
    assert Be16(24) == [0, 24];
    hide BigEndian, EncodeFields, Be32, Be16;
    var v, l := HeaderValues(h, size), HeaderLayout();
    HeaderStartOnWire(h, size);
    EncodePrefix(v, l, 5);
    EncodePrefix(v, l, 6);
    EncodePrefix(v, l, 7);
    EncodePrefix(v, l, 8);
    BigEndian4(h.number);
    BigEndian2(size);
    BigEndian2(24);
    BigEndian4(h.crc);
  }

  /**
   * A packet: magic at byte 0, version at 4, type code at 5, flags at 6, session at 8, number at
   * 12, payload length at 16, header length 24 at 18, checksum field at 20, payload from 24.
   */
  lemma PacketOnWire(h: Header, payload: seq<Byte>)
    ensures EncodePacket(h, payload).Some? <==> |payload| <= 65535
    ensures |payload| <= 65535 ==>
      EncodePacket(h, payload).value ==
            Be32(h.magic) + [h.version, KindCode(h.kind)] + Be16(h.flags) + Be32(h.session) +
            Be32(h.number) + Be16(|payload|) + [0, 24] + Be32(h.crc) + payload
  {
    hide EncodeFields, Be32, Be16;
    if |payload| <= 65535 {
      HeaderFieldsOnWire(h, |payload|);
    }
  }

  /** What both programs send: the letters FRFT, version 1, no checksum. */
  lemma SentOnWire(kind: PacketType, session: U32, number: U32, flags: U16, payload: seq<Byte>)
    requires |payload| <= 65535
    ensures EncodePacket(MakeHeader(kind, session, number, flags), payload) ==
            Some([0x46, 0x52, 0x46, 0x54] + [1, KindCode(kind)] + Be16(flags) + Be32(session) +
                 Be32(number) + Be16(|payload|) + [0, 24] + [0, 0, 0, 0] + payload)
  {
    hide EncodePacket;
    PacketOnWire(MakeHeader(kind, session, number, flags), payload);
    assert Be32(0x46524654) == [0x46, 0x52, 0x46, 0x54] && Be32(0) == [0, 0, 0, 0];
  }

  // ---------------------------------------------------------------- reading

  function At16(d: seq<Byte>, k: nat): nat
    requires k + 2 <= |d|
  {
    (d[k] as int) * 0x100 + d[k + 1]
  }

  function At32(d: seq<Byte>, k: nat): nat
    requires k + 4 <= |d|
  {
    (d[k] as int) * 0x100_0000 + (d[k + 1] as int) * 0x1_0000 + (d[k + 2] as int) * 0x100 + d[k + 3]
  }

  lemma ReadOne(b: seq<Byte>)
    requires |b| == 1
    ensures FromBigEndian(b) == b[0]
  {
    assert b[..0] == [];
  }

  lemma ReadTwo(b: seq<Byte>)
    requires |b| == 2
    ensures FromBigEndian(b) == At16(b, 0)
  {
    ReadOne(b[..1]);
  }

  lemma ReadFour(b: seq<Byte>)
    requires |b| == 4
    ensures FromBigEndian(b) == At32(b, 0)
  {
    ReadTwo(b[..3][..2]);
    assert FromBigEndian(b[..3]) == FromBigEndian(b[..3][..2]) * 256 + b[2];
  }

  lemma {:induction false} HeaderOffsets()
    ensures var l := HeaderLayout();
      && Width(l[..0]) == 0 && Width(l[..1]) == 4 && Width(l[..2]) == 5 && Width(l[..3]) == 6
      && Width(l[..4]) == 8 && Width(l[..5]) == 12 && Width(l[..6]) == 16 && Width(l[..7]) == 18
      && Width(l[..8]) == 20 && Width(l) == 24
  {
    var l := HeaderLayout();
    NextOffset(l, 0);
    NextOffset(l, 1);
    NextOffset(l, 2);
    NextOffset(l, 3);
    NextOffset(l, 4);
    NextOffset(l, 5);
    NextOffset(l, 6);
    NextOffset(l, 7);
    NextOffset(l, 8);
    assert l[..9] == l;
  }

  lemma NextOffset(layout: seq<nat>, k: nat)
    requires k < |layout|
    ensures Width(layout[..k + 1]) == Width(layout[..k]) + layout[k]
    ensures Width(layout[..0]) == 0
  {
    assert layout[..k + 1][..k] == layout[..k];
  }

  lemma HeaderWord(d: Datagram, k: nat, at: nat)
    requires |d| >= 24 && k < 9 && HeaderLayout()[k] == 4
    requires Width(HeaderLayout()) == 24 && Width(HeaderLayout()[..k]) == at && at + 4 <= 24
    ensures DecodeFields(d[..24], HeaderLayout())[k] == At32(d, at)
  {
    hide FromBigEndian, DecodeFields, Width;
    FieldAt(d[..24], HeaderLayout(), k);
    assert d[..24][at..at + 4] == d[at..at + 4];
    ReadFour(d[at..at + 4]);
  }

  lemma HeaderHalf(d: Datagram, k: nat, at: nat)
    requires |d| >= 24 && k < 9 && HeaderLayout()[k] == 2
    requires Width(HeaderLayout()) == 24 && Width(HeaderLayout()[..k]) == at && at + 2 <= 24
    ensures DecodeFields(d[..24], HeaderLayout())[k] == At16(d, at)
  {
    hide FromBigEndian, DecodeFields, Width;
    FieldAt(d[..24], HeaderLayout(), k);
    assert d[..24][at..at + 2] == d[at..at + 2];
    ReadTwo(d[at..at + 2]);
  }

  lemma HeaderByte(d: Datagram, k: nat, at: nat)
    requires |d| >= 24 && k < 9 && HeaderLayout()[k] == 1
    requires Width(HeaderLayout()) == 24 && Width(HeaderLayout()[..k]) == at && at + 1 <= 24
    ensures DecodeFields(d[..24], HeaderLayout())[k] == d[at]
  {
    hide FromBigEndian, DecodeFields, Width;
    FieldAt(d[..24], HeaderLayout(), k);
    assert d[..24][at..at + 1] == d[at..at + 1];
    ReadOne(d[at..at + 1]);
  }

  lemma HeaderRead(d: Datagram)
    requires |d| >= 24
    ensures Width(HeaderLayout()) == 24
    ensures var v := DecodeFields(d[..24], HeaderLayout());
      && v[0] == At32(d, 0) && v[1] == d[4] && v[2] == d[5] && v[3] == At16(d, 6)
      && v[4] == At32(d, 8) && v[5] == At32(d, 12) && v[6] == At16(d, 16) && v[7] == At16(d, 18)
      && v[8] == At32(d, 20)
  {
    hide DecodeFields, Width, At16, At32;
    HeaderOffsets();
    HeaderWord(d, 0, 0);
    HeaderByte(d, 1, 4);
    HeaderByte(d, 2, 5);
    HeaderHalf(d, 3, 6);
    HeaderWord(d, 4, 8);
    HeaderWord(d, 5, 12);
    HeaderHalf(d, 6, 16);
    HeaderHalf(d, 7, 18);
    HeaderWord(d, 8, 20);
  }

  /**
   * Which datagrams are accepted, by their bytes: the letters FRFT, version 1, a type from 1 to 7,
   * header length 24, a payload of the announced length, and flag bit 0 (the checksum) clear.
   */
  lemma AcceptedOnWire(d: Datagram)
    ensures DecodePacket(d).Accepted? <==>
      && |d| >= 24
      && d[..4] == [0x46, 0x52, 0x46, 0x54] && d[4] == 1 && 1 <= d[5] <= 7
      && d[18..20] == [0, 24] && |d| == 24 + At16(d, 16) && d[7] % 2 == 0
  {
    hide DecodeFields;
    if |d| >= 24 {
      HeaderRead(d);
      assert d[..4] == [d[0], d[1], d[2], d[3]] && d[18..20] == [d[18], d[19]];
      Word32(d[0], d[1], d[2], d[3]);
    }
  }

  lemma Word32(a: int, b: int, c: int, e: int)
    requires 0 <= a < 0x100 && 0 <= b < 0x100 && 0 <= c < 0x100 && 0 <= e < 0x100
    ensures a * 0x100_0000 + b * 0x1_0000 + c * 0x100 + e == MAGIC <==>
            a == 0x46 && b == 0x52 && c == 0x46 && e == 0x54
  {
  }

  /** What an accepted datagram holds, and where. */
  lemma FieldsOnWire(d: Datagram)
    requires DecodePacket(d).Accepted?
    ensures |d| >= 24
    ensures var h := DecodePacket(d).packet.header;
      && KindCode(h.kind) == d[5] && h.flags == At16(d, 6) && h.session == At32(d, 8)
      && h.number == At32(d, 12) && h.payloadLength == At16(d, 16)
    ensures DecodePacket(d).packet.payload == d[24..]
  {
    hide DecodeFields;
    HeaderRead(d);
  }

  /** Why the others are refused: the first of these tests that fails. */
  lemma RefusedOnWire(d: Datagram)
    requires DecodePacket(d).Rejected?
    ensures DecodePacket(d).reason ==
      if |d| < 24 then TooShort
      else if d[5] < 1 || d[5] > 7 then UnknownType
      else if d[..4] != [0x46, 0x52, 0x46, 0x54] then BadMagic
      else if d[4] != 1 then BadVersion
      else if d[18..20] != [0, 24] then BadHeaderLength
      else if |d| != 24 + At16(d, 16) then LengthMismatch
      else CrcUnsupported
  {
    hide DecodeFields;
    if |d| >= 24 {
      HeaderRead(d);
      assert d[..4] == [d[0], d[1], d[2], d[3]] && d[18..20] == [d[18], d[19]];
      Word32(d[0], d[1], d[2], d[3]);
    }
  }

  /** Payloads by length: 24, 12 and 24 bytes, and for an ACK 16 plus one bit per announced bit. */
  lemma PayloadsByLength(b: seq<Byte>)
    ensures DecodeStart(b).Some? <==> |b| == 24
    ensures DecodeStartAck(b).Some? <==> |b| == 12
    ensures DecodeCompleteAck(b).Some? <==> |b| == 24
    ensures DecodeAck(b).Some? <==> |b| >= 16 && |b| == 16 + (At16(b, 12) + 7) / 8
    ensures DecodeAck(b).Some? ==> DecodeAck(b).value.bitmapBits == At16(b, 12)
  {
    hide DecodeFields;
    if |b| >= 16 {
      BitsField(b);
    }
  }

  lemma BitsField(b: seq<Byte>)
    requires |b| >= 16
    ensures Width(AckLayout()) == 16
    ensures DecodeFields(b[..16], AckLayout())[3] == At16(b, 12)
  {
    hide DecodeFields, FromBigEndian;
    PayloadWidths();
    NextOffset(AckLayout(), 0);
    NextOffset(AckLayout(), 1);
    NextOffset(AckLayout(), 2);
    FieldAt(b[..16], AckLayout(), 3);
    assert b[..16][12..14] == b[12..14];
    ReadTwo(b[12..14]);
  }
}
