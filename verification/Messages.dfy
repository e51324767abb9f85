/** The six kinds of datagram the two programs send, byte by byte. */
module Messages {
  import opened Types
  import opened Chunks
  import opened Codec
  import opened Wire
  import opened Servers
  import opened Clients

  /** The 24 header bytes of a datagram without checksum. */
  function HeaderBytes(code: Byte, flags: U16, session: U32, number: U32, size: U16): seq<Byte> {
    [0x46, 0x52, 0x46, 0x54] + [1, code] + Be16(flags) + Be32(session) + Be32(number) + Be16(size) +
    [0, 24] + [0, 0, 0, 0]
  }

  lemma PackBytes(kind: PacketType, session: U32, number: U32, flags: U16, payload: seq<Byte>)
    requires |payload| <= 65535
    ensures Pack(kind, session, number, flags, payload) ==
            HeaderBytes(KindCode(kind), flags, session, number, |payload|) + payload
  {
    hide EncodePacket, Be16, Be32, KindCode;
    SentOnWire(kind, session, number, flags, payload);
  }

  /**
   * START, code 1: the size of the file, the MTU less 52 as chunk size, the chunk count, the
   * smallest window that holds 8 MiB, 8192 bits, 10 ms.
   */
  lemma StartMessage(c: Config) returns (window: U32)
    requires Runnable(c)
    ensures |c.input| < 0x1_0000_0000_0000_0000 && c.mtu > 52
    ensures (window - 1) * (c.mtu - 52) < 8_388_608 <= window * (c.mtu - 52)
    ensures StartDatagram(c) ==
            HeaderBytes(1, 0, c.session, 0, 24) +
            (Be64(|c.input|) + Be32(c.mtu - 52) + Be32(Total(c)) + Be32(window) + Be16(8192) + Be16(10))
  {
    hide Pack, Be64, Be32, Be16, EncodeFields, HeaderBytes, Total;
    RunnableIffAccepted(c);
    var start := StartOf(c);
    window := start.windowChunks;
    WindowHoldsDefault(ChunkSize(c));
    PayloadWidths();
    StartOnWire(start);
    PackBytes(START, c.session, 0, 0, EncodeStart(start));
  }

  /** DATA, code 3: bit 1 of the flags for a retransmission, the chunk number, the chunk. */
  lemma DataMessage(c: Config, i: nat, retransmission: bool)
    requires Runnable(c) && i < Total(c)
    ensures var at := i * (c.mtu - 52);
      var end := if at + (c.mtu - 52) <= |c.input| then at + (c.mtu - 52) else |c.input|;
      && 0 <= at < end <= |c.input| && end - at <= 65535
      && DataDatagram(c, i, retransmission) ==
           HeaderBytes(3, if retransmission then 2 else 0, c.session, i, end - at) + c.input[at..end]
  {
    hide Pack, HeaderBytes, Total;
    InputTiles(c, i);
    CutTiles(c, i);
    PackBytes(DATA, c.session, i, if retransmission then FLAG_RETRANSMITTED else 0,
              Slice(c.input, ChunkSize(c), i));
  }

  lemma CutTiles(c: Config, i: nat)
    requires Runnable(c) && i < Total(c)
    ensures Offset(ChunkSize(c), i) + Length(|c.input|, ChunkSize(c), i) <= |c.input|
    ensures 0 < Length(|c.input|, ChunkSize(c), i)
  {
    RunnableIffAccepted(c);
    RangesTile(|c.input|, ChunkSize(c), Total(c), i);
  }

  /** COMPLETE, code 5: the chunk count as number, and no payload. */
  lemma CompleteMessage(c: Config)
    requires Runnable(c)
    ensures CompleteDatagram(c) == HeaderBytes(5, 0, c.session, Total(c), 0) + []
  {
    hide Pack, HeaderBytes, Total;
    PackBytes(COMPLETE, c.session, Total(c), 0, []);
  }

  /** START_ACK, code 2. */
  lemma StartAckMessage(session: U32, a: StartAckPayload)
    ensures StartAckDatagram(session, a) ==
            HeaderBytes(2, 0, session, 0, 12) +
            (Be16(a.status) + [0, 0] + Be32(a.acceptedWindowChunks) + Be16(a.acceptedBitmapBits) +
             Be16(a.acceptedAckIntervalMs))
  {
    hide Pack, HeaderBytes, EncodeFields, Be16, Be32;
    PayloadWidths();
    StartAckOnWire(a);
    PackBytes(START_ACK, session, 0, 0, EncodeStartAck(a));
  }

  /** ACK, code 4: bit 2 of the flags for the SACK bitmap, the running number of the ACK. */
  lemma AckMessage(session: U32, number: U32, a: AckPayload)
    requires |a.bitmap| == BitmapBytes(a.bitmapBits)
    ensures 16 + |a.bitmap| <= 65535
    ensures AckDatagram(session, number, a) ==
            HeaderBytes(4, 4, session, number, 16 + |a.bitmap|) +
            (Be32(a.cumulativeAck) + Be32(a.largestReceivedPlusOne) + Be32(a.bitmapBase) +
             Be16(a.bitmapBits) + [0, 0] + a.bitmap)
  {
    hide Pack, HeaderBytes, EncodeFields, Be16, Be32;
    PayloadWidths();
    AckOnWire(a);
    PackBytes(ACK, session, number, FLAG_SACK, EncodeAck(a).value);
  }

  /** COMPLETE_ACK, code 6: the chunk count as number. */
  lemma CompleteAckMessage(session: U32, total: U32, a: CompleteAckPayload)
    ensures CompleteAckDatagram(session, total, a) ==
            HeaderBytes(6, 0, session, total, 24) +
            (Be16(a.status) + [0, 0] + Be32(a.receivedChunks) + Be64(a.receivedBytes) +
             Be64(a.receiverTimeUs))
  {
    hide Pack, HeaderBytes, EncodeFields, Be16, Be32, Be64;
    PayloadWidths();
    CompleteAckOnWire(a);
    PackBytes(COMPLETE_ACK, session, total, 0, EncodeCompleteAck(a));
  }
}
