/** The client as a value: START exchange, transfer loop steps, COMPLETE exchange. */
module Clients {
  import opened Types
  import opened Chunks
  import opened Codec
  import opened Windows
  import opened WindowProperties
  import opened Sending
  import opened Servers

  /**
   * What one run transfers, the MTU each of the two programs was started with, and the pacing
   * rate of the client in whole bits per second.
   */
  datatype Config = Config(mtu: U32, serverMtu: U32, rateBps: U64, session: U32, input: seq<Byte>)

  /** The window the client asks for: eight mebibytes, rounded up to whole chunks. */
  function WindowChunks(chunkSize: nat): nat
    requires chunkSize > 0
  {
    (DEFAULT_WINDOW_BYTES + chunkSize - 1) / chunkSize
  }

  /** The window holds the default number of bytes, with less than one chunk to spare. */
  lemma WindowHoldsDefault(chunkSize: nat)
    requires chunkSize > 0
    ensures DEFAULT_WINDOW_BYTES <= WindowChunks(chunkSize) * chunkSize < DEFAULT_WINDOW_BYTES + chunkSize
  {
    var n := DEFAULT_WINDOW_BYTES + chunkSize - 1;
    assert n == (n / chunkSize) * chunkSize + n % chunkSize;
  }

  /** The client refuses exactly the chunk sizes below 1024 bytes: their window exceeds the bitmap. */
  lemma SmallChunksRefused(chunkSize: nat)
    requires chunkSize > 0
    ensures WindowChunks(chunkSize) <= ACK_BITMAP_BITS <==> chunkSize >= 1024
  {
    WindowHoldsDefault(chunkSize);
    var w := WindowChunks(chunkSize);
    if chunkSize >= 1024 {
      MulLess(1024, chunkSize, 8192);
      if w >= 8193 {
        MulLess(8193, w, chunkSize);
      }
    } else {
      if w <= 8192 {
        MulLess(w, 8192, chunkSize);
      }
    }
  }

  /** The inputs with which both programs get as far as START, written without division. */
  predicate Runnable(c: Config) {
    && ChunkSizeForMtu(c.serverMtu).Some?
    && ChunkSizeForMtu(c.mtu).Some?
    && 1024 <= ChunkSizeForMtu(c.mtu).value
    && |c.input| <= (U32_LIMIT - 1) * ChunkSizeForMtu(c.mtu).value
    && c.session != 0
  }

  /** Both programs cut files into chunks of the same size. */
  predicate Matched(c: Config) {
    c.serverMtu == c.mtu
  }

  /** Besides, the rate, cut down to whole bits per second, leaves the client able to send. */
  predicate Compatible(c: Config) {
    Matched(c) && c.rateBps > 0
  }

  /** The checks the programs make before START: the MTUs, the chunk count, the bitmap. */
  predicate Accepted(c: Config) {
    && ChunkSizeForMtu(c.serverMtu).Some?
    && ChunkSizeForMtu(c.mtu).Some?
    && |c.input| < 0x1_0000_0000_0000_0000
    && ChunkCount(|c.input|, ChunkSizeForMtu(c.mtu).value).Some?
    && WindowChunks(ChunkSizeForMtu(c.mtu).value) <= ACK_BITMAP_BITS
    && c.session != 0
  }

  /** The program's checks let through exactly those inputs. */
  lemma RunnableIffAccepted(c: Config)
    ensures Runnable(c) <==> Accepted(c)
  {
    if ChunkSizeForMtu(c.mtu).Some? {
      var chunkSize := ChunkSizeForMtu(c.mtu).value;
      SmallChunksRefused(chunkSize);
      if |c.input| < 0x1_0000_0000_0000_0000 {
        CountFits(|c.input|, chunkSize);
      }
    }
  }

  function ChunkSize(c: Config): U32
    requires Runnable(c)
  {
    ChunkSizeForMtu(c.mtu).value
  }

  function Total(c: Config): U32
    requires Runnable(c)
  {
    RunnableIffAccepted(c);
    ChunkCount(|c.input|, ChunkSize(c)).value
  }

  function StartOf(c: Config): StartPayload
    requires Runnable(c)
  {
    RunnableIffAccepted(c);
    StartPayload(|c.input|, ChunkSize(c), Total(c), WindowChunks(ChunkSize(c)),
                 ACK_BITMAP_BITS, ACK_INTERVAL_MS)
  }

  function StartDatagram(c: Config): Datagram
    requires Runnable(c)
  {
    PayloadWidths();
    Pack(START, c.session, 0, 0, EncodeStart(StartOf(c)))
  }

  lemma InputTiles(c: Config, i: nat)
    requires Runnable(c) && i < Total(c)
    ensures 0 < Length(|c.input|, ChunkSize(c), i) <= 0xFFFF
    ensures Cut(|c.input|, ChunkSize(c), Total(c))
  {
    RunnableIffAccepted(c);
    RangesTile(|c.input|, ChunkSize(c), Total(c), i);
  }

  function DataDatagram(c: Config, i: nat, retransmission: bool): Datagram
    requires Runnable(c) && i < Total(c)
  {
    InputTiles(c, i);
    Pack(DATA, c.session, i, if retransmission then FLAG_RETRANSMITTED else 0,
         Slice(c.input, ChunkSize(c), i))
  }

  function CompleteDatagram(c: Config): Datagram
    requires Runnable(c)
  {
    Pack(COMPLETE, c.session, Total(c), 0, [])
  }

  datatype Client =
    | Starting
    | Transferring(sending: Sending)
    | Completing(sending: Sending)
    | Finished(sending: Sending, completed: CompleteAckPayload)
    | Failed  // an exception ended the program

  predicate ClientOk(c: Config, x: Client)
    requires Runnable(c)
  {
    match x
    case Starting => true
    case Failed => true
    case Transferring(s) => Sized(s.window) && s.window.total == Total(c)
    case Completing(s) => Sized(s.window) && s.window.total == Total(c)
    case Finished(s, _) => Sized(s.window) && s.window.total == Total(c)
  }

  predicate ValidWindow(a: StartAckPayload) {
    && a.acceptedWindowChunks != 0
    && a.acceptedWindowChunks <= a.acceptedBitmapBits
    && a.acceptedBitmapBits == ACK_BITMAP_BITS
  }

  /** Whatever START the server accepts, its geometry is right and its answer passes the client's checks. */
  lemma AcceptedPassesChecks(mtu: U32, start: StartPayload)
    requires ChunkSizeForMtu(mtu).Some? && ValidStart(mtu, start) == Some(true)
    ensures Cut(start.fileSize, start.chunkSize, start.totalChunks)
    ensures ValidWindow(Accept(start))
    ensures Accept(start).status == 0 && Accept(start).acceptedBitmapBits == 8192
    ensures Accept(start).acceptedWindowChunks ==
            if start.windowChunks <= 8192 then start.windowChunks else 8192
    ensures Accept(start).acceptedAckIntervalMs == start.ackIntervalMs
    ensures DecodeStartAck(EncodeStartAck(Accept(start))) == Some(Accept(start))
  {
    StartAckRoundTrip(Accept(start));
  }

  function OnStartAck(c: Config, payload: seq<Byte>, now: int): (x: Client)
    requires Runnable(c)
    ensures ClientOk(c, x)
  {
    match DecodeStartAck(payload)
    case None => Failed
    case Some(a) =>
      if a.status != STATUS_OK || !ValidWindow(a) then Failed
      else if c.rateBps == 0 then Failed  // there is a window by now, but no pacer for it
      else Transferring(Started(Total(c), a.acceptedWindowChunks, a.acceptedBitmapBits, now))
  }

  /** An ACK without the SACK flag, malformed, or of another bitmap size is ignored. */
  function UsableAck(p: Packet): Option<AckPayload> {
    if p.header.kind == ACK && HasSackFlag(p.header.flags) &&
       DecodeAck(p.payload).Some? && DecodeAck(p.payload).value.bitmapBits == ACK_BITMAP_BITS
    then DecodeAck(p.payload) else None
  }

  function OnCompleteAck(c: Config, s: Sending, payload: seq<Byte>): Client
    requires Runnable(c)
  {
    match DecodeCompleteAck(payload)
    case None => Failed
    case Some(completed) =>
      if completed.status != STATUS_OK then Completing(s)
      else if completed.receivedChunks != Total(c) || completed.receivedBytes != |c.input| then Failed
      else Finished(s, completed)
  }

  /** One datagram arrives at the client. */
  function ClientReceive(c: Config, x: Client, d: Datagram, now: int): (y: Client)
    requires Runnable(c) && ClientOk(c, x)
    ensures ClientOk(c, y)
  {
    match DecodePacket(d)
    case Rejected(_) => x
    case Accepted(p) =>
      if p.header.session != c.session then x
      else
        match x
        case Starting => if p.header.kind == START_ACK then OnStartAck(c, p.payload, now) else x
        case Transferring(s) =>
          if UsableAck(p).Some?
          then Transferring(Act(s, AckArrives(UsableAck(p).value, now))) else x
        case Completing(s) =>
          if p.header.kind == COMPLETE_ACK then OnCompleteAck(c, s, p.payload) else x
        case _ => x
  }

  /** The datagram is a packet of this kind and of the client's session. */
  predicate IsReply(c: Config, d: Datagram, kind: PacketType) {
    match DecodePacket(d)
    case Rejected(_) => false
    case Accepted(p) => p.header.session == c.session && p.header.kind == kind
  }

  /**
   * While starting, only a START_ACK of the session counts, and the first one decides: the transfer
   * opens exactly with status 0, a window from 1 to 8192, 8192 bits and a rate; else the client
   * fails.
   */
  lemma StartDecides(c: Config, d: Datagram, now: int)
    requires Runnable(c)
    ensures var y := ClientReceive(c, Starting, d, now);
      if !IsReply(c, d, START_ACK) then y == Starting
      else
        var a := DecodeStartAck(DecodePacket(d).packet.payload);
        if && a.Some? && a.value.status == 0 && 1 <= a.value.acceptedWindowChunks <= 8192
           && a.value.acceptedBitmapBits == 8192 && c.rateBps > 0
        then y == Transferring(Started(Total(c), a.value.acceptedWindowChunks, 8192, now))
        else y == Failed
  {
    hide DecodePacket, DecodeStartAck, Started;
  }

  /**
   * While completing, only a COMPLETE_ACK of the session counts: one that does not parse fails the
   * client, one with another status than 0 is ignored, and the totals decide the rest.
   */
  lemma CompleteDecides(c: Config, x: Sending, d: Datagram, now: int)
    requires Runnable(c) && ClientOk(c, Completing(x))
    ensures var y := ClientReceive(c, Completing(x), d, now);
      if !IsReply(c, d, COMPLETE_ACK) then y == Completing(x)
      else
        var a := DecodeCompleteAck(DecodePacket(d).packet.payload);
        if a.None? then y == Failed
        else if a.value.status != 0 then y == Completing(x)
        else if a.value.receivedChunks == Total(c) && a.value.receivedBytes == |c.input|
        then y == Finished(x, a.value)
        else y == Failed
  {
    hide DecodePacket, DecodeCompleteAck;
  }

  /** Select, pace, send and mark: the transfer loop's middle part, with the datagram it sends. */
  function ClientSend(c: Config, s: Sending, now: int): (r: (Sending, seq<Datagram>))
    requires Runnable(c) && Sized(s.window) && s.window.total == Total(c)
    ensures Sized(r.0.window) && r.0.window.total == Total(c)
  {
    var d := Transmit(s.window, now).1;
    (Act(s, SendNext(now)),
     if d.None? then [] else [DataDatagram(c, d.value.sequence, d.value.retransmission)])
  }
}
