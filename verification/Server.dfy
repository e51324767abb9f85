/** The server as a value: START validation, then one step per received datagram. */
module Servers {
  import opened Types
  import opened Chunks
  import opened Codec
  import opened Receivers

  const ACK_PACKET_THRESHOLD: nat := 32

  datatype Transfer = Transfer(
    session: U32, start: StartPayload, accepted: StartAckPayload,
    tracker: Receiver, output: seq<Byte>,
    ackPending: bool, packetsSinceAck: U32, nextAckTime: int, ackNumber: U32,
    firstData: Option<int>, lastData: int)

  datatype Server =
    | Listening
    | Receiving(transfer: Transfer)
    | TimeWait(transfer: Transfer, completed: CompleteAckPayload)
    | Stopped  // an exception ended the program

  /** Sizes agree, and the tracker is in order. */
  ghost predicate TransferOk(t: Transfer) {
    && Cut(t.start.fileSize, t.start.chunkSize, t.start.totalChunks)
    && |t.output| == t.start.fileSize
    && |t.tracker.received| == t.start.totalChunks
    && t.accepted.acceptedBitmapBits == ACK_BITMAP_BITS
    && Tracks(t.tracker)
  }

  ghost predicate ServerOk(s: Server) {
    match s
    case Receiving(t) => TransferOk(t)
    case TimeWait(t, _) => TransferOk(t)
    case _ => true
  }

  /** A datagram with a payload that fits the 16-bit length field. */
  function Pack(kind: PacketType, session: U32, number: U32, flags: U16, payload: seq<Byte>): Datagram
    requires |payload| <= 0xFFFF
  {
    EncodePacket(MakeHeader(kind, session, number, flags), payload).value
  }

  function StartAckDatagram(session: U32, response: StartAckPayload): Datagram {
    PayloadWidths();
    Pack(START_ACK, session, 0, 0, EncodeStartAck(response))
  }

  function AckDatagram(session: U32, number: U32, ack: AckPayload): Datagram
    requires |ack.bitmap| == BitmapBytes(ack.bitmapBits)
  {
    PayloadWidths();
    Pack(ACK, session, number, FLAG_SACK, EncodeAck(ack).value)
  }

  function CompleteAckDatagram(session: U32, total: U32, completed: CompleteAckPayload): Datagram {
    PayloadWidths();
    Pack(COMPLETE_ACK, session, total, 0, EncodeCompleteAck(completed))
  }

  /** The cumulative ACK and SACK bitmap for the current tracker. */
  ghost function CurrentAck(t: Transfer): Datagram
    requires TransferOk(t)
  {
    AckDatagram(t.session, t.ackNumber, Snapshot(t.tracker, t.accepted.acceptedBitmapBits))
  }

  function NextNumber(n: U32): U32 {
    (n + 1) % U32_LIMIT
  }

  function AckInterval(t: Transfer): int {
    Max(1, t.accepted.acceptedAckIntervalMs) * NS_PER_MS
  }

  // ---------------------------------------------------------------- START

  /** `None` where the validation itself throws. */
  function ValidStart(mtu: U32, start: StartPayload): Option<bool>
    requires ChunkSizeForMtu(mtu).Some?
  {
    if start.chunkSize != ChunkSizeForMtu(mtu).value then Some(false)
    else
      match ChunkCount(start.fileSize, start.chunkSize)
      case None => None
      case Some(count) =>
        Some(start.totalChunks == count && start.windowChunks > 0 &&
             start.ackBitmapBits == ACK_BITMAP_BITS)
  }

  function Accept(start: StartPayload): StartAckPayload {
    StartAckPayload(STATUS_OK, Min(start.windowChunks, ACK_BITMAP_BITS), ACK_BITMAP_BITS,
                    start.ackIntervalMs)
  }

  function NewTransfer(session: U32, start: StartPayload, now: int): Transfer {
    Transfer(session, start, Accept(start), NewReceiver(start.totalChunks), Zeros(start.fileSize),
             false, 0, now + Max(1, start.ackIntervalMs) * NS_PER_MS, 0, None, 0)
  }

  function Listen(mtu: U32, d: Datagram, now: int): (Server, seq<Datagram>)
    requires ChunkSizeForMtu(mtu).Some?
  {
    match DecodePacket(d)
    case Rejected(_) => (Listening, [])
    case Accepted(p) =>
      if p.header.kind != START || p.header.session == 0 || p.header.number != 0 ||
         DecodeStart(p.payload).None?
      then (Listening, [])
      else
        var start := DecodeStart(p.payload).value;
        match ValidStart(mtu, start)
        case None => (Stopped, [])
        case Some(false) =>
          (Listening, [StartAckDatagram(p.header.session,
                                        StartAckPayload(STATUS_INVALID_REQUEST, 0, 0, 0))])
        case Some(true) =>
          (Receiving(NewTransfer(p.header.session, start, now)),
           [StartAckDatagram(p.header.session, Accept(start))])
  }

  /** The START that a waiting server takes a datagram for, if any. */
  function StartIn(d: Datagram): Option<StartPayload> {
    match DecodePacket(d)
    case Rejected(_) => None
    case Accepted(p) =>
      if p.header.kind != START || p.header.session == 0 || p.header.number != 0 then None
      else DecodeStart(p.payload)
  }

  /** The validation throws exactly on a right chunk size with a file too large for it. */
  lemma ValidationThrows(mtu: U32, start: StartPayload)
    requires ChunkSizeForMtu(mtu).Some?
    ensures ValidStart(mtu, start).None? <==>
      && start.chunkSize == ChunkSizeForMtu(mtu).value
      && start.fileSize > (U32_LIMIT - 1) * start.chunkSize
  {
    hide ChunkCount;
    if start.chunkSize == ChunkSizeForMtu(mtu).value {
      CountFits(start.fileSize, start.chunkSize);
    }
  }

  /**
   * What a waiting server does with any datagram whatever: an exception ends it exactly on a
   * START of the right chunk size whose file needs more than 2^32 - 1 chunks; the transfer opens
   * exactly on a START whose numbers all agree; otherwise it goes on waiting.
   */
  lemma WaitingServerDecides(mtu: U32, d: Datagram, now: int)
    requires ChunkSizeForMtu(mtu).Some?
    ensures Listen(mtu, d, now).0.Stopped? <==>
      && StartIn(d).Some?
      && var start := StartIn(d).value;
        && start.chunkSize == ChunkSizeForMtu(mtu).value
        && start.fileSize > (U32_LIMIT - 1) * start.chunkSize
    ensures Listen(mtu, d, now).0.Receiving? <==>
      && StartIn(d).Some?
      && var start := StartIn(d).value;
        && start.chunkSize == ChunkSizeForMtu(mtu).value
        && Cut(start.fileSize, start.chunkSize, start.totalChunks)
        && start.windowChunks > 0 && start.ackBitmapBits == ACK_BITMAP_BITS
    ensures !Listen(mtu, d, now).0.TimeWait?
    ensures Listen(mtu, d, now).1 ==
      if StartIn(d).None? || Listen(mtu, d, now).0.Stopped? then []
      else
        [StartAckDatagram(DecodePacket(d).packet.header.session,
                          if Listen(mtu, d, now).0.Receiving? then Accept(StartIn(d).value)
                          else StartAckPayload(2, 0, 0, 0))]
  {
    hide DecodePacket, DecodeStart, ChunkCount, NewTransfer, StartAckDatagram;
    if StartIn(d).Some? {
      ValidationThrows(mtu, StartIn(d).value);
    }
  }

  // ---------------------------------------------------------------- DATA and COMPLETE

  /** A DATA packet the server does not drop: known chunk, exact length. */
  predicate Fitting(t: Transfer, p: Packet) {
    && p.header.number < t.start.totalChunks
    && |p.payload| == Length(t.start.fileSize, t.start.chunkSize, p.header.number)
  }

  /** Placement: a chunk is written when it is new, and only then. */
  ghost function Store(t: Transfer, p: Packet, now: int): Transfer
    requires TransferOk(t) && Fitting(t, p)
  {
    if Has(t.tracker, p.header.number) then t
    else
      RangesTile(t.start.fileSize, t.start.chunkSize, t.start.totalChunks, p.header.number);
      t.(output := Place(t.output, t.start.chunkSize, p.header.number, p.payload),
         tracker := MarkReceived(t.tracker, p.header.number).0,
         firstData := if t.firstData.None? then Some(now) else t.firstData,
         lastData := now)
  }

  lemma StoreOk(t: Transfer, p: Packet, now: int)
    requires TransferOk(t) && Fitting(t, p)
    ensures TransferOk(Store(t, p, now))
  {
    MarkReceivedTracks(t.tracker, p.header.number);
  }

  /** When the ACK now pending, or made pending by this packet, is due. */
  function AckDue(t: Transfer, now: int): int {
    if t.ackPending then t.nextAckTime else now + AckInterval(t)
  }

  /** Whether the packet just stored must be answered at once. */
  predicate MustAckNow(stored: Transfer, urgent: bool, now: int) {
    || urgent
    || Complete(stored.tracker)
    || stored.packetsSinceAck + 1 >= ACK_PACKET_THRESHOLD
    || now >= AckDue(stored, now)
  }

  /** Answer now, or let the ACK coalesce with later packets. */
  ghost function Answer(stored: Transfer, urgent: bool, now: int): (r: (Transfer, seq<Datagram>))
    requires TransferOk(stored)
    ensures TransferOk(r.0)
  {
    if MustAckNow(stored, urgent, now) then
      (stored.(ackPending := false, packetsSinceAck := 0, nextAckTime := AckDue(stored, now),
               ackNumber := NextNumber(stored.ackNumber)),
       [CurrentAck(stored)])
    else
      (stored.(ackPending := true, packetsSinceAck := stored.packetsSinceAck + 1,
               nextAckTime := AckDue(stored, now)), [])
  }

  /** A duplicate or a packet marked as retransmitted is answered without delay. */
  predicate Urgent(t: Transfer, p: Packet) {
    Has(t.tracker, p.header.number) || HasRetransmittedFlag(p.header.flags)
  }

  ghost function TakeData(t: Transfer, p: Packet, now: int): (r: (Transfer, seq<Datagram>))
    requires TransferOk(t) && Fitting(t, p)
    ensures TransferOk(r.0)
  {
    StoreOk(t, p, now);
    Answer(Store(t, p, now), Urgent(t, p), now)
  }

  /** A pending ACK is due within one interval of the latest packet. */
  predicate Prompt(t: Transfer, now: int) {
    t.ackPending ==> t.nextAckTime <= now + AckInterval(t)
  }

  /** A packet is left unanswered only before the due time, which is never more than an interval away. */
  lemma AckDelayBounded(t: Transfer, p: Packet, earlier: int, now: int)
    requires TransferOk(t) && Fitting(t, p) && Prompt(t, earlier) && earlier <= now
    ensures var (v, replies) := TakeData(t, p, now);
      && Prompt(v, now)
      && (replies == [] <==> v.ackPending)
      && (replies == [] ==> now < v.nextAckTime <= now + AckInterval(t))
  {
    StoreOk(t, p, now);
  }

  /** The receiver's data time in microseconds, as the 64-bit field carries it. */
  function DataTimeUs(t: Transfer): U64 {
    if t.firstData.None? then 0
    else ((t.lastData - t.firstData.value) / 1000) % 0x1_0000_0000_0000_0000
  }

  function Completed(t: Transfer): CompleteAckPayload
    requires t.tracker.count < U32_LIMIT
  {
    CompleteAckPayload(STATUS_OK, t.tracker.count, t.start.fileSize, DataTimeUs(t))
  }

  predicate IsComplete(t: Transfer, p: Packet) {
    p.header.kind == COMPLETE && p.header.number == t.start.totalChunks && p.payload == []
  }

  lemma CountInRange(t: Transfer)
    requires TransferOk(t)
    ensures t.tracker.count <= |t.tracker.received|
  {
    SubsetSize(ReceivedSet(t.tracker.received), UpTo(|t.tracker.received|));
  }

  /** One datagram, from the client's address or from another one. */
  ghost function Receive(t: Transfer, d: Datagram, fromClient: bool, now: int)
    : (r: (Server, seq<Datagram>))
    requires TransferOk(t)
    ensures ServerOk(r.0)
  {
    match DecodePacket(d)
    case Rejected(_) => (Receiving(t), [])
    case Accepted(p) =>
      if p.header.kind == START then
        (Receiving(t),
         [if fromClient && p.header.session == t.session then StartAckDatagram(t.session, t.accepted)
          else StartAckDatagram(p.header.session, StartAckPayload(STATUS_BUSY, 0, 0, 0))])
      else if !fromClient || p.header.session != t.session then (Receiving(t), [])
      else if p.header.kind == DATA then
        if Fitting(t, p) then
          var (v, replies) := TakeData(t, p, now);
          (Receiving(v), replies)
        else (Receiving(t), [])
      else if !IsComplete(t, p) then (Receiving(t), [])
      else if !Complete(t.tracker) || t.tracker.cumulative != t.start.totalChunks then
        (Receiving(t.(ackNumber := NextNumber(t.ackNumber))), [CurrentAck(t)])
      else
        CountInRange(t);
        (TimeWait(t, Completed(t)),
         [CompleteAckDatagram(t.session, t.start.totalChunks, Completed(t))])
  }

  /** After completion only a repeated COMPLETE is answered. */
  function Linger(t: Transfer, completed: CompleteAckPayload, d: Datagram, fromClient: bool)
    : seq<Datagram>
  {
    match DecodePacket(d)
    case Rejected(_) => []
    case Accepted(p) =>
      if fromClient && p.header.session == t.session && IsComplete(t, p)
      then [CompleteAckDatagram(t.session, t.start.totalChunks, completed)] else []
  }

  /** Another endpoint changes nothing: it is told the server is busy, or nothing at all. */
  lemma StrangersChangeNothing(t: Transfer, completed: CompleteAckPayload, d: Datagram, now: int)
    requires TransferOk(t)
    ensures Receive(t, d, false, now).0 == Receiving(t)
    ensures var replies := Receive(t, d, false, now).1;
      replies != [] ==>
        && DecodePacket(d).Accepted?
        && replies == [StartAckDatagram(DecodePacket(d).packet.header.session,
                                        StartAckPayload(STATUS_BUSY, 0, 0, 0))]
    ensures Linger(t, completed, d, false) == []
  {
  }

  /** One datagram arrives: the next server and what it sends. */
  ghost function ServerReceive(mtu: U32, s: Server, d: Datagram, now: int): (r: (Server, seq<Datagram>))
    requires ChunkSizeForMtu(mtu).Some? && ServerOk(s)
    ensures ServerOk(r.0)
  {
    match s
    case Listening =>
      ListenOk(mtu, d, now);
      Listen(mtu, d, now)
    case Receiving(t) => Receive(t, d, true, now)
    case TimeWait(t, completed) => (s, Linger(t, completed, d, true))
    case Stopped => (s, [])
  }

  /** A DATA packet of the session that fits goes to `TakeData`. */
  lemma DataTaken(mtu: U32, t: Transfer, d: Datagram, now: int)
    requires ChunkSizeForMtu(mtu).Some? && TransferOk(t) && DecodePacket(d).Accepted?
    requires DecodePacket(d).packet.header.session == t.session
    requires DecodePacket(d).packet.header.kind == DATA && Fitting(t, DecodePacket(d).packet)
    ensures ServerReceive(mtu, Receiving(t), d, now) ==
            (Receiving(TakeData(t, DecodePacket(d).packet, now).0), TakeData(t, DecodePacket(d).packet, now).1)
  {
  }

  lemma ListenOk(mtu: U32, d: Datagram, now: int)
    requires ChunkSizeForMtu(mtu).Some?
    ensures ServerOk(Listen(mtu, d, now).0)
  {
    var s := Listen(mtu, d, now).0;
    if s.Receiving? {
      NewReceiverTracks(s.transfer.start.totalChunks);
    }
  }

  /** No datagram, whatever it holds, leaves an ACK pending for longer than one interval. */
  lemma ReceivePrompt(mtu: U32, s: Server, d: Datagram, earlier: int, now: int)
    requires ChunkSizeForMtu(mtu).Some? && ServerOk(s) && earlier <= now
    requires s.Receiving? || s.TimeWait? ==> Prompt(s.transfer, earlier)
    ensures var v := ServerReceive(mtu, s, d, now).0;
      v.Receiving? || v.TimeWait? ==> Prompt(v.transfer, now)
  {
    hide DecodePacket, CurrentAck, StartAckDatagram, CompleteAckDatagram, Place, MarkReceived;
  }

  /** A pending ACK has something to report. */
  predicate Backed(t: Transfer) {
    t.ackPending ==> t.tracker.count > 0
  }

  lemma StoredCounts(t: Transfer, p: Packet, now: int)
    requires TransferOk(t) && Fitting(t, p)
    ensures Store(t, p, now).tracker.count > 0
  {
    hide Cut, Place;
    if Has(t.tracker, p.header.number) {
      var n: nat := p.header.number;
      assert n in ReceivedSet(t.tracker.received);
    }
  }

  lemma ReceiveBacked(mtu: U32, s: Server, d: Datagram, now: int)
    requires ChunkSizeForMtu(mtu).Some? && ServerOk(s)
    requires s.Receiving? || s.TimeWait? ==> Backed(s.transfer)
    ensures var v := ServerReceive(mtu, s, d, now).0;
      v.Receiving? || v.TimeWait? ==> Backed(v.transfer)
  {
    hide DecodePacket, CurrentAck, StartAckDatagram, CompleteAckDatagram, Store, Tracks;
    if s.Receiving? && DecodePacket(d).Accepted? && Fitting(s.transfer, DecodePacket(d).packet) {
      StoredCounts(s.transfer, DecodePacket(d).packet, now);
    }
  }

  /** Whatever arrives, a completed transfer keeps its output: late packets change no byte. */
  lemma CompletedOutputFrozen(mtu: U32, s: Server, d: Datagram, now: int)
    requires ChunkSizeForMtu(mtu).Some? && ServerOk(s)
    requires s.TimeWait? || (s.Receiving? && Complete(s.transfer.tracker))
    ensures var v := ServerReceive(mtu, s, d, now).0;
      && (v.TimeWait? || v.Receiving?)
      && v.transfer.tracker == s.transfer.tracker && v.transfer.output == s.transfer.output
  {
    hide Tracks, DecodePacket, CurrentAck, StartAckDatagram, CompleteAckDatagram;
    if s.Receiving? {
      CompleteMeansAll(s.transfer.tracker);
    }
  }
}
