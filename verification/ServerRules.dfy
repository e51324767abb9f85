/**
 * What the server does with every datagram, told from its bytes and from what came before: which
 * ones it ignores, what it stores, exactly when it answers, and what it remembers of the past.
 */
module ServerRules {
  import opened Types
  import opened Chunks
  import opened Codec
  import opened Receivers
  import opened Servers

  // ---------------------------------------------------------------- what is ignored

  /** A DATA packet of the session: a chunk of the file, in exactly its length. */
  predicate IsData(t: Transfer, d: Datagram) {
    match DecodePacket(d)
    case Rejected(_) => false
    case Accepted(p) =>
      && p.header.kind == DATA && p.header.session == t.session
      && p.header.number < t.start.totalChunks
      && |p.payload| == (if t.start.chunkSize <= t.start.fileSize - p.header.number * t.start.chunkSize
                         then t.start.chunkSize
                         else t.start.fileSize - p.header.number * t.start.chunkSize)
  }

  /** A COMPLETE of the session: numbered with the chunk count, and empty. */
  predicate IsEnd(t: Transfer, d: Datagram) {
    match DecodePacket(d)
    case Rejected(_) => false
    case Accepted(p) =>
      && p.header.kind == COMPLETE && p.header.session == t.session
      && p.header.number == t.start.totalChunks && |p.payload| == 0
  }

  predicate IsStart(d: Datagram) {
    DecodePacket(d).Accepted? && DecodePacket(d).packet.header.kind == START
  }

  /** Everything but a START, a DATA packet and a COMPLETE of the session is ignored. */
  lemma OthersIgnored(t: Transfer, d: Datagram, now: int)
    requires TransferOk(t) && !IsStart(d) && !IsData(t, d) && !IsEnd(t, d)
    ensures Receive(t, d, true, now) == (Receiving(t), [])
  {
    hide DecodePacket, TakeData, CurrentAck, Tracks, Cut;
  }

  /** A START changes nothing: the session's own is accepted again, another is told BUSY. */
  lemma StartAgain(t: Transfer, d: Datagram, now: int)
    requires TransferOk(t) && IsStart(d)
    ensures var session := DecodePacket(d).packet.header.session;
      Receive(t, d, true, now) ==
        (Receiving(t),
         [if session == t.session then StartAckDatagram(t.session, t.accepted)
          else StartAckDatagram(session, StartAckPayload(1, 0, 0, 0))])
  {
    hide DecodePacket, TakeData, CurrentAck, Tracks, Cut, StartAckDatagram;
  }

  /** A COMPLETE ends the transfer with the totals exactly when every chunk has come. */
  lemma EndAnswered(t: Transfer, d: Datagram, now: int)
    requires TransferOk(t) && IsEnd(t, d)
    ensures var (s, replies) := Receive(t, d, true, now);
      if forall i: nat | i < t.start.totalChunks :: Has(t.tracker, i) then
        && s.TimeWait? && s.transfer == t
        && s.completed.status == 0 && s.completed.receivedChunks == t.start.totalChunks
        && s.completed.receivedBytes == t.start.fileSize
        && s.completed.receiverTimeUs ==
             (if t.firstData.None? then 0
              else ((t.lastData - t.firstData.value) / 1000) % 0x1_0000_0000_0000_0000)
        && replies == [CompleteAckDatagram(t.session, t.start.totalChunks, s.completed)]
      else
        && s == Receiving(t.(ackNumber := (t.ackNumber + 1) % 0x1_0000_0000))
        && replies == [AckDatagram(t.session, t.ackNumber, Snapshot(t.tracker, 8192))]
  {
    hide DecodePacket, TakeData, AckDatagram, CompleteAckDatagram, Cut;
    CompleteMeansAll(t.tracker);
    CountInRange(t);
  }

  /** After the end only a COMPLETE of the session is answered, and always with the same totals. */
  lemma LingersExactly(t: Transfer, completed: CompleteAckPayload, d: Datagram)
    ensures Linger(t, completed, d, true) ==
            if IsEnd(t, d) then [CompleteAckDatagram(t.session, t.start.totalChunks, completed)] else []
  {
    hide DecodePacket, CompleteAckDatagram;
  }

  // ---------------------------------------------------------------- what is stored

  lemma DataIsTaken(t: Transfer, d: Datagram, now: int)
    requires TransferOk(t) && IsData(t, d)
    ensures Fitting(t, DecodePacket(d).packet)
    ensures Receive(t, d, true, now) ==
            (Receiving(TakeData(t, DecodePacket(d).packet, now).0), TakeData(t, DecodePacket(d).packet, now).1)
  {
    hide DecodePacket, TakeData, Tracks, Cut;
  }

  /** The chunk is received afterwards and no other is; a new one is written at its place alone. */
  lemma DataStored(t: Transfer, d: Datagram, now: int)
    requires TransferOk(t) && IsData(t, d)
    ensures var (p, s) := (DecodePacket(d).packet, Receive(t, d, true, now).0);
      && s.Receiving?
      && (forall i: nat :: Has(s.transfer.tracker, i) <==> Has(t.tracker, i) || i == p.header.number)
      && |s.transfer.output| == |t.output|
      && forall k: nat | k < |t.output| ::
           s.transfer.output[k] ==
             var at := p.header.number * t.start.chunkSize;
             if !Has(t.tracker, p.header.number) && at <= k < at + |p.payload|
             then p.payload[k - at] else t.output[k]
  {
    hide DecodePacket, CurrentAck, FirstMissing;
    DataIsTaken(t, d, now);
    var p := DecodePacket(d).packet;
    StoreOk(t, p, now);
    MarkReceivedTracks(t.tracker, p.header.number);
    RangesTile(t.start.fileSize, t.start.chunkSize, t.start.totalChunks, p.header.number);
  }

  // ---------------------------------------------------------------- when it is answered

  /** The interval the client asked for, at least one millisecond. */
  function IntervalNs(t: Transfer): int {
    if t.accepted.acceptedAckIntervalMs == 0 then 1_000_000
    else t.accepted.acceptedAckIntervalMs * 1_000_000
  }

  /**
   * DATA is answered exactly if it is a duplicate, or flagged as a retransmission (bit 1), or the
   * last chunk, or the thirty-second packet since an ACK, or an ACK is pending and due. The due
   * time is set by the first packet that has to wait, and moved by none.
   */
  lemma DataAnsweredExactly(t: Transfer, d: Datagram, now: int)
    requires TransferOk(t) && IsData(t, d)
    ensures var (p, s, replies) :=
        (DecodePacket(d).packet, Receive(t, d, true, now).0, Receive(t, d, true, now).1);
      && s.Receiving?
      && (replies != [] <==>
            || Has(t.tracker, p.header.number)
            || p.header.flags / 2 % 2 == 1
            || (forall i: nat | i < t.start.totalChunks :: Has(s.transfer.tracker, i))
            || t.packetsSinceAck + 1 >= 32
            || (t.ackPending && now >= t.nextAckTime))
      && (s.transfer.ackPending <==> replies == [])
      && s.transfer.packetsSinceAck == (if replies == [] then t.packetsSinceAck + 1 else 0)
      && s.transfer.tracker.cumulative < U32_LIMIT && s.transfer.tracker.largest < U32_LIMIT
      && (replies != [] ==>
            replies == [AckDatagram(t.session, t.ackNumber, Snapshot(s.transfer.tracker, 8192))])
      && s.transfer.nextAckTime == (if t.ackPending then t.nextAckTime else now + IntervalNs(t))
      && s.transfer.ackNumber == (if replies == [] then t.ackNumber else (t.ackNumber + 1) % 0x1_0000_0000)
  {
    hide DecodePacket, AckDatagram, Snapshot, Place, FirstMissing, Cut;
    DataIsTaken(t, d, now);
    var p := DecodePacket(d).packet;
    StoreOk(t, p, now);
    CompleteMeansAll(Store(t, p, now).tracker);
  }
}
