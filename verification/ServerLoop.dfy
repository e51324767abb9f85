/** The server's DATA/COMPLETE loop in place: tracker, output buffer and ACK coalescing. */
module ServerLoops {
  import opened Types
  import opened Chunks
  import opened Codec
  import opened CodecBuffers
  import opened Receivers
  import opened ReceiverTrackers
  import opened Servers

  class ServerLoop {
    const session: U32
    const start: StartPayload
    const accepted: StartAckPayload
    const tracker: ReceiverTracker
    const output: array<Byte>
    var ackPending: bool
    var packetsSinceAck: U32
    var nextAckTime: int
    var ackNumber: U32
    var firstData: Option<int>
    var lastData: int

    ghost function View(): Transfer
      reads this, tracker, tracker.received, output
    {
      Transfer(session, start, accepted, tracker.View(), output[..], ackPending, packetsSinceAck,
               nextAckTime, ackNumber, firstData, lastData)
    }

    ghost predicate Valid()
      reads this, tracker, tracker.received, output
    {
      TransferOk(View()) && packetsSinceAck < ACK_PACKET_THRESHOLD
    }

    /** The state right after an accepted START: empty tracker, zero-filled output. */
    constructor (session: U32, start: StartPayload, now: int)
      requires Cut(start.fileSize, start.chunkSize, start.totalChunks)
      ensures View() == NewTransfer(session, start, now) && Valid()
      ensures fresh(tracker) && fresh(tracker.received) && fresh(output)
    {
      this.session, this.start, accepted := session, start, Accept(start);
      tracker := new ReceiverTracker(start.totalChunks);
      output := new Byte[start.fileSize](_ => 0);
      ackPending, packetsSinceAck, ackNumber := false, 0, 0;
      nextAckTime := now + Max(1, start.ackIntervalMs) * NS_PER_MS;
      firstData, lastData := None, 0;
      new;
      assert output[..] == Zeros(start.fileSize);
      NewReceiverTracks(start.totalChunks);
    }

    /** Copies one chunk into the output at its offset. */
    method CopyChunk(sequence: U32, payload: seq<Byte>)
      requires Offset(start.chunkSize, sequence) + |payload| <= output.Length
      modifies output
      ensures output[..] == Place(old(output[..]), start.chunkSize, sequence, payload)
    {
      var offset := Offset(start.chunkSize, sequence);
      for i := 0 to |payload|
        invariant forall k: nat | k < output.Length ::
          output[k] == if offset <= k < offset + i then payload[k - offset] else old(output[k])
      {
        output[offset + i] := payload[i];
      }
    }

    /** A chunk seen for the first time is written and marked; a duplicate changes nothing. */
    method StoreData(p: Packet, now: int) returns (duplicate: bool)
      requires Valid() && Fitting(View(), p)
      modifies this`firstData, this`lastData, tracker, tracker.received, output
      ensures duplicate == Has(old(View()).tracker, p.header.number)
      ensures View() == Store(old(View()), p, now) && Valid()
    {
      ghost var was := View();
      StoreOk(was, p, now);
      RangesTile(start.fileSize, start.chunkSize, start.totalChunks, p.header.number);
      duplicate := tracker.HasReceived(p.header.number);
      if !duplicate {
        CopyChunk(p.header.number, p.payload);
        assert View() == was.(output := output[..]);
        var _ := tracker.MarkReceived(p.header.number);
        if firstData.None? {
          firstData := Some(now);
        }
        lastData := now;
      }
    }

    /** The ACK of the tracker as it is; the packet counter may have reached its threshold. */
    method SendAck() returns (d: Datagram)
      requires TransferOk(View())
      modifies this`ackNumber
      ensures d == CurrentAck(old(View()))
      ensures View() == old(View()).(ackNumber := NextNumber(old(ackNumber)))
    {
      var ack := tracker.MakeAckSnapshot(accepted.acceptedBitmapBits);
      d := AckDatagram(session, ackNumber, ack);
      ackNumber := NextNumber(ackNumber);
    }

    /** Counts the packet and sends the ACK when one of the five reasons holds. */
    method Coalesce(urgent: bool, now: int) returns (replies: seq<Datagram>)
      requires Valid()
      modifies this`ackPending, this`packetsSinceAck, this`nextAckTime, this`ackNumber
      ensures Valid() && (View(), replies) == Answer(old(View()), urgent, now)
      ensures ackPending <==> replies == []
      ensures old(ackPending) ==> nextAckTime == old(nextAckTime)
    {
      hide Tracks, Cut, AckDatagram, Snapshot;
      packetsSinceAck := packetsSinceAck + 1;
      if !ackPending {
        ackPending := true;
        nextAckTime := now + Max(1, accepted.acceptedAckIntervalMs) * NS_PER_MS;
      }
      var complete := tracker.IsComplete();
      replies := [];
      if urgent || complete || packetsSinceAck >= ACK_PACKET_THRESHOLD || now >= nextAckTime {
        var d := SendAck();
        ackPending := false;
        packetsSinceAck := 0;
        replies := [d];
      }
    }

    /** Stores the packet, then answers it now or lets the ACK coalesce. */
    method HandleData(p: Packet, now: int) returns (replies: seq<Datagram>)
      requires Valid() && Fitting(View(), p)
      modifies this, tracker, tracker.received, output
      ensures Valid() && (View(), replies) == TakeData(old(View()), p, now)
    {
      var duplicate := StoreData(p, now);
      replies := Coalesce(duplicate || HasRetransmittedFlag(p.header.flags), now);
    }

    /** One turn of the loop: any datagram, the replies, and the totals if this ends the transfer. */
    method HandleDatagram(d: Datagram, fromClient: bool, now: int)
      returns (replies: seq<Datagram>, done: Option<CompleteAckPayload>)
      requires Valid()
      modifies this, tracker, tracker.received, output
      ensures Valid()
      ensures ((if done.None? then Receiving(View()) else TimeWait(View(), done.value)), replies) ==
              Receive(old(View()), d, fromClient, now)
    {
      replies, done := [], None;
      var decoded := DeserializePacket(d);
      if decoded.Rejected? {
        return;
      }
      var p := decoded.packet;
      if p.header.kind == START {
        if fromClient && p.header.session == session {
          replies := [StartAckDatagram(session, accepted)];
        } else {
          replies := [StartAckDatagram(p.header.session, StartAckPayload(STATUS_BUSY, 0, 0, 0))];
        }
        return;
      }
      if !fromClient || p.header.session != session {
        return;
      }
      if p.header.kind == DATA {
        if p.header.number < start.totalChunks &&
           |p.payload| == Length(start.fileSize, start.chunkSize, p.header.number) {
          replies := HandleData(p, now);
        }
        return;
      }
      if p.header.kind != COMPLETE || p.header.number != start.totalChunks || p.payload != [] {
        return;
      }
      replies, done := HandleComplete();
    }

    /** COMPLETE: the totals if every chunk is in, an ACK otherwise. */
    method HandleComplete() returns (replies: seq<Datagram>, done: Option<CompleteAckPayload>)
      requires Valid()
      modifies this`ackNumber
      ensures Valid()
      ensures done.None? <==>
        !Complete(old(View()).tracker) || old(View()).tracker.cumulative != start.totalChunks
      ensures done.None? ==>
        && View() == old(View()).(ackNumber := NextNumber(old(ackNumber)))
        && replies == [CurrentAck(old(View()))]
      ensures done.Some? ==>
        && View() == old(View()) && View().tracker.count < U32_LIMIT
        && done.value == Completed(View())
        && replies == [CompleteAckDatagram(session, start.totalChunks, Completed(View()))]
    {
      CountInRange(View());
      var complete := tracker.IsComplete();
      if !complete || tracker.cumulativeAck != start.totalChunks {
        var d := SendAck();
        return [d], None;
      }
      var time := if firstData.None? then 0
                  else ((lastData - firstData.value) / 1000) % 0x1_0000_0000_0000_0000;
      var totals := CompleteAckPayload(STATUS_OK, tracker.receivedCount, start.fileSize, time);
      return [CompleteAckDatagram(session, start.totalChunks, totals)], Some(totals);
    }
  }
}
