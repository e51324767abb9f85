/** Every step of the composed system keeps the system invariant. */
module SystemInvariant {
  import opened Types
  import opened Chunks
  import opened Codec
  import opened Receivers
  import opened Windows
  import opened WindowProperties
  import opened Sending
  import opened Servers
  import opened Clients
  import opened Systems

  // ---------------------------------------------------------------- datagrams decode

  lemma PackDecodes(kind: PacketType, session: U32, number: U32, flags: U16, payload: seq<Byte>)
    requires |payload| <= 0xFFFF && !HasCrcFlag(flags)
    ensures DecodePacket(Pack(kind, session, number, flags, payload)) ==
            Accepted(Packet(MakeHeader(kind, session, number, flags).(payloadLength := |payload|), payload))
  {
    PacketRoundTrip(MakeHeader(kind, session, number, flags), payload);
  }

  lemma StartDecodes(c: Config)
    requires Runnable(c)
    ensures DecodePacket(StartDatagram(c)).Accepted?
    ensures var p := DecodePacket(StartDatagram(c)).packet;
      && p.header.kind == START && p.header.session == c.session && p.header.number == 0
      && DecodeStart(p.payload) == Some(StartOf(c))
  {
    hide DecodePacket, EncodePacket, StartOf;
    PayloadWidths();
    PackDecodes(START, c.session, 0, 0, EncodeStart(StartOf(c)));
    StartRoundTrip(StartOf(c));
  }

  lemma StartLegal(c: Config, x: Client)
    requires Runnable(c)
    ensures LegalRequest(c, x, StartDatagram(c))
  {
    hide DecodePacket, StartDatagram;
    StartDecodes(c);
  }

  lemma DataDecodes(c: Config, i: nat, retransmission: bool)
    requires Runnable(c) && i < Total(c)
    ensures DecodePacket(DataDatagram(c, i, retransmission)).Accepted?
    ensures 0 <= Length(|c.input|, ChunkSize(c), i)
    ensures var p := DecodePacket(DataDatagram(c, i, retransmission)).packet;
      && p.header.session == c.session && p.header.kind == DATA && p.header.number == i
      && (retransmission <==> HasRetransmittedFlag(p.header.flags))
      && p.payload == Slice(c.input, ChunkSize(c), i)
  {
    hide DecodePacket, EncodePacket;
    InputTiles(c, i);
    PackDecodes(DATA, c.session, i, if retransmission then FLAG_RETRANSMITTED else 0,
                Slice(c.input, ChunkSize(c), i));
  }

  lemma DataLegal(c: Config, x: Client, i: nat, retransmission: bool)
    requires Runnable(c) && i < Total(c) && i < NextOf(x)
    ensures LegalRequest(c, x, DataDatagram(c, i, retransmission))
  {
    hide DecodePacket, DataDatagram;
    DataDecodes(c, i, retransmission);
  }

  lemma CompleteLegal(c: Config, x: Client)
    requires Runnable(c) && (x.Completing? || x.Finished?)
    ensures LegalRequest(c, x, CompleteDatagram(c))
    ensures DecodePacket(CompleteDatagram(c)).packet.header.kind == COMPLETE
  {
    PackDecodes(COMPLETE, c.session, Total(c), 0, []);
  }

  lemma StartAckLegal(c: Config, s: Server)
    requires Runnable(c) && Active(s)
    ensures var d := StartAckDatagram(c.session, Accept(StartOf(c)));
      LegalReply(c, s, d) && AckOf(d).None?
  {
    PayloadWidths();
    PackDecodes(START_ACK, c.session, 0, 0, EncodeStartAck(Accept(StartOf(c))));
    StartAckRoundTrip(Accept(StartOf(c)));
  }

  lemma CompleteAckLegal(c: Config, s: Server, p: CompleteAckPayload)
    requires Runnable(c) && s.TimeWait? && GoodTotals(c, p)
    ensures var d := CompleteAckDatagram(c.session, Total(c), p);
      LegalReply(c, s, d) && AckOf(d).None?
    ensures DecodePacket(CompleteAckDatagram(c.session, Total(c), p)).packet.header.kind == COMPLETE_ACK
  {
    PayloadWidths();
    PackDecodes(COMPLETE_ACK, c.session, Total(c), 0, EncodeCompleteAck(p));
    CompleteAckRoundTrip(p);
  }

  lemma AckDatagramDecodes(session: U32, number: U32, ack: AckPayload)
    requires ack.bitmapBits == ACK_BITMAP_BITS && |ack.bitmap| == BitmapBytes(ack.bitmapBits)
    ensures var d := AckDatagram(session, number, ack);
      && DecodePacket(d).Accepted?
      && DecodePacket(d).packet.header.kind == ACK
      && DecodePacket(d).packet.header.session == session
      && AckOf(d) == Some(ack)
  {
    hide EncodeFields, DecodeFields;
    PayloadWidths();
    PackDecodes(ACK, session, number, FLAG_SACK, EncodeAck(ack).value);
    AckRoundTrip(ack);
  }

  /** The ACK the server sends decodes to the tracker's snapshot. */
  lemma CurrentAckDecodes(t: Transfer)
    requires TransferOk(t)
    ensures DecodePacket(CurrentAck(t)).Accepted?
    ensures DecodePacket(CurrentAck(t)).packet.header.kind == ACK
    ensures DecodePacket(CurrentAck(t)).packet.header.session == t.session
    ensures AckOf(CurrentAck(t)) == Some(Snapshot(t.tracker, ACK_BITMAP_BITS))
  {
    AckDatagramDecodes(t.session, t.ackNumber, Snapshot(t.tracker, ACK_BITMAP_BITS));
  }

  // ---------------------------------------------------------------- snapshots are exact

  /** Reports exactly what the server has. */
  ghost predicate Exact(d: Datagram, s: Server) {
    AckOf(d).Some? && forall i: nat :: Reports(AckOf(d).value, i) <==> HasAt(s, i)
  }

  /** The sender's base never passes the receiver's cumulative ACK, and the coverage suffices. */
  lemma CoverageSuffices(c: Config, x: Client, s: Server)
    requires Runnable(c) && Active(s) && TransferFor(c, s.transfer)
    requires HasWindow(x) ==> WindowFor(c, x.sending)
    requires forall i: nat | AckedAt(x, i) :: HasAt(s, i)
    requires forall i: nat | HasAt(s, i) :: i < NextOf(x)
    ensures HasWindow(x) ==> x.sending.window.base <= s.transfer.tracker.cumulative
    ensures s.transfer.tracker.largest <= s.transfer.tracker.cumulative + ACK_BITMAP_BITS
  {
    var r := s.transfer.tracker;
    if HasWindow(x) {
      var w := x.sending.window;
      assert r.cumulative < w.base ==> AckedAt(x, r.cumulative);
      assert r.cumulative < w.base ==> HasAt(s, r.cumulative);
      assert w.base <= r.cumulative;
    }
    assert r.largest > 0 ==> HasAt(s, r.largest - 1);
  }

  lemma AckIsExact(c: Config, x: Client, s: Server, t: Transfer)
    requires Runnable(c) && Active(s) && TransferFor(c, s.transfer)
    requires HasWindow(x) ==> WindowFor(c, x.sending)
    requires forall i: nat | AckedAt(x, i) :: HasAt(s, i)
    requires forall i: nat | HasAt(s, i) :: i < NextOf(x)
    requires TransferOk(t) && t.tracker == s.transfer.tracker && t.session == c.session
    ensures Exact(CurrentAck(t), s)
    ensures LegalReply(c, s, CurrentAck(t))
  {
    CoverageSuffices(c, x, s);
    CurrentAckDecodes(t);
    SnapshotExact(t.tracker, ACK_BITMAP_BITS);
    forall i: nat ensures Reports(AckOf(CurrentAck(t)).value, i) <==> HasAt(s, i) {
      assert Reports(Snapshot(t.tracker, ACK_BITMAP_BITS), i) <==> Has(t.tracker, i);
    }
  }

  // ---------------------------------------------------------------- moving one end

  lemma RequestsStay(c: Config, x: Client, y: Client, d: Datagram)
    requires Runnable(c) && LegalRequest(c, x, d)
    requires NextOf(x) <= NextOf(y)
    requires x.Completing? || x.Finished? ==> y.Completing? || y.Finished?
    ensures LegalRequest(c, y, d)
  {
  }

  lemma RepliesStay(c: Config, s: Server, v: Server, d: Datagram)
    requires Runnable(c) && LegalReply(c, s, d)
    requires (Active(s) ==> Active(v)) && (s.TimeWait? ==> v.TimeWait?)
    requires forall i: nat | HasAt(s, i) :: HasAt(v, i)
    ensures LegalReply(c, v, d)
  {
  }

  lemma RequestsGrow(c: Config, x: Client, y: Client, requests: seq<Datagram>, sent: seq<Datagram>)
    requires Runnable(c)
    requires forall k: nat | k < |requests| :: LegalRequest(c, x, requests[k])
    requires NextOf(x) <= NextOf(y)
    requires x.Completing? || x.Finished? ==> y.Completing? || y.Finished?
    requires |sent| <= 1 && (sent != [] ==> LegalRequest(c, y, sent[0]))
    ensures forall k: nat | k < |requests + sent| :: LegalRequest(c, y, (requests + sent)[k])
  {
    hide LegalRequest;
    forall k: nat | k < |requests + sent| ensures LegalRequest(c, y, (requests + sent)[k]) {
      if k < |requests| {
        assert LegalRequest(c, x, requests[k]);
        RequestsStay(c, x, y, requests[k]);
      }
    }
  }

  /** The client moves on, possibly sending one legal datagram. */
  lemma ClientMoves(c: Config, s: System, y: Client, sent: seq<Datagram>, now: int)
    requires Runnable(c) && SystemInv(c, s) && s.clock <= now
    requires ClientInv(c, y, now)
    requires NextOf(s.client) <= NextOf(y)
    requires s.client.Completing? || s.client.Finished? ==> y.Completing? || y.Finished?
    requires HasWindow(y) ==> Active(s.server)
    requires forall i: nat | AckedAt(y, i) :: HasAt(s.server, i)
    requires |sent| <= 1 && (sent != [] ==> LegalRequest(c, y, sent[0]))
    ensures SystemInv(c, s.(client := y, toServer := s.toServer + sent, clock := now))
  {
    hide LegalRequest, LegalReply, Ordered, Coalesced, ClientInv, ServerInv;
    RequestsGrow(c, s.client, y, s.toServer, sent);
  }

  /** Whatever a legal ACK reports, the server has. */
  lemma LegalAckReports(c: Config, s: Server, d: Datagram)
    requires Runnable(c) && LegalReply(c, s, d) && AckOf(d).Some?
    ensures forall i: nat | Reports(AckOf(d).value, i) :: HasAt(s, i)
  {
    hide DecodePacket, StartOf, Reports;
  }

  lemma OrderedAppend(c: Config, s: Server, v: Server, replies: seq<Datagram>, d: Datagram)
    requires Runnable(c) && Ordered(replies)
    requires forall k: nat | k < |replies| :: LegalReply(c, s, replies[k])
    requires forall i: nat | HasAt(s, i) :: HasAt(v, i)
    requires AckOf(d).Some? ==> Exact(d, v)
    ensures Ordered(replies + [d])
  {
    hide AckOf, LegalReply, Reports;
    var all := replies + [d];
    forall j: nat, k: nat | j <= k < |all| ensures Covers(all[j], all[k]) {
      if k < |replies| {
        assert Covers(replies[j], replies[k]);
      } else if j < |replies| && AckOf(replies[j]).Some? {
        LegalAckReports(c, s, replies[j]);
      }
    }
  }

  lemma RepliesGrow(c: Config, s: Server, v: Server, replies: seq<Datagram>, sent: seq<Datagram>)
    requires Runnable(c) && Ordered(replies)
    requires forall k: nat | k < |replies| :: LegalReply(c, s, replies[k])
    requires Active(s) ==> Active(v)
    requires s.TimeWait? ==> v.TimeWait?
    requires forall i: nat | HasAt(s, i) :: HasAt(v, i)
    requires |sent| <= 1
    requires sent != [] ==> LegalReply(c, v, sent[0])
    requires sent != [] && AckOf(sent[0]).Some? ==> Exact(sent[0], v)
    ensures Ordered(replies + sent)
    ensures forall k: nat | k < |replies + sent| :: LegalReply(c, v, (replies + sent)[k])
  {
    hide LegalReply, Exact, AckOf;
    forall k: nat | k < |replies + sent| ensures LegalReply(c, v, (replies + sent)[k]) {
      if k < |replies| {
        assert LegalReply(c, s, replies[k]);
        RepliesStay(c, s, v, replies[k]);
      }
    }
    if sent != [] {
      assert sent == [sent[0]];
      OrderedAppend(c, s, v, replies, sent[0]);
    } else {
      assert replies + sent == replies;
    }
  }

  /** The server moves on, possibly sending one legal datagram; an ACK is an exact snapshot. */
  lemma ServerMoves(c: Config, s: System, v: Server, sent: seq<Datagram>, now: int)
    requires Runnable(c) && SystemInv(c, s) && s.clock <= now
    requires ServerInv(c, v) && Linked(s.client, v)
    requires Active(s.server) ==> Active(v)
    requires s.server.TimeWait? ==> v.TimeWait?
    requires forall i: nat | HasAt(s.server, i) :: HasAt(v, i)
    requires |sent| <= 1
    requires sent != [] ==> LegalReply(c, v, sent[0])
    requires sent != [] && AckOf(sent[0]).Some? ==> Exact(sent[0], v)
    requires Coalesced(v, s.toClient + sent)
    ensures SystemInv(c, s.(server := v, toClient := s.toClient + sent, clock := now))
  {
    hide LegalRequest, LegalReply, Covers, Exact;
    RepliesGrow(c, s.server, v, s.toClient, sent);
  }

  // ---------------------------------------------------------------- client steps

  lemma {:induction false} InitialInv(c: Config, now: int)
    requires Runnable(c) && Compatible(c)
    ensures SystemInv(c, Initial(now))
  {
  }

  lemma SendStartInv(c: Config, s: System, now: int)
    requires Runnable(c) && SystemInv(c, s) && SystemOk(c, s) && Enabled(s, SendStart(now))
    ensures SystemInv(c, Apply(c, s, SendStart(now)))
  {
    hide Ordered, Coalesced, LegalRequest;
    StartLegal(c, s.client);
    ClientMoves(c, s, s.client, [StartDatagram(c)], now);
  }

  /** How one window action may move a window. */
  ghost predicate Moved(w: Window, v: Window) {
    && v.total == w.total && v.coverage == w.coverage && v.logical == w.logical
    && w.next <= v.next && w.base <= v.base
    && |v.chunks| == |w.chunks|
  }

  lemma AckFacts(w: Window, ack: AckPayload, now: int)
    requires Windows.Inv(w)
    ensures var v := ProcessAck(w, ack, now);
      && Moved(w, v)
      && forall i: nat | i < w.total :: v.chunks[i].IsAcked() <==>
           w.chunks[i].IsAcked() || (i < w.next && Reports(ack, i))
  {
    forall i: nat | i < w.total
      ensures ProcessAck(w, ack, now).chunks[i].IsAcked() <==>
              w.chunks[i].IsAcked() || (i < w.next && Reports(ack, i))
    {
      AckedAfter(w, ack, now, i);
    }
  }

  lemma SendFacts(w: Window, now: int)
    requires Windows.Inv(w)
    ensures var (v, d) := Transmit(w, now);
      && Moved(w, v)
      && (forall i: nat | i < w.total :: v.chunks[i].IsAcked() <==> w.chunks[i].IsAcked())
      && (d.Some? ==> d.value.sequence < v.next)
  {
    hide AckedIn, Counted, Queued, Evidenced, Select;
    WindowInvariant.SelectOutcome(w);
    TransmitInv(w, now);
  }

  lemma CheckTimersInv(c: Config, s: System, now: int)
    requires Runnable(c) && SystemInv(c, s) && SystemOk(c, s) && Enabled(s, CheckTimers(now))
    ensures SystemInv(c, Apply(c, s, CheckTimers(now)))
  {
    hide Wires, Ordered, Coalesced, Inv, Settled, Logged, Explained, ServerReceive, ClientReceive;
    ActInv(s.client.sending, TimeoutCheck(now));
    var y := Transferring(Act(s.client.sending, TimeoutCheck(now)));
    forall i: nat | AckedAt(y, i) ensures HasAt(s.server, i) {
      assert AckedAt(s.client, i);
    }
    ClientMoves(c, s, y, [], now);
    assert s.toServer + [] == s.toServer;
  }

  lemma SendDataInv(c: Config, s: System, now: int)
    requires Runnable(c) && SystemInv(c, s) && SystemOk(c, s) && Enabled(s, SendData(now))
    ensures SystemInv(c, Apply(c, s, SendData(now)))
  {
    hide Wires, Ordered, Coalesced, Inv, Settled, Logged, Explained, Transmit, LegalRequest;
    var x := s.client.sending;
    ActInv(x, SendNext(now));
    SendFacts(x.window, now);
    var (z, sent) := ClientSend(c, x, now);
    var y := Transferring(z);
    forall i: nat | AckedAt(y, i) ensures HasAt(s.server, i) {
      assert AckedAt(s.client, i);
    }
    var d := Transmit(x.window, now).1;
    if d.Some? {
      DataLegal(c, y, d.value.sequence, d.value.retransmission);
    }
    ClientMoves(c, s, y, sent, now);
  }

  lemma SendCompleteInv(c: Config, s: System, now: int)
    requires Runnable(c) && SystemInv(c, s) && SystemOk(c, s) && Enabled(s, SendComplete(now))
    ensures SystemInv(c, Apply(c, s, SendComplete(now)))
  {
    hide LegalRequest, LegalReply, Ordered, Coalesced, SendingInv;
    var y := Completing(s.client.sending);
    CompleteLegal(c, y);
    forall i: nat | AckedAt(y, i) ensures HasAt(s.server, i) {
      assert AckedAt(s.client, i);
    }
    ClientMoves(c, s, y, [CompleteDatagram(c)], now);
  }

  lemma AcceptedWindow(c: Config)
    requires Runnable(c)
    ensures ValidWindow(Accept(StartOf(c)))
  {
    AtLeastOne(DEFAULT_WINDOW_BYTES + ChunkSize(c) - 1, ChunkSize(c));
  }

  lemma AtLeastOne(n: nat, d: nat)
    requires 0 < d <= n
    ensures n / d > 0
  {
  }

  /** The window the client opens on the server's START_ACK. */
  function Opened(c: Config, now: int): Sending
    requires Runnable(c)
  {
    Started(Total(c), Accept(StartOf(c)).acceptedWindowChunks, ACK_BITMAP_BITS, now)
  }

  lemma StartAckOpens(c: Config, s: Server, d: Datagram, now: int)
    requires Runnable(c) && Compatible(c) && LegalReply(c, s, d)
    requires DecodePacket(d).packet.header.kind == START_ACK
    ensures ClientReceive(c, Starting, d, now) == Transferring(Opened(c, now))
  {
    hide StartOf, Started, Total;
    AcceptedWindow(c);
  }

  lemma OpenedFor(c: Config, now: int)
    requires Runnable(c)
    ensures WindowFor(c, Opened(c, now)) && Opened(c, now).clock == now
    ensures NextOf(Transferring(Opened(c, now))) == 0
    ensures forall i: nat :: !AckedAt(Transferring(Opened(c, now)), i)
  {
    hide SendingInv;
    AcceptedWindow(c);
    StartedInv(Total(c), Accept(StartOf(c)).acceptedWindowChunks, ACK_BITMAP_BITS, now);
  }

  lemma StartAckInv(c: Config, s: System, d: Datagram, now: int)
    requires Runnable(c) && SystemInv(c, s) && s.clock <= now && s.client.Starting?
    requires LegalReply(c, s.server, d) && DecodePacket(d).packet.header.kind == START_ACK
    ensures var y := ClientReceive(c, s.client, d, now);
      y.Transferring? && SystemInv(c, s.(client := y, clock := now))
  {
    hide Wires, Ordered, Coalesced, WindowFor, Opened, ClientReceive;
    StartAckOpens(c, s.server, d, now);
    OpenedFor(c, now);
    ClientMoves(c, s, Transferring(Opened(c, now)), [], now);
    assert s.toServer + [] == s.toServer;
  }

  /** A legal ACK is one the client processes. */
  lemma AckIsProcessed(c: Config, x: Client, s: Server, d: Datagram, now: int)
    requires Runnable(c) && ClientOk(c, x) && x.Transferring?
    requires LegalReply(c, s, d) && DecodePacket(d).packet.header.kind == ACK
    ensures AckOf(d).Some?
    ensures ClientReceive(c, x, d, now) == Transferring(Act(x.sending, AckArrives(AckOf(d).value, now)))
    ensures forall i: nat | Reports(AckOf(d).value, i) :: HasAt(s, i)
  {
    hide Act;
  }

  lemma AckDeliveryInv(c: Config, s: System, d: Datagram, now: int)
    requires Runnable(c) && SystemInv(c, s) && s.clock <= now && s.client.Transferring?
    requires ClientOk(c, s.client)
    requires LegalReply(c, s.server, d) && DecodePacket(d).packet.header.kind == ACK
    ensures SystemInv(c, s.(client := ClientReceive(c, s.client, d, now), clock := now))
  {
    hide Wires, Ordered, Coalesced, Inv, Settled, Logged, Explained, ProcessAck, LegalReply, ClientReceive;
    AckIsProcessed(c, s.client, s.server, d, now);
    var ack := AckOf(d).value;
    ActInv(s.client.sending, AckArrives(ack, now));
    AckFacts(s.client.sending.window, ack, now);
    var y := Transferring(Act(s.client.sending, AckArrives(ack, now)));
    forall i: nat | AckedAt(y, i) ensures HasAt(s.server, i) {
      assert AckedAt(s.client, i) || Reports(ack, i);
    }
    ClientMoves(c, s, y, [], now);
    assert s.toServer + [] == s.toServer;
  }

  /** What any other legal reply does: nothing, or it finishes the transfer. */
  lemma OtherReply(c: Config, x: Client, s: Server, d: Datagram, now: int)
    requires Runnable(c) && ClientOk(c, x) && LegalReply(c, s, d)
    requires x.Starting? ==> DecodePacket(d).packet.header.kind != START_ACK
    requires x.Transferring? ==> DecodePacket(d).packet.header.kind != ACK
    ensures var y := ClientReceive(c, x, d, now);
      y == x || (x.Completing? && y.Finished? && y.sending == x.sending)
  {
  }

  lemma OtherReplyInv(c: Config, s: System, y: Client, now: int)
    requires Runnable(c) && SystemInv(c, s) && s.clock <= now
    requires y == s.client || (s.client.Completing? && y.Finished? && y.sending == s.client.sending)
    ensures SystemInv(c, s.(client := y, clock := now))
  {
    hide Wires, Ordered, Coalesced, SendingInv;
    forall i: nat | AckedAt(y, i) ensures HasAt(s.server, i) {
      assert AckedAt(s.client, i);
    }
    ClientMoves(c, s, y, [], now);
    assert s.toServer + [] == s.toServer;
  }

  /** Whatever is in transit is legal. */
  lemma InTransit(c: Config, s: System)
    requires Runnable(c) && SystemInv(c, s)
    ensures Compatible(c)
    ensures forall k: nat | k < |s.toServer| :: LegalRequest(c, s.client, s.toServer[k])
    ensures forall k: nat | k < |s.toClient| :: LegalReply(c, s.server, s.toClient[k])
  {
    hide LegalRequest, LegalReply;
  }

  lemma ToClientInv(c: Config, s: System, k: nat, now: int)
    requires Runnable(c) && SystemInv(c, s) && SystemOk(c, s) && Enabled(s, ToClient(k, now))
    ensures SystemInv(c, Apply(c, s, ToClient(k, now)))
  {
    hide SystemInv, ClientReceive, LegalRequest;
    InTransit(c, s);
    var d := s.toClient[k];
    var kind := DecodePacket(d).packet.header.kind;
    if s.client.Starting? && kind == START_ACK {
      StartAckInv(c, s, d, now);
    } else if s.client.Transferring? && kind == ACK {
      AckDeliveryInv(c, s, d, now);
    } else {
      OtherReply(c, s.client, s.server, d, now);
      OtherReplyInv(c, s, ClientReceive(c, s.client, d, now), now);
    }
  }

  // ---------------------------------------------------------------- server steps

  lemma NewestAppend(replies: seq<Datagram>, d: Datagram, i: nat)
    ensures NewestReports(replies + [d], i) ==
            if AckOf(d).Some? then Reports(AckOf(d).value, i) else NewestReports(replies, i)
  {
    assert (replies + [d])[..|replies|] == replies;
  }

  /** A reply that is not an ACK leaves the newest ACK as it was. */
  lemma NotAnAck(r: Receiver, replies: seq<Datagram>, d: Datagram)
    requires AckOf(d).None?
    ensures Omitted(r, replies + [d]) == Omitted(r, replies)
  {
    forall i: nat ensures NewestReports(replies + [d], i) == NewestReports(replies, i) {
      NewestAppend(replies, d, i);
    }
  }

  lemma FreshAck(s: Server, replies: seq<Datagram>, d: Datagram)
    requires Active(s) && Exact(d, s)
    ensures Omitted(s.transfer.tracker, replies + [d]) == {}
  {
    forall i: nat | HasAt(s, i) ensures NewestReports(replies + [d], i) {
      NewestAppend(replies, d, i);
    }
  }

  /** The server's answer to the client's START, phase by phase. */
  lemma StartReply(c: Config, x: Client, s: Server, d: Datagram, now: int)
    requires Runnable(c) && Matched(c) && ServerInv(c, s) && ServerOk(s)
    requires LegalRequest(c, x, d) && DecodePacket(d).packet.header.kind == START
    ensures ServerReceive(c.serverMtu, s, d, now) ==
      match s
      case Listening =>
        (Receiving(NewTransfer(c.session, StartOf(c), now)),
         [StartAckDatagram(c.session, Accept(StartOf(c)))])
      case Receiving(_) => (s, [StartAckDatagram(c.session, Accept(StartOf(c)))])
      case _ => (s, [])
  {
    hide Listen, NewTransfer, StartOf, StartAckDatagram, DecodeStart, Tracks;
    if s.Listening? {
      FirstStart(c, d, now);
    }
  }

  /** A START changes nothing but, at first, opens an empty transfer. */
  lemma StartAnswer(c: Config, x: Client, s: Server, d: Datagram, replies: seq<Datagram>, now: int)
    requires Runnable(c) && Matched(c)
    requires ServerInv(c, s) && ServerOk(s) && Linked(x, s) && Coalesced(s, replies)
    requires LegalRequest(c, x, d) && DecodePacket(d).packet.header.kind == START
    ensures var (v, sent) := ServerReceive(c.serverMtu, s, d, now);
      && ServerInv(c, v) && Linked(x, v) && Active(v) && (s.TimeWait? ==> v.TimeWait?)
      && (forall i: nat :: HasAt(v, i) <==> HasAt(s, i))
      && |sent| <= 1
      && (sent != [] ==> AckOf(sent[0]).None? && LegalReply(c, v, sent[0]))
      && Coalesced(v, replies + sent)
  {
    hide ServerReceive, LegalRequest, LegalReply, AckOf, StartAckDatagram, StartOf, TransferFor;
    StartReply(c, x, s, d, now);
    var (v, sent) := ServerReceive(c.serverMtu, s, d, now);
    if s.Listening? {
      FreshTransfer(c, now);
      StartAckLegal(c, v);
      forall i: nat ensures !Has(v.transfer.tracker, i) {
        assert !HasAt(v, i);
      }
      assert Omitted(v.transfer.tracker, replies + sent) == {};
    } else if s.Receiving? {
      StartAckLegal(c, v);
      NotAnAck(v.transfer.tracker, replies, sent[0]);
    } else {
      assert replies + sent == replies;
    }
  }

  lemma StartDeliveryInv(c: Config, s: System, d: Datagram, now: int)
    requires Runnable(c) && SystemInv(c, s) && ServerOk(s.server) && s.clock <= now
    requires LegalRequest(c, s.client, d) && DecodePacket(d).packet.header.kind == START
    ensures var (v, sent) := ServerReceive(c.serverMtu, s.server, d, now);
      SystemInv(c, s.(server := v, toClient := s.toClient + sent, clock := now))
  {
    hide ServerReceive, LegalRequest, LegalReply, Ordered, Coalesced, Wires, ServerInv, Linked, ClientInv;
    StartAnswer(c, s.client, s.server, d, s.toClient, now);
    var (v, sent) := ServerReceive(c.serverMtu, s.server, d, now);
    ServerMoves(c, s, v, sent, now);
  }

  /** The client's own START passes the server's validation. */
  lemma OwnStartIsValid(c: Config)
    requires Runnable(c) && Matched(c)
    ensures ValidStart(c.serverMtu, StartOf(c)) == Some(true)
  {
    RunnableIffAccepted(c);
    WindowHoldsDefault(ChunkSize(c));
  }

  /** The client's own START is accepted. */
  lemma FirstStart(c: Config, d: Datagram, now: int)
    requires Runnable(c) && Matched(c)
    requires DecodePacket(d).Accepted? && DecodePacket(d).packet.header.session == c.session
    requires DecodePacket(d).packet.header.kind == START && DecodePacket(d).packet.header.number == 0
    requires DecodeStart(DecodePacket(d).packet.payload) == Some(StartOf(c))
    ensures Listen(c.serverMtu, d, now) ==
            (Receiving(NewTransfer(c.session, StartOf(c), now)),
             [StartAckDatagram(c.session, Accept(StartOf(c)))])
  {
    hide ValidStart, StartOf, NewTransfer, StartAckDatagram;
    OwnStartIsValid(c);
  }

  /** It opens an empty transfer. */
  lemma FreshTransfer(c: Config, now: int)
    requires Runnable(c)
    ensures var s := Receiving(NewTransfer(c.session, StartOf(c), now));
      && ServerInv(c, s)
      && (forall i: nat :: !HasAt(s, i))
      && !s.transfer.ackPending && s.transfer.packetsSinceAck == 0
  {
    RunnableIffAccepted(c);
    NewReceiverTracks(Total(c));
  }

  /** Storing a legal DATA packet: its chunk is received, its slice is right, the rest is kept. */
  lemma StoreFor(c: Config, t: Transfer, p: Packet, now: int)
    requires Runnable(c) && TransferFor(c, t)
    requires p.header.number < Total(c)
    requires 0 <= Length(|c.input|, ChunkSize(c), p.header.number)
    requires p.payload == Slice(c.input, ChunkSize(c), p.header.number)
    ensures Fitting(t, p)
    ensures TransferFor(c, Store(t, p, now))
    ensures forall i: nat :: Has(Store(t, p, now).tracker, i) <==> Has(t.tracker, i) || i == p.header.number
  {
    var n := p.header.number;
    InputTiles(c, n);
    StoreOk(t, p, now);
    MarkReceivedTracks(t.tracker, n);
    var v := Store(t, p, now);
    forall i: nat | Has(v.tracker, i) ensures SliceMatches(v.output, c.input, ChunkSize(c), i) {
      if !Has(t.tracker, n) {
        PlaceSlices(t.output, ChunkSize(c), Total(c), n, i, p.payload);
        assert Has(t.tracker, i) ==> SliceMatches(t.output, c.input, ChunkSize(c), i);
      }
    }
  }

  /** One more received chunk adds at most one omission. */
  lemma OmittedGrows(r: Receiver, v: Receiver, replies: seq<Datagram>, n: nat)
    requires |v.received| == |r.received|
    requires forall i: nat :: Has(v, i) <==> Has(r, i) || i == n
    ensures |Omitted(v, replies)| <= |Omitted(r, replies)| + 1
  {
    SubsetSize(Omitted(v, replies), Omitted(r, replies) + {n});
  }

  /** What a legal DATA packet does to the server, and what it is answered with. */
  lemma DataAnswer(c: Config, x: Client, t: Transfer, p: Packet, replies: seq<Datagram>, now: int)
    requires Runnable(c) && TransferFor(c, t) && Coalesced(Receiving(t), replies)
    requires HasWindow(x) ==> WindowFor(c, x.sending)
    requires Linked(x, Receiving(t))
    requires p.header.number < NextOf(x) && p.header.number < Total(c)
    requires 0 <= Length(|c.input|, ChunkSize(c), p.header.number)
    requires p.payload == Slice(c.input, ChunkSize(c), p.header.number)
    ensures Fitting(t, p)
    ensures var (v, sent) := TakeData(t, p, now);
      && TransferFor(c, v)
      && (forall i: nat :: HasAt(Receiving(v), i) <==> HasAt(Receiving(t), i) || i == p.header.number)
      && |sent| <= 1
      && (sent != [] ==> Exact(sent[0], Receiving(v)) && LegalReply(c, Receiving(v), sent[0]))
      && (sent != [] <==> v.packetsSinceAck == 0)
      && Coalesced(Receiving(v), replies + sent)
      && (Has(t.tracker, p.header.number) || HasRetransmittedFlag(p.header.flags) ==> sent != [])
  {
    hide SendingInv, LegalReply, CurrentAck, Place, MarkReceived, StartOf;
    StoreFor(c, t, p, now);
    var stored := Store(t, p, now);
    var (v, sent) := TakeData(t, p, now);
    forall i: nat
      ensures HasAt(Receiving(v), i) <==> HasAt(Receiving(t), i) || i == p.header.number
    {
      assert Has(stored.tracker, i) <==> Has(t.tracker, i) || i == p.header.number;
    }
    if MustAckNow(stored, Urgent(t, p), now) {
      AckIsExact(c, x, Receiving(v), stored);
      FreshAck(Receiving(v), replies, sent[0]);
    } else {
      assert replies + sent == replies;
      OmittedGrows(t.tracker, v.tracker, replies, p.header.number);
    }
  }

  lemma TakeDataInv(c: Config, s: System, p: Packet, now: int)
    requires Runnable(c) && SystemInv(c, s) && s.clock <= now && s.server.Receiving?
    requires p.header.number < NextOf(s.client) && p.header.number < Total(c)
    requires 0 <= Length(|c.input|, ChunkSize(c), p.header.number)
    requires p.payload == Slice(c.input, ChunkSize(c), p.header.number)
    ensures Fitting(s.server.transfer, p)
    ensures var (v, sent) := TakeData(s.server.transfer, p, now);
      SystemInv(c, s.(server := Receiving(v), toClient := s.toClient + sent, clock := now))
  {
    hide TakeData, Exact, LegalReply, Ordered, Coalesced, SendingInv;
    DataAnswer(c, s.client, s.server.transfer, p, s.toClient, now);
    var (v, sent) := TakeData(s.server.transfer, p, now);
    ServerMoves(c, s, Receiving(v), sent, now);
  }

  /** DATA is taken while the server is receiving, and ignored afterwards. */
  lemma DataDeliveryInv(c: Config, s: System, d: Datagram, now: int)
    requires Runnable(c) && SystemInv(c, s) && ServerOk(s.server) && s.clock <= now
    requires LegalRequest(c, s.client, d) && DecodePacket(d).packet.header.kind == DATA
    ensures var (v, sent) := ServerReceive(c.serverMtu, s.server, d, now);
      SystemInv(c, s.(server := v, toClient := s.toClient + sent, clock := now))
  {
    hide Wires, Ordered, Coalesced, TakeData, SendingInv;
    var p := DecodePacket(d).packet;
    if s.server.Receiving? {
      TakeDataInv(c, s, p, now);
      DataTaken(c.serverMtu, s.server.transfer, d, now);
    } else {
      assert s.toClient + [] == s.toClient;
      ServerMoves(c, s, s.server, [], now);
    }
  }

  /** When a COMPLETE is in transit every chunk has been received. */
  lemma CompleteMeansReceived(c: Config, s: System)
    requires Runnable(c) && SystemInv(c, s) && (s.client.Completing? || s.client.Finished?)
    ensures Active(s.server)
    ensures Complete(s.server.transfer.tracker)
    ensures s.server.transfer.tracker.cumulative == Total(c)
  {
    hide Wires, Ordered, Coalesced, Settled, Logged, Explained;
    var r := s.server.transfer.tracker;
    forall i: nat | i < |r.received| ensures Has(r, i) {
      assert AckedAt(s.client, i);
      assert HasAt(s.server, i);
    }
    CompleteMeansAll(r);
  }

  /** A complete server answers COMPLETE with totals that pass the client's check. */
  lemma CompleteAnswer(c: Config, s: Server, d: Datagram, now: int)
    requires Runnable(c) && ServerInv(c, s) && ServerOk(s) && Active(s)
    requires Complete(s.transfer.tracker) && s.transfer.tracker.cumulative == Total(c)
    requires DecodePacket(d).Accepted? && DecodePacket(d).packet.header.session == c.session
    requires IsComplete(s.transfer, DecodePacket(d).packet)
    ensures var (v, sent) := ServerReceive(c.serverMtu, s, d, now);
      && v.TimeWait? && v.transfer == s.transfer
      && ServerInv(c, v)
      && sent == [CompleteAckDatagram(c.session, Total(c), v.completed)]
      && LegalReply(c, v, sent[0]) && AckOf(sent[0]).None?
  {
    hide LegalReply, AckOf;
    var (v, sent) := ServerReceive(c.serverMtu, s, d, now);
    CompleteAckLegal(c, v, v.completed);
  }

  lemma CompleteLinked(x: Client, s: Server, v: Server, replies: seq<Datagram>, d: Datagram)
    requires Active(s) && v.TimeWait? && v.transfer == s.transfer
    requires x.Completing? || x.Finished?
    requires Linked(x, s) && Coalesced(s, replies) && AckOf(d).None?
    ensures Linked(x, v) && Coalesced(v, replies + [d])
  {
    NotAnAck(v.transfer.tracker, replies, d);
    forall i: nat ensures HasAt(v, i) == HasAt(s, i) {
    }
  }

  lemma CompleteDeliveryInv(c: Config, s: System, d: Datagram, now: int)
    requires Runnable(c) && SystemInv(c, s) && ServerOk(s.server) && s.clock <= now
    requires LegalRequest(c, s.client, d) && DecodePacket(d).packet.header.kind == COMPLETE
    ensures var (v, sent) := ServerReceive(c.serverMtu, s.server, d, now);
      SystemInv(c, s.(server := v, toClient := s.toClient + sent, clock := now))
  {
    hide ServerReceive, LegalReply, Ordered, Coalesced, WindowFor;
    CompleteMeansReceived(c, s);
    CompleteAnswer(c, s.server, d, now);
    var (v, sent) := ServerReceive(c.serverMtu, s.server, d, now);
    CompleteLinked(s.client, s.server, v, s.toClient, sent[0]);
    ServerMoves(c, s, v, sent, now);
  }

  lemma ToServerInv(c: Config, s: System, k: nat, now: int)
    requires Runnable(c) && SystemInv(c, s) && SystemOk(c, s) && Enabled(s, ToServer(k, now))
    ensures SystemInv(c, Apply(c, s, ToServer(k, now)))
  {
    hide SystemInv, ServerReceive, LegalReply;
    InTransit(c, s);
    var d := s.toServer[k];
    var p := DecodePacket(d).packet;
    ToServerEffect(c, s, k, now);
    if p.header.kind == START {
      StartDeliveryInv(c, s, d, now);
    } else if p.header.kind == COMPLETE {
      CompleteDeliveryInv(c, s, d, now);
    } else {
      DataDeliveryInv(c, s, d, now);
    }
  }

  /** Every enabled step keeps the invariant. */
  lemma ApplyInv(c: Config, s: System, step: Step)
    requires Runnable(c) && SystemInv(c, s) && SystemOk(c, s) && Enabled(s, step)
    ensures SystemInv(c, Apply(c, s, step))
  {
    hide SystemInv, Apply, SystemOk;
    match step
    case SendStart(now) => SendStartInv(c, s, now);
    case CheckTimers(now) => CheckTimersInv(c, s, now);
    case SendData(now) => SendDataInv(c, s, now);
    case SendComplete(now) => SendCompleteInv(c, s, now);
    case ToServer(k, now) => ToServerInv(c, s, k, now);
    case ToClient(k, now) => ToClientInv(c, s, k, now);
  }

  /** So does every run, of any length, over any deliveries. */
  lemma {:induction false} ReachesInv(c: Config, s: System, steps: seq<Step>, t: System)
    requires Runnable(c) && SystemOk(c, s) && SystemInv(c, s) && Reaches(c, s, steps, t)
    ensures SystemInv(c, t) && SystemOk(c, t)
    decreases |steps|
  {
    hide SystemInv, Apply;
    if steps != [] {
      ApplyInv(c, s, steps[0]);
      ReachesInv(c, Apply(c, s, steps[0]), steps[1..], t);
    }
  }
}
