/**
 * Both endpoints over a network that may lose, duplicate and reorder: each direction is the
 * log of every datagram ever sent, and a delivery hands over any entry of it, any number of
 * times, in any order, or never.
 */
module Systems {
  import opened Types
  import opened Chunks
  import opened Codec
  import opened Receivers
  import opened Windows
  import opened Sending
  import opened Servers
  import opened Clients

  datatype System = System(
    client: Client, server: Server, toServer: seq<Datagram>, toClient: seq<Datagram>, clock: int)

  datatype Step =
    | SendStart(now: int)
    | CheckTimers(now: int)
    | SendData(now: int)
    | SendComplete(now: int)
    | ToServer(k: nat, now: int)
    | ToClient(k: nat, now: int)

  function Initial(now: int): System {
    System(Starting, Listening, [], [], now)
  }

  ghost predicate SystemOk(c: Config, s: System)
    requires Runnable(c)
  {
    ClientOk(c, s.client) && ServerOk(s.server)
  }

  /** The steps possible in a state; the clock never runs backwards. */
  predicate Enabled(s: System, step: Step) {
    && s.clock <= step.now
    && match step
       case SendStart(_) => s.client.Starting?
       case CheckTimers(_) => s.client.Transferring?
       case SendData(_) => s.client.Transferring?
       case SendComplete(_) =>
         s.client.Completing? || (s.client.Transferring? && AllAcked(s.client.sending.window))
       case ToServer(k, _) => k < |s.toServer|
       case ToClient(k, _) => k < |s.toClient|
  }

  ghost function Apply(c: Config, s: System, step: Step): (r: System)
    requires Runnable(c) && SystemOk(c, s) && Enabled(s, step)
    ensures SystemOk(c, r)
  {
    var s := s.(clock := step.now);
    match step
    case SendStart(_) => s.(toServer := s.toServer + [StartDatagram(c)])
    case CheckTimers(now) => s.(client := Transferring(Act(s.client.sending, TimeoutCheck(now))))
    case SendData(now) =>
      var (x, sent) := ClientSend(c, s.client.sending, now);
      s.(client := Transferring(x), toServer := s.toServer + sent)
    case SendComplete(_) =>
      s.(client := Completing(s.client.sending), toServer := s.toServer + [CompleteDatagram(c)])
    case ToServer(k, now) =>
      var (server, replies) := ServerReceive(c.serverMtu, s.server, s.toServer[k], now);
      s.(server := server, toClient := s.toClient + replies)
    case ToClient(k, now) =>
      s.(client := ClientReceive(c, s.client, s.toClient[k], now))
  }

  /** A delivery to the server touches the server, the reply log and the clock. */
  lemma ToServerEffect(c: Config, s: System, k: nat, now: int)
    requires Runnable(c) && SystemOk(c, s) && Enabled(s, ToServer(k, now))
    ensures Apply(c, s, ToServer(k, now)) ==
      var (server, replies) := ServerReceive(c.serverMtu, s.server, s.toServer[k], now);
      s.(server := server, toClient := s.toClient + replies, clock := now)
  {
  }

  /** `t` is where the run of these steps from `s` ends. */
  ghost predicate Reaches(c: Config, s: System, steps: seq<Step>, t: System)
    requires Runnable(c) && SystemOk(c, s)
    decreases |steps|
  {
    if steps == [] then t == s
    else Enabled(s, steps[0]) && Reaches(c, Apply(c, s, steps[0]), steps[1..], t)
  }

  // ---------------------------------------------------------------- what the ends hold

  predicate HasWindow(x: Client) {
    x.Transferring? || x.Completing? || x.Finished?
  }

  predicate Active(s: Server) {
    s.Receiving? || s.TimeWait?
  }

  function NextOf(x: Client): nat {
    if HasWindow(x) then x.sending.window.next else 0
  }

  predicate AckedAt(x: Client, i: nat) {
    HasWindow(x) && i < |x.sending.window.chunks| && x.sending.window.chunks[i].IsAcked()
  }

  predicate HasAt(s: Server, i: nat) {
    Active(s) && Has(s.transfer.tracker, i)
  }

  // ---------------------------------------------------------------- the system invariant

  ghost predicate WindowFor(c: Config, x: Sending)
    requires Runnable(c)
  {
    && SendingInv(x)
    && x.window.total == Total(c)
    && x.window.coverage == ACK_BITMAP_BITS
    && x.window.logical == Accept(StartOf(c)).acceptedWindowChunks
  }

  ghost predicate ClientInv(c: Config, x: Client, clock: int)
    requires Runnable(c)
  {
    && !x.Failed?
    && (HasWindow(x) ==> WindowFor(c, x.sending) && x.sending.clock <= clock)
    && (x.Completing? || x.Finished? ==> AllAcked(x.sending.window))
  }

  ghost predicate TransferFor(c: Config, t: Transfer)
    requires Runnable(c)
  {
    && TransferOk(t)
    && t.session == c.session && t.start == StartOf(c) && t.accepted == Accept(StartOf(c))
    && forall i: nat | Has(t.tracker, i) :: SliceMatches(t.output, c.input, ChunkSize(c), i)
  }

  predicate GoodTotals(c: Config, p: CompleteAckPayload)
    requires Runnable(c)
  {
    p.status == STATUS_OK && p.receivedChunks == Total(c) && p.receivedBytes == |c.input|
  }

  ghost predicate ServerInv(c: Config, s: Server)
    requires Runnable(c)
  {
    && !s.Stopped?
    && (Active(s) ==> TransferFor(c, s.transfer))
    && (s.TimeWait? ==> Complete(s.transfer.tracker) && GoodTotals(c, s.completed))
  }

  /** What relates the two ends, whatever is in transit. */
  ghost predicate Linked(x: Client, s: Server) {
    && (HasWindow(x) ==> Active(s))
    && (s.TimeWait? ==> x.Completing? || x.Finished?)
    && (forall i: nat | AckedAt(x, i) :: HasAt(s, i))
    && (forall i: nat | HasAt(s, i) :: i < NextOf(x))
  }

  /** A datagram this client may have sent by now. */
  ghost predicate LegalRequest(c: Config, x: Client, d: Datagram)
    requires Runnable(c)
  {
    && DecodePacket(d).Accepted?
    && var p := DecodePacket(d).packet;
      && p.header.session == c.session
      && match p.header.kind
         case START => p.header.number == 0 && DecodeStart(p.payload) == Some(StartOf(c))
         case DATA =>
           && p.header.number < NextOf(x) && p.header.number < Total(c)
           && 0 <= Length(|c.input|, ChunkSize(c), p.header.number)
           && p.payload == Slice(c.input, ChunkSize(c), p.header.number)
         case COMPLETE =>
           (x.Completing? || x.Finished?) && p.header.number == Total(c) && p.payload == []
         case _ => false
  }

  /** A datagram this server may have sent by now. */
  ghost predicate LegalReply(c: Config, s: Server, d: Datagram)
    requires Runnable(c)
  {
    && Active(s)
    && DecodePacket(d).Accepted?
    && var p := DecodePacket(d).packet;
      && p.header.session == c.session
      && match p.header.kind
         case START_ACK => DecodeStartAck(p.payload) == Some(Accept(StartOf(c)))
         case ACK =>
           && UsableAck(p).Some?
           && forall i: nat | Reports(UsableAck(p).value, i) :: HasAt(s, i)
         case COMPLETE_ACK =>
           && s.TimeWait?
           && DecodeCompleteAck(p.payload).Some?
           && GoodTotals(c, DecodeCompleteAck(p.payload).value)
         case _ => false
  }

  ghost predicate Wires(c: Config, s: System)
    requires Runnable(c)
  {
    && (forall k: nat | k < |s.toServer| :: LegalRequest(c, s.client, s.toServer[k]))
    && (forall k: nat | k < |s.toClient| :: LegalReply(c, s.server, s.toClient[k]))
  }

  /** The ACK a datagram carries, if the client would use it. */
  function AckOf(d: Datagram): Option<AckPayload> {
    match DecodePacket(d)
    case Rejected(_) => None
    case Accepted(p) => UsableAck(p)
  }

  /** Whatever the first ACK reports, the second one does too. */
  ghost predicate Covers(older: Datagram, newer: Datagram) {
    AckOf(older).Some? && AckOf(newer).Some? ==>
      forall i: nat | Reports(AckOf(older).value, i) :: Reports(AckOf(newer).value, i)
  }

  /** Later ACKs report everything earlier ones did. */
  ghost predicate Ordered(replies: seq<Datagram>) {
    forall j: nat, k: nat | j <= k < |replies| :: Covers(replies[j], replies[k])
  }

  /** Whether the newest ACK sent reports chunk `i`. */
  predicate NewestReports(replies: seq<Datagram>, i: nat) {
    if replies == [] then false
    else if AckOf(replies[|replies| - 1]).Some? then Reports(AckOf(replies[|replies| - 1]).value, i)
    else NewestReports(replies[..|replies| - 1], i)
  }

  /** Received chunks that the newest ACK does not report. */
  function Omitted(r: Receiver, replies: seq<Datagram>): set<nat> {
    set i: nat | i < |r.received| && Has(r, i) && !NewestReports(replies, i)
  }

  ghost predicate Coalesced(s: Server, replies: seq<Datagram>) {
    Active(s) ==>
      var t := s.transfer;
      && (t.ackPending <==> t.packetsSinceAck > 0)
      && t.packetsSinceAck < ACK_PACKET_THRESHOLD
      && |Omitted(t.tracker, replies)| <= t.packetsSinceAck
      && (Complete(t.tracker) ==> t.packetsSinceAck == 0)
  }

  ghost predicate SystemInv(c: Config, s: System)
    requires Runnable(c)
  {
    && Compatible(c)
    && ClientInv(c, s.client, s.clock)
    && ServerInv(c, s.server)
    && Linked(s.client, s.server)
    && Wires(c, s)
    && Ordered(s.toClient)
    && Coalesced(s.server, s.toClient)
  }
}
