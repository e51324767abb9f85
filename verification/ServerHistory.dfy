/**
 * What the server's fields mean in a run: a history of the DATA packets that arrived, kept beside
 * the server and not by it, explains the pending ACK, its due time and the reported duration.
 */
module ServerHistory {
  import opened Types
  import opened Chunks
  import opened Codec
  import opened Receivers
  import opened Servers
  import opened ServerRules
  import opened Clients
  import opened Systems
  import opened Delivery

  /**
   * When the DATA packets arrived that no ACK has answered since the last one that did answer, and
   * when each new chunk arrived.
   */
  datatype History = History(waiting: seq<int>, gained: seq<int>)

  const NOTHING_YET: History := History([], [])

  ghost function Remember(h: History, s: Server, d: Datagram, now: int): History
    requires ServerOk(s)
  {
    if s.Receiving? && IsData(s.transfer, d) then
      History(
        if Receive(s.transfer, d, true, now).1 != [] then [] else h.waiting + [now],
        if Has(s.transfer.tracker, DecodePacket(d).packet.header.number) then h.gained
        else h.gained + [now])
    else h
  }

  /** The counter, the flag and the due time come from the packets that wait. */
  ghost predicate WaitingAgrees(t: Transfer, waiting: seq<int>, clock: int) {
    && t.packetsSinceAck == |waiting| <= 31
    && (t.ackPending <==> waiting != [])
    && (waiting != [] ==> t.nextAckTime == waiting[0] + IntervalNs(t))
    && forall k: nat | k < |waiting| ::
         waiting[0] <= waiting[k] <= clock && waiting[k] < t.nextAckTime
  }

  /** The count and the two data times come from the arrivals of new chunks. */
  ghost predicate FreshAgrees(t: Transfer, gained: seq<int>) {
    && t.tracker.count == |gained|
    && (t.firstData.None? <==> gained == [])
    && (gained != [] ==> t.firstData == Some(gained[0]) && t.lastData == gained[|gained| - 1])
  }

  /** The duration in a COMPLETE_ACK: microseconds from the first new chunk to the last. */
  function Duration(gained: seq<int>): int {
    if gained == [] then 0 else ((gained[|gained| - 1] - gained[0]) / 1000) % 0x1_0000_0000_0000_0000
  }

  ghost predicate Agrees(s: Server, h: History, clock: int) {
    match s
    case Listening => h == NOTHING_YET
    case Receiving(t) => WaitingAgrees(t, h.waiting, clock) && FreshAgrees(t, h.gained)
    case TimeWait(t, completed) =>
      && WaitingAgrees(t, h.waiting, clock) && FreshAgrees(t, h.gained)
      && completed.receiverTimeUs == Duration(h.gained)
    case Stopped => true
  }

  lemma DataWaits(t: Transfer, h: History, d: Datagram, clock: int, now: int)
    requires TransferOk(t) && IsData(t, d) && WaitingAgrees(t, h.waiting, clock) && clock <= now
    ensures var s := Receive(t, d, true, now).0;
      s.Receiving? && WaitingAgrees(s.transfer, Remember(h, Receiving(t), d, now).waiting, now)
  {
    hide IsData, Tracks, Cut, Receive, Has;
    DataAnsweredExactly(t, d, now);
    KeepsTerms(t, d, now);
  }

  /** Taking DATA does not change what was agreed at the start. */
  lemma KeepsTerms(t: Transfer, d: Datagram, now: int)
    requires TransferOk(t) && IsData(t, d)
    ensures var s := Receive(t, d, true, now).0;
      s.Receiving? && s.transfer.accepted == t.accepted
  {
    hide IsData, Tracks, Cut, CurrentAck, Place, MarkReceived;
    DataIsTaken(t, d, now);
  }

  lemma DataIsFresh(t: Transfer, h: History, d: Datagram, now: int)
    requires TransferOk(t) && IsData(t, d) && FreshAgrees(t, h.gained)
    ensures var s := Receive(t, d, true, now).0;
      s.Receiving? && FreshAgrees(s.transfer, Remember(h, Receiving(t), d, now).gained)
  {
    hide IsData, Tracks, Cut, CurrentAck, Place, FirstMissing, MustAckNow;
    DataIsTaken(t, d, now);
  }

  lemma ListenAgrees(mtu: U32, d: Datagram, now: int)
    requires ChunkSizeForMtu(mtu).Some?
    ensures Agrees(Listen(mtu, d, now).0, NOTHING_YET, now)
  {
    hide DecodePacket, StartAckDatagram, ValidStart;
  }

  /** Whatever arrives, the fields go on agreeing with the history. */
  lemma ReceiveAgrees(mtu: U32, s: Server, d: Datagram, h: History, clock: int, now: int)
    requires ChunkSizeForMtu(mtu).Some? && ServerOk(s) && Agrees(s, h, clock) && clock <= now
    ensures Agrees(ServerReceive(mtu, s, d, now).0, Remember(h, s, d, now), now)
  {
    hide IsData, IsEnd, IsStart, Tracks, Cut, Receive, DecodePacket, StartAckDatagram, Listen,
         CompleteAckDatagram, CurrentAck;
    if s.Listening? {
      ListenAgrees(mtu, d, now);
    } else if s.Receiving? {
      var t := s.transfer;
      if IsData(t, d) {
        DataWaits(t, h, d, clock, now);
        DataIsFresh(t, h, d, now);
      } else if IsStart(d) {
        StartAgain(t, d, now);
      } else if IsEnd(t, d) {
        EndAnswered(t, d, now);
      } else {
        OthersIgnored(t, d, now);
      }
    }
  }

  // ---------------------------------------------------------------- in runs

  /** The history of a run. */
  ghost function HistoryOf(c: Config, s: System, steps: seq<Step>, t: System, h: History): History
    requires Runnable(c) && SystemOk(c, s) && Reaches(c, s, steps, t)
    decreases |steps|
  {
    if steps == [] then h
    else
      HistoryOf(c, Apply(c, s, steps[0]), steps[1..], t,
                if steps[0].ToServer?
                then Remember(h, s.server, s.toServer[steps[0].k], steps[0].now) else h)
  }

  lemma StepAgrees(c: Config, s: System, step: Step, h: History)
    requires Runnable(c) && SystemOk(c, s) && Enabled(s, step) && Agrees(s.server, h, s.clock)
    ensures Agrees(Apply(c, s, step).server,
                   if step.ToServer? then Remember(h, s.server, s.toServer[step.k], step.now) else h,
                   step.now)
    ensures Apply(c, s, step).clock == step.now
  {
    hide ServerReceive, ClientReceive, ClientSend, Remember;
    if step.ToServer? {
      ReceiveAgrees(c.serverMtu, s.server, s.toServer[step.k], h, s.clock, step.now);
    }
  }

  lemma {:induction false} RunAgrees(c: Config, s: System, steps: seq<Step>, t: System, h: History)
    requires Runnable(c) && SystemOk(c, s) && Reaches(c, s, steps, t) && Agrees(s.server, h, s.clock)
    ensures Agrees(t.server, HistoryOf(c, s, steps, t, h), t.clock)
    decreases |steps|
  {
    hide Apply, Agrees, Remember;
    if steps != [] {
      StepAgrees(c, s, steps[0], h);
      RunAgrees(c, Apply(c, s, steps[0]), steps[1..], t,
                if steps[0].ToServer?
                then Remember(h, s.server, s.toServer[steps[0].k], steps[0].now) else h);
    }
  }

  /**
   * In every run: an ACK is pending exactly while packets wait, at most 31 of them; it is due ten
   * milliseconds after the first of them came; so any two of them came less than that apart.
   */
  lemma AckTimesInRuns(c: Config, start: int, steps: seq<Step>, s: System)
    requires Run(c, start, steps, s) && s.server.Receiving?
    ensures var waiting := HistoryOf(c, Initial(start), steps, s, NOTHING_YET).waiting;
      && (s.server.transfer.ackPending <==> waiting != [])
      && s.server.transfer.packetsSinceAck == |waiting| <= 31
      && (waiting != [] ==> s.server.transfer.nextAckTime == waiting[0] + 10_000_000)
      && forall j: nat, k: nat | j < |waiting| && k < |waiting| :: waiting[k] - waiting[j] < 10_000_000
  {
    hide Wires, Ordered, Coalesced, WindowFor, Reaches, HistoryOf;
    ReachableInv(c, start, steps, s);
    RunAgrees(c, Initial(start), steps, s, NOTHING_YET);
    assert IntervalNs(s.server.transfer) == 10_000_000;
  }

  /** In every run: the duration reported is the time from the first new chunk to the last. */
  lemma DurationInRuns(c: Config, start: int, steps: seq<Step>, s: System)
    requires Run(c, start, steps, s) && s.server.TimeWait?
    ensures var gained := HistoryOf(c, Initial(start), steps, s, NOTHING_YET).gained;
      |gained| == Total(c) && s.server.completed.receiverTimeUs == Duration(gained)
  {
    hide Wires, Ordered, Coalesced, WindowFor, Reaches, HistoryOf, Duration;
    ReachableInv(c, start, steps, s);
    RunAgrees(c, Initial(start), steps, s, NOTHING_YET);
  }
}
