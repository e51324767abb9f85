/**
 * How late an ACK can be: the server looks at the due time only when a packet arrives, so an ACK
 * may stay pending for any length of time, exactly when the file has at least two chunks.
 */
module Delays {
  import opened Types
  import opened Chunks
  import opened Codec
  import opened Receivers
  import opened Windows
  import opened WindowProperties
  import opened Sending
  import opened Servers
  import opened Clients
  import opened Systems
  import opened SystemInvariant
  import opened Delivery
  import opened Progress

  /** An ACK is pending although it was due this long ago. */
  predicate AckLate(s: System, delay: nat) {
    s.server.Receiving? && s.server.transfer.ackPending && s.clock > s.server.transfer.nextAckTime + delay
  }

  /** No chunk has arrived, and no ACK is pending. */
  predicate Idle(t: Transfer) {
    t.tracker.count == 0 && !t.ackPending && t.packetsSinceAck == 0
  }

  /** Before the client issues anything, the server is idle. */
  lemma IdleAtFirst(c: Config, s: System)
    requires Good(c, s) && PromptNow(s) && s.client.Transferring? && NextOf(s.client) == 0
    ensures s.server.Receiving? && Idle(s.server.transfer)
  {
    hide Wires, Ordered, SendingInv, NewestReports;
    InTransfer(c, s);
    var r := s.server.transfer.tracker;
    forall i: nat | i < |r.received| ensures !r.received[i] {
      assert !HasAt(s.server, i);
    }
    assert ReceivedSet(r.received) == {};
  }

  /** A window that has issued nothing issues chunk zero, unflagged. */
  lemma FirstDecision(w: Window, now: int)
    requires Windows.Inv(w) && w.next == 0 < w.total
    ensures Transmit(w, now).1 == Some(Decision(0, false, false))
  {
    hide Evidenced, Select;
    assert UnackedBelow(w.chunks, 0) == {};
    WindowInvariant.SelectOutcome(w);
    SelectedCanBeMarked(w);
  }

  lemma FirstSend(c: Config, s: System) returns (t: System)
    requires Good(c, s) && s.client.Transferring? && NextOf(s.client) == 0 < Total(c)
    ensures Reaches(c, s, [SendData(s.clock)], t) && Good(c, t) && t.client.Transferring?
    ensures t.server == s.server && t.clock == s.clock
    ensures t.toServer == s.toServer + [DataDatagram(c, 0, false)] && NextOf(t.client) > 0
  {
    hide Wires, Ordered, Coalesced, Settled, Logged, Explained, Counted, Queued, Evidenced, Transmit,
         DataDatagram;
    FirstDecision(s.client.sending.window, s.clock);
    SendFacts(s.client.sending.window, s.clock);
    t := OneStep(c, s, SendData(s.clock));
  }

  /** The first chunk of several, unflagged, is stored and not answered. */
  lemma FirstDataWaits(t: Transfer, p: Packet, now: int)
    requires TransferOk(t) && Idle(t) && t.start.totalChunks >= 2
    requires p.header.number == 0 && !HasRetransmittedFlag(p.header.flags) && Fitting(t, p)
    ensures var v := TakeData(t, p, now).0;
      v.ackPending && v.nextAckTime == now + AckInterval(t)
  {
    hide Cut, Place, FirstMissing;
    var zero: nat := 0;
    assert Has(t.tracker, zero) ==> zero in ReceivedSet(t.tracker.received);
    assert !Has(t.tracker, zero);
  }

  /** Delivering it leaves an ACK pending. */
  lemma FirstDelivery(c: Config, s: System, k: nat) returns (t: System)
    requires Good(c, s) && s.client.Transferring? && s.server.Receiving? && Idle(s.server.transfer)
    requires Total(c) >= 2 && k < |s.toServer| && s.toServer[k] == DataDatagram(c, 0, false)
    ensures Reaches(c, s, [ToServer(k, s.clock)], t) && Good(c, t) && t.client == s.client
    ensures t.server.Receiving? && t.server.transfer.ackPending && t.clock == s.clock
  {
    hide Ordered, Coalesced, SendingInv, DecodePacket, DataDatagram, TakeData, ServerReceive, Idle;
    DataDecodes(c, 0, false);
    InTransit(c, s);
    var p := DecodePacket(s.toServer[k]).packet;
    DataAnswer(c, s.client, s.server.transfer, p, s.toClient, s.clock);
    FirstDataWaits(s.server.transfer, p, s.clock);
    DataTaken(c.serverMtu, s.server.transfer, s.toServer[k], s.clock);
    ToServerEffect(c, s, k, s.clock);
    t := OneStep(c, s, ToServer(k, s.clock));
  }

  /** Then time passes. */
  lemma TimePasses(c: Config, s: System, now: int) returns (t: System)
    requires Good(c, s) && s.client.Transferring? && s.clock <= now
    ensures Reaches(c, s, [CheckTimers(now)], t) && t.server == s.server && t.clock == now
  {
    hide SystemInv, Act;
    t := OneStep(c, s, CheckTimers(now));
  }

  lemma LateRun(c: Config, start: int, delay: nat) returns (steps: seq<Step>, t: System)
    requires Runnable(c) && Compatible(c) && Total(c) >= 2
    ensures Reaches(c, Initial(start), steps, t) && AckLate(t, delay)
  {
    hide SystemInv, Apply, Total, Idle, NextOf, DataDatagram;
    var s := Initial(start);
    InitialInv(c, start);
    var a, m := StartExchange(c, s);
    RunsArePrompt(c, s, a, m);
    IdleAtFirst(c, m);
    var n := FirstSend(c, m);
    var k := |m.toServer|;
    var o := FirstDelivery(c, n, k);
    var now := Max(o.clock, o.server.transfer.nextAckTime + delay + 1);
    t := TimePasses(c, o, now);
    ReachesJoin(c, n, [ToServer(k, n.clock)], o, [CheckTimers(now)], t);
    ReachesJoin(c, m, [SendData(m.clock)], n, [ToServer(k, n.clock)] + [CheckTimers(now)], t);
    steps := [SendData(m.clock)] + ([ToServer(k, n.clock)] + [CheckTimers(now)]);
    ReachesJoin(c, s, a, m, steps, t);
    steps := a + steps;
  }

  /** A pending ACK means that some chunk has come and some has not. */
  lemma PendingNeedsTwo(c: Config, s: System)
    requires Good(c, s) && PromptNow(s) && s.server.Receiving? && s.server.transfer.ackPending
    ensures Total(c) >= 2
  {
    hide Wires, Ordered, SendingInv, NewestReports, Tracks;
    CountInRange(s.server.transfer);
  }

  ghost predicate CanBeLate(c: Config, start: int, delay: nat)
    requires Runnable(c)
  {
    exists steps: seq<Step>, t: System :: Reaches(c, Initial(start), steps, t) && AckLate(t, delay)
  }

  /** However long the delay, some run keeps an ACK that long: exactly with two chunks or more. */
  lemma LatenessUnbounded(c: Config, start: int, delay: nat)
    requires Runnable(c) && Compatible(c)
    ensures CanBeLate(c, start, delay) <==> Total(c) >= 2
  {
    hide SystemInv, Apply, Total;
    if Total(c) >= 2 {
      var steps, t := LateRun(c, start, delay);
    }
    forall steps: seq<Step>, t: System | Reaches(c, Initial(start), steps, t) && AckLate(t, delay)
      ensures Total(c) >= 2
    {
      ReachableInv(c, start, steps, t);
      RunsArePrompt(c, Initial(start), steps, t);
      PendingNeedsTwo(c, t);
    }
  }
}
