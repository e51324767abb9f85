/** What the invariant means for every run: the safety theorems of the protocol. */
module Delivery {
  import opened Types
  import opened Chunks
  import opened Codec
  import opened Receivers
  import opened Windows
  import opened WindowProperties
  import opened Sending
  import opened Servers
  import opened Clients
  import opened Systems
  import opened SystemInvariant

  /** `s` ends some run of these steps from the start. */
  ghost predicate Run(c: Config, start: int, steps: seq<Step>, s: System) {
    Runnable(c) && Compatible(c) && Reaches(c, Initial(start), steps, s)
  }

  lemma ReachableInv(c: Config, start: int, steps: seq<Step>, s: System)
    requires Run(c, start, steps, s)
    ensures SystemInv(c, s) && SystemOk(c, s)
  {
    InitialInv(c, start);
    ReachesInv(c, Initial(start), steps, s);
  }

  /** All chunks acknowledged means all slices right, hence the whole file. */
  lemma AllAckedOutput(c: Config, s: System)
    requires Runnable(c) && SystemInv(c, s)
    requires HasWindow(s.client) && AllAcked(s.client.sending.window)
    ensures Active(s.server) && s.server.transfer.output == c.input
  {
    hide Wires, Ordered, Coalesced, Settled, Logged, Explained, Counted, Queued, Evidenced;
    var t := s.server.transfer;
    forall i: nat | i < Total(c) ensures SliceMatches(t.output, c.input, ChunkSize(c), i) {
      assert AckedAt(s.client, i);
      assert HasAt(s.server, i);
    }
    SlicesDecide(t.output, c.input, ChunkSize(c), Total(c));
  }

  /**
   * End-to-end safety, in every run over a losing, duplicating, reordering network: a chunk
   * the sender holds as acknowledged is at the server with exactly the input's bytes, and
   * once the base has reached the end the output file is the input file.
   */
  lemma ReliableDelivery(c: Config, start: int, steps: seq<Step>, s: System)
    requires Run(c, start, steps, s) && HasWindow(s.client)
    ensures Active(s.server)
    ensures forall i: nat | AckedAt(s.client, i) ::
      HasAt(s.server, i) && SliceMatches(s.server.transfer.output, c.input, ChunkSize(c), i)
    ensures AllAcked(s.client.sending.window) ==> s.server.transfer.output == c.input
  {
    hide Wires, Ordered, Coalesced, SendingInv, AckedAt, HasAt;
    ReachableInv(c, start, steps, s);
    forall i: nat | AckedAt(s.client, i)
      ensures HasAt(s.server, i) && SliceMatches(s.server.transfer.output, c.input, ChunkSize(c), i)
    {
      HasIsRight(c, s.server, i);
    }
    if AllAcked(s.client.sending.window) {
      AllAckedOutput(c, s);
    }
  }

  lemma HasIsRight(c: Config, s: Server, i: nat)
    requires Runnable(c) && ServerInv(c, s) && HasAt(s, i)
    ensures SliceMatches(s.transfer.output, c.input, ChunkSize(c), i)
  {
  }

  /**
   * SACK snapshots lose nothing: the sender's base never passes the receiver's cumulative ACK,
   * no received chunk is past the bitmap's reach, and the snapshot the server would send now
   * reports exactly the chunks it has.
   */
  lemma SnapshotsLoseNothing(c: Config, start: int, steps: seq<Step>, s: System)
    requires Run(c, start, steps, s) && Active(s.server)
    ensures HasWindow(s.client) ==>
      s.client.sending.window.base <= s.server.transfer.tracker.cumulative
    ensures forall i: nat | HasAt(s.server, i) ::
      i < s.server.transfer.tracker.cumulative + ACK_BITMAP_BITS
    ensures TransferOk(s.server.transfer)
    ensures forall i: nat ::
      Reports(Snapshot(s.server.transfer.tracker, ACK_BITMAP_BITS), i) <==> HasAt(s.server, i)
  {
    ReachableInv(c, start, steps, s);
    CoverageSuffices(c, s.client, s.server);
    SnapshotExact(s.server.transfer.tracker, ACK_BITMAP_BITS);
    forall i: nat
      ensures Reports(Snapshot(s.server.transfer.tracker, ACK_BITMAP_BITS), i) <==> HasAt(s.server, i)
    {
      assert Reports(Snapshot(s.server.transfer.tracker, ACK_BITMAP_BITS), i) <==>
             Has(s.server.transfer.tracker, i);
    }
  }

  /**
   * COMPLETE never meets an incomplete server: whenever one is in transit, the counter, the
   * prefix pointer and the received set all say complete, so the not-complete branch is dead.
   */
  lemma CompleteMeetsComplete(c: Config, start: int, steps: seq<Step>, s: System, k: nat)
    requires Run(c, start, steps, s) && k < |s.toServer|
    requires DecodePacket(s.toServer[k]).Accepted?
    requires DecodePacket(s.toServer[k]).packet.header.kind == COMPLETE
    ensures Active(s.server)
    ensures Complete(s.server.transfer.tracker)
    ensures s.server.transfer.tracker.cumulative == s.server.transfer.start.totalChunks
    ensures s.server.transfer.output == c.input
  {
    ReachableInv(c, start, steps, s);
    assert LegalRequest(c, s.client, s.toServer[k]);
    CompleteMeansReceived(c, s);
    ReliableDelivery(c, start, steps, s);
  }

  /**
   * Neither program fails: no START_ACK or COMPLETE_ACK is rejected, no window is refused, and
   * every COMPLETE_ACK in transit carries the totals the client checks for.
   */
  lemma NobodyFails(c: Config, start: int, steps: seq<Step>, s: System)
    requires Run(c, start, steps, s)
    ensures !s.client.Failed? && !s.server.Stopped?
    ensures forall k: nat | k < |s.toClient| ::
      && DecodePacket(s.toClient[k]).Accepted?
      && (DecodePacket(s.toClient[k]).packet.header.kind == COMPLETE_ACK ==>
            && DecodeCompleteAck(DecodePacket(s.toClient[k]).packet.payload).Some?
            && GoodTotals(c, DecodeCompleteAck(DecodePacket(s.toClient[k]).packet.payload).value))
  {
    ReachableInv(c, start, steps, s);
    forall k: nat | k < |s.toClient|
      ensures DecodePacket(s.toClient[k]).Accepted?
      ensures DecodePacket(s.toClient[k]).packet.header.kind == COMPLETE_ACK ==>
            && DecodeCompleteAck(DecodePacket(s.toClient[k]).packet.payload).Some?
            && GoodTotals(c, DecodeCompleteAck(DecodePacket(s.toClient[k]).packet.payload).value)
    {
      assert LegalReply(c, s.server, s.toClient[k]);
    }
  }

  /**
   * ACK coalescing: at every moment the newest ACK sent omits at most 31 received chunks, and
   * none when no packet is pending or everything has arrived; `ackPending` says exactly
   * whether packets have come since.
   */
  lemma CoalescingBound(c: Config, start: int, steps: seq<Step>, s: System)
    requires Run(c, start, steps, s) && Active(s.server)
    ensures |Omitted(s.server.transfer.tracker, s.toClient)| <= 31
    ensures s.server.transfer.ackPending <==> s.server.transfer.packetsSinceAck > 0
    ensures !s.server.transfer.ackPending || Complete(s.server.transfer.tracker) ==>
      forall i: nat | HasAt(s.server, i) :: NewestReports(s.toClient, i)
  {
    ReachableInv(c, start, steps, s);
    var t := s.server.transfer;
    if !t.ackPending || Complete(t.tracker) {
      assert Omitted(t.tracker, s.toClient) == {};
      forall i: nat | HasAt(s.server, i) ensures NewestReports(s.toClient, i) {
        assert i !in Omitted(t.tracker, s.toClient);
      }
    }
  }

  /** A duplicate or retransmitted DATA packet is answered at once, with an exact ACK. */
  lemma RepeatsAreAnswered(c: Config, start: int, steps: seq<Step>, s: System, k: nat, now: int)
    requires Run(c, start, steps, s) && ServerOk(s.server) && k < |s.toServer|
    requires s.server.Receiving?
    requires DecodePacket(s.toServer[k]).Accepted?
    requires var p := DecodePacket(s.toServer[k]).packet;
      && p.header.kind == DATA
      && (HasAt(s.server, p.header.number) || HasRetransmittedFlag(p.header.flags))
    ensures var (v, sent) := ServerReceive(c.serverMtu, s.server, s.toServer[k], now);
      |sent| == 1 && Exact(sent[0], v)
  {
    ReachableInv(c, start, steps, s);
    assert LegalRequest(c, s.client, s.toServer[k]);
    DataAnswer(c, s.client, s.server.transfer, DecodePacket(s.toServer[k]).packet, s.toClient, now);
    DataTaken(c.serverMtu, s.server.transfer, s.toServer[k], now);
  }

  // ---------------------------------------------------------------- ACK delay

  /** A pending ACK has something to report, and is due within one interval of the present. */
  ghost predicate PromptNow(s: System) {
    Active(s.server) ==> Prompt(s.server.transfer, s.clock) && Backed(s.server.transfer)
  }

  lemma StepKeepsPrompt(c: Config, s: System, step: Step)
    requires Runnable(c) && SystemOk(c, s) && Enabled(s, step) && PromptNow(s)
    ensures PromptNow(Apply(c, s, step))
  {
    hide ServerReceive, ClientReceive, ClientSend, Act;
    if step.ToServer? {
      ReceivePrompt(c.serverMtu, s.server, s.toServer[step.k], s.clock, step.now);
      ReceiveBacked(c.serverMtu, s.server, s.toServer[step.k], step.now);
    }
  }

  lemma {:induction false} RunsArePrompt(c: Config, s: System, steps: seq<Step>, t: System)
    requires Runnable(c) && SystemOk(c, s) && PromptNow(s) && Reaches(c, s, steps, t)
    ensures PromptNow(t) && SystemOk(c, t)
    decreases |steps|
  {
    hide PromptNow, Apply, SystemOk;
    if steps != [] {
      StepKeepsPrompt(c, s, steps[0]);
      RunsArePrompt(c, Apply(c, s, steps[0]), steps[1..], t);
    }
  }

  /**
   * In every run a pending ACK is due at most one interval from now, and whatever DATA packet
   * arrives next, at any later time, stays unanswered only before that due time.
   */
  lemma AckDelayBoundedInRuns(
      c: Config, start: int, steps: seq<Step>, s: System, p: Packet, now: int)
    requires Runnable(c) && Reaches(c, Initial(start), steps, s)
    requires s.server.Receiving? && Fitting(s.server.transfer, p) && s.clock <= now
    ensures TransferOk(s.server.transfer) && Prompt(s.server.transfer, s.clock)
    ensures var t := s.server.transfer;
      var (v, replies) := TakeData(t, p, now);
      && (replies == [] <==> v.ackPending)
      && (replies == [] ==> now < v.nextAckTime <= now + AckInterval(t))
      && (t.ackPending && now >= t.nextAckTime ==> replies != [])
  {
    RunsArePrompt(c, Initial(start), steps, s);
    AckDelayBounded(s.server.transfer, p, s.clock, now);
  }

  lemma ReachableSending(c: Config, start: int, steps: seq<Step>, s: System)
    requires Run(c, start, steps, s) && HasWindow(s.client)
    ensures SendingInv(s.client.sending) && s.client.sending.window.coverage == ACK_BITMAP_BITS
  {
    ReachableInv(c, start, steps, s);
  }

  /** The per-chunk transmission bounds hold in every run of the whole system. */
  lemma TransmissionsBoundedInRuns(
      c: Config, start: int, steps: seq<Step>, s: System, i: nat, span: nat)
    requires Run(c, start, steps, s) && HasWindow(s.client)
    ensures FastCount(s.client.sending.log, i) <= 2730
    ensures Spaced(TimesOf(s.client.sending.log, i))
    ensures SentWithin(s.client.sending.log, i, span) <= 2 + span / REPEAT_DELAY
  {
    ReachableSending(c, start, steps, s);
    BoundsHold(s.client.sending, i, span);
  }

  /** So does the promptness of fast retransmission. */
  lemma FastRetransmissionPromptInRuns(c: Config, start: int, steps: seq<Step>, s: System, i: nat)
    requires Run(c, start, steps, s) && HasWindow(s.client)
    requires i < s.client.sending.window.next <= |s.client.sending.window.chunks|
    requires AckedIn(s.client.sending.window.chunks, i + 1, s.client.sending.window.next) >=
             FAST_RETRANSMIT_THRESHOLD
    ensures || AckedAt(s.client, i)
            || s.client.sending.window.chunks[i].pending
            || |TimesOf(s.client.sending.log, i)| >= 2
  {
    hide SendingInv, Reaches;
    ReachableSending(c, start, steps, s);
    FastIsPrompt(s.client.sending, i);
  }

  // ---------------------------------------------------------------- nothing is undone

  /** The client keeps its window, its acknowledged chunks and what it has issued. */
  ghost predicate ClientOnward(x: Client, y: Client) {
    && (HasWindow(x) ==> HasWindow(y))
    && NextOf(x) <= NextOf(y)
    && forall i: nat | AckedAt(x, i) :: AckedAt(y, i)
  }

  /** Besides, both logs and the clock only grow. */
  ghost predicate Onward(s: System, t: System) {
    && ClientOnward(s.client, t.client)
    && s.toServer <= t.toServer && s.toClient <= t.toClient && s.clock <= t.clock
  }

  /** Along any run acknowledged chunks stay so, and both logs only grow. */
  lemma {:induction false} AckedStays(c: Config, s: System, steps: seq<Step>, t: System)
    requires Runnable(c) && SystemOk(c, s) && SystemInv(c, s) && Reaches(c, s, steps, t)
    ensures Onward(s, t)
    decreases |steps|
  {
    hide SystemInv, SystemOk, Apply, NextOf, AckedAt;
    if steps != [] {
      var m := Apply(c, s, steps[0]);
      ApplyInv(c, s, steps[0]);
      StepOnward(c, s, steps[0]);
      AckedStays(c, m, steps[1..], t);
    }
  }

  lemma StepOnward(c: Config, s: System, step: Step)
    requires Runnable(c) && SystemOk(c, s) && SystemInv(c, s) && Enabled(s, step)
    ensures Onward(s, Apply(c, s, step))
  {
    hide SystemInv, ClientOnward, ClientReceive, ServerReceive, ClientSend, Act;
    InTransit(c, s);
    assert ClientOnward(s.client, Apply(c, s, step).client) by {
      ClientStepOnward(c, s, step);
    }
  }

  lemma ClientStepOnward(c: Config, s: System, step: Step)
    requires Runnable(c) && SystemOk(c, s) && SystemInv(c, s) && Enabled(s, step)
    ensures ClientOnward(s.client, Apply(c, s, step).client)
  {
    hide Wires, Ordered, Coalesced, ClientReceive, ServerReceive, ClientSend, Act, SendingInv;
    if step.SendData? || step.CheckTimers? {
      LoopOnward(c, s.client.sending, step.now);
    } else if step.ToClient? {
      InTransit(c, s);
      ReceiveOnward(c, s.client, s.server, s.toClient[step.k], step.now);
    }
  }

  lemma LoopOnward(c: Config, x: Sending, now: int)
    requires Runnable(c) && WindowFor(c, x)
    ensures ClientOnward(Transferring(x), Transferring(ClientSend(c, x, now).0))
    ensures ClientOnward(Transferring(x), Transferring(Act(x, TimeoutCheck(now))))
  {
    hide Inv, Settled, Logged, Explained, Transmit;
    SendFacts(x.window, now);
  }

  lemma AckOnward(c: Config, x: Sending, ack: AckPayload, now: int)
    requires Runnable(c) && WindowFor(c, x)
    ensures ClientOnward(Transferring(x), Transferring(Act(x, AckArrives(ack, now))))
  {
    hide Inv, Settled, Logged, Explained, ProcessAck, Reports;
    AckFacts(x.window, ack, now);
  }

  lemma SameWindowOnward(x: Client, y: Client)
    requires y == x || (x.Completing? && y.Finished? && y.sending == x.sending)
    ensures ClientOnward(x, y)
  {
  }

  lemma ReceiveOnward(c: Config, x: Client, s: Server, d: Datagram, now: int)
    requires Runnable(c) && ClientOk(c, x) && !x.Failed?
    requires HasWindow(x) ==> WindowFor(c, x.sending)
    requires LegalReply(c, s, d)
    ensures ClientOnward(x, ClientReceive(c, x, d, now))
  {
    assert DecodePacket(d).Accepted?;
    hide WindowFor, ClientReceive, LegalReply, DecodePacket, AckOf, Act, Total;
    var kind := DecodePacket(d).packet.header.kind;
    if x.Transferring? && kind == ACK {
      AckIsProcessed(c, x, s, d, now);
      AckOnward(c, x.sending, AckOf(d).value, now);
    } else if !x.Starting? || kind != START_ACK {
      OtherReply(c, x, s, d, now);
      SameWindowOnward(x, ClientReceive(c, x, d, now));
    }
  }

  // ---------------------------------------------------------------- late ACKs

  /** Delivering an ACK: the client processes it, and the server has what it reports. */
  lemma AckStep(c: Config, s: System, k: nat, now: int)
    requires Runnable(c) && SystemOk(c, s) && SystemInv(c, s) && Enabled(s, ToClient(k, now))
    requires s.client.Transferring? && AckOf(s.toClient[k]).Some?
    ensures Apply(c, s, ToClient(k, now)).client ==
            Transferring(Act(s.client.sending, AckArrives(AckOf(s.toClient[k]).value, now)))
    ensures forall i: nat | Reports(AckOf(s.toClient[k]).value, i) :: HasAt(s.server, i)
  {
    hide SystemInv, ClientReceive, LegalReply, LegalRequest, Act, Reports;
    InTransit(c, s);
    AckIsProcessed(c, s.client, s.server, s.toClient[k], now);
  }

  /** Once an ACK has been processed, everything it reports is acknowledged. */
  lemma ProcessedIsAcked(c: Config, s: System, k: nat, now: int)
    requires Runnable(c) && SystemOk(c, s) && SystemInv(c, s) && Enabled(s, ToClient(k, now))
    requires s.client.Transferring? && AckOf(s.toClient[k]).Some?
    ensures forall i: nat | Reports(AckOf(s.toClient[k]).value, i) ::
      AckedAt(Apply(c, s, ToClient(k, now)).client, i)
  {
    hide Wires, Ordered, Coalesced, Inv, Settled, Logged, Explained, Apply, ProcessAck, AckOf;
    var ack := AckOf(s.toClient[k]).value;
    AckStep(c, s, k, now);
    AckFacts(s.client.sending.window, ack, now);
    forall i: nat | Reports(ack, i) ensures AckedAt(Apply(c, s, ToClient(k, now)).client, i) {
      assert HasAt(s.server, i);
    }
  }

  lemma OlderIsCovered(c: Config, s: System, j: nat, k: nat)
    requires Runnable(c) && SystemInv(c, s) && j <= k < |s.toClient|
    requires AckOf(s.toClient[j]).Some? && AckOf(s.toClient[k]).Some?
    ensures forall i: nat | Reports(AckOf(s.toClient[j]).value, i) ::
      Reports(AckOf(s.toClient[k]).value, i)
  {
    hide Wires, Coalesced, ClientInv, ServerInv, AckOf, Reports;
    assert Covers(s.toClient[j], s.toClient[k]);
  }

  /** Delivering an ACK that reports only acknowledged chunks. */
  lemma NothingNew(c: Config, s: System, j: nat, now: int)
    requires Runnable(c) && SystemOk(c, s) && SystemInv(c, s) && Enabled(s, ToClient(j, now))
    requires s.client.Transferring? && AckOf(s.toClient[j]).Some?
    requires forall i: nat | Reports(AckOf(s.toClient[j]).value, i) :: AckedAt(s.client, i)
    ensures var y := Apply(c, s, ToClient(j, now)).client;
      && y.Transferring?
      && y.sending.window == s.client.sending.window && y.sending.log == s.client.sending.log
  {
    hide Wires, Ordered, Coalesced, Inv, Settled, Logged, Explained, Apply, ProcessAck, AckOf, Reports;
    AckStep(c, s, j, now);
    var w := s.client.sending.window;
    forall i: nat | i < w.next && Reports(AckOf(s.toClient[j]).value, i)
      ensures i < |w.chunks| && w.chunks[i].IsAcked()
    {
      assert AckedAt(s.client, i);
    }
    LateAckIsNoOp(w, AckOf(s.toClient[j]).value, now);
  }

  /**
   * A late ACK is a complete no-op: after ACK `k` has been processed in a run, delivering any
   * ACK `j` sent no later than it, at any later time, leaves the sender's window and log as
   * they are.
   */
  lemma LateAckChangesNothing(
      c: Config, start: int, steps: seq<Step>, s: System, k: nat, at: int,
      more: seq<Step>, t: System, j: nat, now: int)
    requires Run(c, start, steps, s) && SystemOk(c, s)
    requires Enabled(s, ToClient(k, at)) && s.client.Transferring? && AckOf(s.toClient[k]).Some?
    requires Reaches(c, Apply(c, s, ToClient(k, at)), more, t) && SystemOk(c, t)
    requires j <= k && Enabled(t, ToClient(j, now)) && AckOf(t.toClient[j]).Some?
    requires t.client.Transferring?
    ensures Apply(c, t, ToClient(j, now)).client.Transferring?
    ensures Apply(c, t, ToClient(j, now)).client.sending.window == t.client.sending.window
    ensures Apply(c, t, ToClient(j, now)).client.sending.log == t.client.sending.log
  {
    hide SystemInv, Apply, ProcessAck, Reports, NextOf;
    ReachableInv(c, start, steps, s);
    var m := Apply(c, s, ToClient(k, at));
    ApplyInv(c, s, ToClient(k, at));
    ProcessedIsAcked(c, s, k, at);
    StepOnward(c, s, ToClient(k, at));
    AckedStays(c, m, more, t);
    ReachesInv(c, m, more, t);
    OlderIsCovered(c, t, j, k);
    NothingNew(c, t, j, now);
  }

  // ---------------------------------------------------------------- late packets

  ghost predicate HasEverything(s: Server) {
    s.TimeWait? || (s.Receiving? && Complete(s.transfer.tracker))
  }

  lemma StepKeepsOutput(c: Config, s: System, step: Step)
    requires Runnable(c) && SystemOk(c, s) && Enabled(s, step)
    requires HasEverything(s.server)
    ensures HasEverything(Apply(c, s, step).server)
    ensures Apply(c, s, step).server.transfer.output == s.server.transfer.output
  {
    if step.ToServer? {
      CompletedOutputFrozen(c.serverMtu, s.server, s.toServer[step.k], step.now);
    }
  }

  /** After everything has arrived, whatever else is delivered, no byte of the output changes. */
  lemma {:induction false} LatePacketsKeepOutput(c: Config, s: System, steps: seq<Step>, t: System)
    requires Runnable(c) && SystemOk(c, s) && Reaches(c, s, steps, t)
    requires HasEverything(s.server)
    ensures HasEverything(t.server) && t.server.transfer.output == s.server.transfer.output
    decreases |steps|
  {
    if steps != [] {
      StepKeepsOutput(c, s, steps[0]);
      LatePacketsKeepOutput(c, Apply(c, s, steps[0]), steps[1..], t);
    }
  }
}
