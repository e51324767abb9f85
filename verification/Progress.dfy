/** Completion stays reachable: from every reachable state some continuation finishes the transfer. */
module Progress {
  import opened Types
  import opened Chunks
  import opened Codec
  import opened Windows
  import opened WindowQueue
  import opened Sending
  import opened Servers
  import opened Clients
  import opened Systems
  import opened SystemInvariant
  import opened Delivery

  // ---------------------------------------------------------------- joining runs

  lemma {:induction false} ReachesJoin(
      c: Config, s: System, a: seq<Step>, t: System, b: seq<Step>, u: System)
    requires Runnable(c) && SystemOk(c, s) && SystemOk(c, t)
    requires Reaches(c, s, a, t) && Reaches(c, t, b, u)
    ensures Reaches(c, s, a + b, u)
    decreases |a|
  {
    hide Apply, SystemOk;
    if a == [] {
      assert a + b == b;
    } else {
      ReachesJoin(c, Apply(c, s, a[0]), a[1..], t, b, u);
      assert (a + b)[1..] == a[1..] + b;
    }
  }

  /** A good state, and how to get to it. */
  ghost predicate Good(c: Config, s: System) {
    Runnable(c) && SystemOk(c, s) && SystemInv(c, s)
  }

  lemma OneStep(c: Config, s: System, step: Step) returns (t: System)
    requires Good(c, s) && Enabled(s, step)
    ensures Good(c, t) && t == Apply(c, s, step) && Reaches(c, s, [step], t)
  {
    hide SystemInv, Apply;
    t := Apply(c, s, step);
    ApplyInv(c, s, step);
    assert Reaches(c, t, [], t);
    assert [step][1..] == [];
  }

  // ---------------------------------------------------------------- stages of one advance

  /** The logical window both ends agree on. */
  function WindowOf(c: Config): nat
    requires Runnable(c)
  {
    Accept(StartOf(c)).acceptedWindowChunks
  }

  /** The client is in its transfer loop, with this base. */
  ghost predicate At(c: Config, s: System, base: nat) {
    && Good(c, s) && s.client.Transferring? && s.server.Receiving?
    && s.client.sending.window.base == base < Total(c)
  }

  /** Steps the client takes by itself while transferring: timer checks and sends. */
  predicate Local(steps: seq<Step>) {
    forall i: nat | i < |steps| :: steps[i].SendData? || steps[i].CheckTimers?
  }

  lemma InTransfer(c: Config, s: System)
    requires Good(c, s) && s.client.Transferring?
    ensures s.server.Receiving?
  {
    hide Wires, Ordered, Coalesced, SendingInv;
  }

  lemma AtBase(c: Config, s: System)
    requires Good(c, s) && s.client.Transferring? && !AllAcked(s.client.sending.window)
    ensures At(c, s, s.client.sending.window.base)
  {
    InTransfer(c, s);
  }

  /** The base chunk is retransmitted: its flagged datagram is the last one sent. */
  ghost predicate BaseResent(c: Config, s: System, base: nat) {
    && At(c, s, base)
    && base < s.client.sending.window.next
    && s.toServer != []
    && s.toServer[|s.toServer| - 1] == DataDatagram(c, base, true)
  }

  /** A send with the base chunk waiting sends it, or moves it forward. */
  lemma SendTowardsBase(c: Config, s: System, base: nat, p: nat) returns (m: System, p': nat)
    requires At(c, s, base) && Waits(s.client.sending.window, base, p)
    ensures Reaches(c, s, [SendData(s.clock)], m) && At(c, m, base) && m.clock == s.clock
    ensures BaseResent(c, m, base) || (p' < p && Waits(m.client.sending.window, base, p'))
  {
    hide DecodePacket, Select, Wires, Ordered, Coalesced, Settled, Logged, Explained, Counted, Queued,
         Evidenced;
    var w := s.client.sending.window;
    p' := TransmitMovesForward(w, base, p, s.clock);
    SendFacts(w, s.clock);
    m := OneStep(c, s, SendData(s.clock));
    InTransfer(c, m);
  }

  /** A timer check leaves the waiting base chunk where it is. */
  lemma TimersBeforeBase(c: Config, s: System, base: nat, p: nat) returns (m: System)
    requires At(c, s, base) && Waits(s.client.sending.window, base, p)
    ensures Reaches(c, s, [CheckTimers(s.clock)], m) && At(c, m, base) && m.clock == s.clock
    ensures Waits(m.client.sending.window, base, p)
  {
    hide DecodePacket, Select, Wires, Ordered, Coalesced, Settled, Logged, Explained, Counted, Queued,
         Evidenced;
    TimersKeepWaiting(s.client.sending.window, base, p, s.clock);
    m := OneStep(c, s, CheckTimers(s.clock));
    InTransfer(c, m);
  }

  /**
   * Turns of the transfer loop (timers, then send) until the waiting base chunk goes out: no
   * more turns than entries ahead of it, no delivery, and no time passes.
   */
  lemma {:induction false} DrainToBase(c: Config, s: System, base: nat, p: nat)
    returns (steps: seq<Step>, t: System)
    requires At(c, s, base) && Waits(s.client.sending.window, base, p)
    ensures Reaches(c, s, steps, t) && BaseResent(c, t, base)
    ensures |steps| <= 2 * p + 1 && Local(steps) && t.clock == s.clock
    decreases p
  {
    hide SystemInv, Apply, Reaches, Waits, DataDatagram;
    var m, p' := SendTowardsBase(c, s, base, p);
    if BaseResent(c, m, base) {
      steps, t := [SendData(s.clock)], m;
    } else {
      var n := TimersBeforeBase(c, m, base, p');
      var rest, u := DrainToBase(c, n, base, p');
      t := u;
      ReachesJoin(c, m, [CheckTimers(s.clock)], n, rest, u);
      ReachesJoin(c, s, [SendData(s.clock)], m, [CheckTimers(s.clock)] + rest, u);
      steps := [SendData(s.clock)] + ([CheckTimers(s.clock)] + rest);
    }
  }

  /** One RTO after its last send, the timer check queues the base chunk. */
  lemma BaseQueued(c: Config, s: System, base: nat) returns (m: System, p: nat)
    requires At(c, s, base) && base < s.client.sending.window.next
    ensures s.clock <= m.clock <= s.clock + RTO && Reaches(c, s, [CheckTimers(m.clock)], m)
    ensures At(c, m, base) && Waits(m.client.sending.window, base, p) && p < WindowOf(c)
  {
    hide Wires, Ordered, Coalesced, Counted, Queued, Evidenced, CountRight;
    var w := s.client.sending.window;
    assert LoggedAt(w.chunks[base], TimesOf(s.client.sending.log, base),
                    FastCount(s.client.sending.log, base), s.client.sending.clock);
    var now := Max(s.clock, w.chunks[base].lastSent + RTO);
    m := OneStep(c, s, CheckTimers(now));
    InTransfer(c, m);
    p := OverdueWaits(w, base, now);
  }

  /** Then it goes out again. */
  lemma ResendBase(c: Config, s: System, base: nat) returns (steps: seq<Step>, t: System)
    requires At(c, s, base) && base < s.client.sending.window.next
    ensures Reaches(c, s, steps, t) && BaseResent(c, t, base)
    ensures |steps| <= 2 * WindowOf(c) && Local(steps) && t.clock <= s.clock + RTO
  {
    hide SystemInv, Reaches, Apply, WindowOf, Waits, DataDatagram;
    var m, p := BaseQueued(c, s, base);
    var rest, u := DrainToBase(c, m, base, p);
    t := u;
    ReachesJoin(c, s, [CheckTimers(m.clock)], m, rest, u);
    steps := [CheckTimers(m.clock)] + rest;
  }

  /** If nothing is outstanding, the next send issues the base chunk. */
  lemma IssueBase(c: Config, s: System, base: nat) returns (steps: seq<Step>, t: System)
    requires At(c, s, base)
    ensures Reaches(c, s, steps, t) && At(c, t, base) && base < t.client.sending.window.next
    ensures |steps| <= 1 && Local(steps) && t.clock == s.clock
  {
    hide Wires, Ordered, Coalesced, Settled, Logged, Explained, Counted, Queued, Evidenced, Select;
    var w := s.client.sending.window;
    if base < w.next {
      steps, t := [], s;
    } else {
      IssuesBase(w, s.clock);
      t := OneStep(c, s, SendData(s.clock));
      InTransfer(c, t);
      steps := [SendData(s.clock)];
    }
  }

  /** The last datagram in transit to the client is this ACK, and it reports the base chunk. */
  ghost predicate BaseReported(c: Config, s: System, base: nat, ack: AckPayload) {
    && At(c, s, base)
    && s.toClient != []
    && AckOf(s.toClient[|s.toClient| - 1]) == Some(ack)
    && Reports(ack, base)
  }

  /** A flagged chunk is answered at once, whether or not it is a duplicate. */
  lemma ResentIsAnswered(c: Config, s: System, i: nat, k: nat, now: int) returns (d: Datagram)
    requires Good(c, s) && s.client.Transferring? && i < Total(c)
    requires Enabled(s, ToServer(k, now)) && s.toServer[k] == DataDatagram(c, i, true)
    ensures Apply(c, s, ToServer(k, now)).toClient == s.toClient + [d]
    ensures Apply(c, s, ToServer(k, now)).client == s.client
    ensures AckOf(d).Some? && Reports(AckOf(d).value, i)
  {
    hide Ordered, Coalesced, SendingInv, DecodePacket, DataDatagram, TakeData, ServerReceive, AckOf;
    InTransfer(c, s);
    InTransit(c, s);
    DataDecodes(c, i, true);
    var p := DecodePacket(s.toServer[k]).packet;
    DataAnswer(c, s.client, s.server.transfer, p, s.toClient, now);
    DataTaken(c.serverMtu, s.server.transfer, s.toServer[k], now);
    ToServerEffect(c, s, k, now);
    var (v, sent) := TakeData(s.server.transfer, p, now);
    assert HasAt(Receiving(v), i);
    d := sent[0];
    assert sent == [d];
  }

  lemma DeliverBase(c: Config, s: System, base: nat) returns (t: System, ack: AckPayload)
    requires BaseResent(c, s, base)
    ensures Reaches(c, s, [ToServer(|s.toServer| - 1, s.clock)], t) && BaseReported(c, t, base, ack)
    ensures t.clock == s.clock
  {
    hide SystemInv, DecodePacket, ServerReceive, AckOf;
    var d := ResentIsAnswered(c, s, base, |s.toServer| - 1, s.clock);
    ack := AckOf(d).value;
    t := OneStep(c, s, ToServer(|s.toServer| - 1, s.clock));
    InTransfer(c, t);
  }

  /** Once an ACK that reports the base chunk has been processed, the base is past it. */
  lemma AckedMovesBase(c: Config, s: System, base: nat)
    requires Good(c, s) && HasWindow(s.client) && AckedAt(s.client, base)
    requires forall i: nat | i < base :: AckedAt(s.client, i)
    ensures base < s.client.sending.window.base
  {
    hide Wires, Ordered, Coalesced, Settled, Logged, Explained, Counted, Queued, Evidenced;
    var w := s.client.sending.window;
    assert w.base < w.total ==> !AckedAt(s.client, w.base);
  }

  lemma DeliverAck(c: Config, s: System, base: nat, ack: AckPayload) returns (t: System)
    requires BaseReported(c, s, base, ack)
    ensures Reaches(c, s, [ToClient(|s.toClient| - 1, s.clock)], t)
    ensures Good(c, t) && t.client.Transferring? && base < t.client.sending.window.base
    ensures t.clock == s.clock
  {
    hide Wires, Ordered, Coalesced, Settled, Logged, Explained, Counted, Queued, Evidenced, AckOf, Act,
         ClientReceive, Reports, ClientOnward;
    var k := |s.toClient| - 1;
    ProcessedIsAcked(c, s, k, s.clock);
    AckStep(c, s, k, s.clock);
    ClientStepOnward(c, s, ToClient(k, s.clock));
    t := OneStep(c, s, ToClient(k, s.clock));
    forall i: nat | i < base ensures AckedAt(t.client, i) {
      AckedBelowBase(s.client, t.client, i);
    }
    AckedMovesBase(c, t, base);
  }

  lemma AckedBelowBase(x: Client, y: Client, i: nat)
    requires HasWindow(x) && Windows.Shape(x.sending.window) && i < x.sending.window.base
    requires ClientOnward(x, y)
    ensures AckedAt(y, i)
  {
    assert AckedAt(x, i);
  }

  /** How many steps one advance of the base may take. */
  function Budget(c: Config): nat
    requires Runnable(c)
  {
    2 * WindowOf(c) + 3
  }

  /** Client steps, then one delivery to the server, then one delivery to the client. */
  predicate OneDeliveryEachWay(steps: seq<Step>) {
    && |steps| >= 2
    && Local(steps[..|steps| - 2])
    && steps[|steps| - 2].ToServer? && steps[|steps| - 1].ToClient?
  }

  /**
   * From every good unfinished state the base can be advanced: at most one send to issue the
   * base chunk, one timeout, a queue of at most one window drained, one delivery and one ACK
   * delivery, all within one retransmission timeout.
   */
  lemma BaseCanAdvance(c: Config, s: System) returns (steps: seq<Step>, t: System)
    requires Good(c, s) && s.client.Transferring? && !AllAcked(s.client.sending.window)
    ensures Reaches(c, s, steps, t) && Good(c, t) && t.client.Transferring?
    ensures s.client.sending.window.base < t.client.sending.window.base
    ensures |steps| <= Budget(c) && OneDeliveryEachWay(steps) && t.clock <= s.clock + RTO
  {
    hide SystemInv, Apply, Reaches, StartOf, DecodePacket;
    AtBase(c, s);
    var base := s.client.sending.window.base;
    var a, s1 := IssueBase(c, s, base);
    var b, s2 := ResendBase(c, s1, base);
    var s3, ack := DeliverBase(c, s2, base);
    t := DeliverAck(c, s3, base, ack);
    var x := [ToServer(|s2.toServer| - 1, s2.clock)];
    var y := [ToClient(|s3.toClient| - 1, s3.clock)];
    ReachesJoin(c, s2, x, s3, y, t);
    ReachesJoin(c, s1, b, s2, x + y, t);
    ReachesJoin(c, s, a, s1, b + (x + y), t);
    steps := a + (b + (x + y));
    assert steps[..|steps| - 2] == a + b;
  }

  /** Chunks at or above the client's base. */
  function Remaining(c: Config, x: Client): int
    requires Runnable(c) && HasWindow(x)
  {
    Total(c) - x.sending.window.base
  }

  /** How many steps the whole transfer may take. */
  function TransferBudget(c: Config): nat
    requires Runnable(c)
  {
    Total(c) * Budget(c)
  }

  /** One more advance fits the budget and the time for all of them. */
  lemma BudgetAdds(left: nat, rest: nat, unit: nat)
    requires rest < left
    ensures rest * unit + unit <= left * unit
  {
    MulLess(rest + 1, left, unit);
  }

  lemma RemainingCounts(c: Config, s: System)
    requires Good(c, s) && HasWindow(s.client)
    ensures 0 <= Remaining(c, s.client) <= Total(c)
    ensures Remaining(c, s.client) == 0 <==> AllAcked(s.client.sending.window)
  {
    hide Wires, Ordered, Coalesced, Settled, Logged, Explained, Counted, Queued, Evidenced;
  }

  lemma {:induction false} AllAckedReachable(c: Config, s: System) returns (steps: seq<Step>, t: System)
    requires Good(c, s) && s.client.Transferring?
    ensures Reaches(c, s, steps, t) && Good(c, t)
    ensures t.client.Transferring? && AllAcked(t.client.sending.window)
    ensures 0 <= Remaining(c, s.client) && |steps| <= Remaining(c, s.client) * Budget(c)
    ensures t.clock <= s.clock + Remaining(c, s.client) * RTO
    decreases Remaining(c, s.client)
  {
    hide SystemInv, Apply, Total, Budget;
    RemainingCounts(c, s);
    if AllAcked(s.client.sending.window) {
      steps, t := [], s;
    } else {
      var a, m := BaseCanAdvance(c, s);
      var b, u := AllAckedReachable(c, m);
      t := u;
      RemainingCounts(c, m);
      BudgetAdds(Remaining(c, s.client), Remaining(c, m.client), Budget(c));
      BudgetAdds(Remaining(c, s.client), Remaining(c, m.client), RTO);
      ReachesJoin(c, s, a, m, b, u);
      steps := a + b;
    }
  }

  // ---------------------------------------------------------------- the two exchanges

  lemma StartExchange(c: Config, s: System) returns (steps: seq<Step>, t: System)
    requires Good(c, s) && s.client.Starting?
    ensures Reaches(c, s, steps, t) && Good(c, t)
    ensures t.client.Transferring? && NextOf(t.client) == 0
    ensures |steps| <= 3 && t.clock == s.clock
  {
    hide SystemInv, ServerReceive, ClientReceive, StartDatagram, DecodePacket, Reaches, Opened;
    var a := OneStep(c, s, SendStart(s.clock));
    var k := |a.toServer| - 1;
    StartDecodes(c);
    var b := OneStep(c, a, ToServer(k, s.clock));
    StartIsAnswered(c, a, k);
    var j := |b.toClient| - 1;
    StartAckIsTaken(c, b, j);
    OpenedFor(c, s.clock);
    t := OneStep(c, b, ToClient(j, s.clock));
    ReachesJoin(c, a, [ToServer(k, s.clock)], b, [ToClient(j, s.clock)], t);
    ReachesJoin(c, s, [SendStart(s.clock)], a, [ToServer(k, s.clock)] + [ToClient(j, s.clock)], t);
    steps := [SendStart(s.clock)] + ([ToServer(k, s.clock)] + [ToClient(j, s.clock)]);
  }

  /** Delivering START, first or repeated, puts a START_ACK at the end of the reply log. */
  lemma StartIsAnswered(c: Config, s: System, k: nat)
    requires Good(c, s) && s.client.Starting? && k < |s.toServer|
    requires DecodePacket(s.toServer[k]).Accepted?
    requires DecodePacket(s.toServer[k]).packet.header.kind == START
    ensures Apply(c, s, ToServer(k, s.clock)).toClient ==
            s.toClient + [StartAckDatagram(c.session, Accept(StartOf(c)))]
    ensures Apply(c, s, ToServer(k, s.clock)).client == s.client
  {
    hide Wires, Ordered, Coalesced, ServerReceive, LegalReply, LegalRequest, StartOf, DecodePacket,
         NewTransfer, StartAckDatagram;
    InTransit(c, s);
    ToServerEffect(c, s, k, s.clock);
    StartReply(c, s.client, s.server, s.toServer[k], s.clock);
  }

  lemma StartAckIsTaken(c: Config, s: System, j: nat)
    requires Good(c, s) && s.client.Starting? && j < |s.toClient|
    requires s.toClient[j] == StartAckDatagram(c.session, Accept(StartOf(c)))
    ensures ClientReceive(c, s.client, s.toClient[j], s.clock) == Transferring(Opened(c, s.clock))
  {
    hide SystemInv, ClientReceive, LegalReply, LegalRequest, Opened;
    InTransit(c, s);
    PayloadWidths();
    PackDecodes(START_ACK, c.session, 0, 0, EncodeStartAck(Accept(StartOf(c))));
    StartAckOpens(c, s.server, s.toClient[j], s.clock);
  }

  /** Delivering the COMPLETE just sent puts a COMPLETE_ACK at the end of the reply log. */
  lemma CompleteIsAnswered(c: Config, s: System, k: nat) returns (t: System)
    requires Good(c, s) && s.client.Completing? && k < |s.toServer|
    requires s.toServer[k] == CompleteDatagram(c)
    ensures Reaches(c, s, [ToServer(k, s.clock)], t) && Good(c, t) && t.clock == s.clock
    ensures t.client == s.client && t.server.TimeWait? && t.toClient != []
    ensures GoodTotals(c, t.server.completed)
    ensures t.toClient[|t.toClient| - 1] == CompleteAckDatagram(c.session, Total(c), t.server.completed)
  {
    hide Wires, Ordered, Coalesced, WindowFor, ServerReceive, CompleteAckDatagram, LegalReply, AckOf;
    CompleteLegal(c, s.client);
    CompleteMeansReceived(c, s);
    CompleteAnswer(c, s.server, s.toServer[k], s.clock);
    var sent := ServerReceive(c.serverMtu, s.server, s.toServer[k], s.clock).1;
    ToServerEffect(c, s, k, s.clock);
    t := OneStep(c, s, ToServer(k, s.clock));
    assert t.toClient == s.toClient + sent;
  }

  lemma CompleteAckFinishes(c: Config, s: System, j: nat)
    requires Good(c, s) && s.client.Completing? && s.server.TimeWait? && j < |s.toClient|
    requires GoodTotals(c, s.server.completed)
    requires s.toClient[j] == CompleteAckDatagram(c.session, Total(c), s.server.completed)
    ensures ClientReceive(c, s.client, s.toClient[j], s.clock).Finished?
  {
    hide SystemInv, CompleteAckDatagram;
    CompleteAckLegal(c, s.server, s.server.completed);
  }

  lemma CompleteExchange(c: Config, s: System) returns (steps: seq<Step>, t: System)
    requires Good(c, s) && Enabled(s, SendComplete(s.clock))
    ensures Reaches(c, s, steps, t) && Good(c, t) && t.client.Finished?
    ensures |steps| <= 3 && t.clock == s.clock
  {
    hide SystemInv, ServerReceive, ClientReceive, CompleteDatagram, CompleteAckDatagram, GoodTotals,
         Reaches, AllAcked;
    var a := OneStep(c, s, SendComplete(s.clock));
    var k := |a.toServer| - 1;
    assert a.toServer[k] == CompleteDatagram(c);
    var b := CompleteIsAnswered(c, a, k);
    var j := |b.toClient| - 1;
    CompleteAckFinishes(c, b, j);
    t := OneStep(c, b, ToClient(j, s.clock));
    ReachesJoin(c, a, [ToServer(k, s.clock)], b, [ToClient(j, s.clock)], t);
    ReachesJoin(c, s, [SendComplete(s.clock)], a, [ToServer(k, s.clock)] + [ToClient(j, s.clock)], t);
    steps := [SendComplete(s.clock)] + ([ToServer(k, s.clock)] + [ToClient(j, s.clock)]);
  }

  lemma FinishTransfer(c: Config, s: System) returns (steps: seq<Step>, t: System)
    requires Good(c, s) && s.client.Transferring?
    ensures Reaches(c, s, steps, t) && Good(c, t) && t.client.Finished?
    ensures |steps| <= TransferBudget(c) + 3 && t.clock <= s.clock + Total(c) * RTO
  {
    hide SystemInv, Apply, Reaches, Total, Budget;
    RemainingCounts(c, s);
    MulLess(Remaining(c, s.client), Total(c), Budget(c));
    MulLess(Remaining(c, s.client), Total(c), RTO);
    var a, m := AllAckedReachable(c, s);
    var b, u := CompleteExchange(c, m);
    t := u;
    ReachesJoin(c, s, a, m, b, u);
    steps := a + b;
  }

  /** The client has not failed; while completing it may send COMPLETE; finished, it is all acked. */
  lemma CompletingCanFinish(c: Config, s: System)
    requires Good(c, s)
    ensures !s.client.Failed? && (s.client.Completing? ==> Enabled(s, SendComplete(s.clock)))
    ensures s.client.Finished? ==> AllAcked(s.client.sending.window)
  {
    hide Wires, Ordered, Coalesced, SendingInv;
  }

  lemma FinishReachable(c: Config, s: System) returns (steps: seq<Step>, t: System)
    requires Good(c, s)
    ensures Reaches(c, s, steps, t) && Good(c, t) && t.client.Finished?
    ensures |steps| <= TransferBudget(c) + 6 && t.clock <= s.clock + Total(c) * RTO
  {
    hide SystemInv, Apply, Total, TransferBudget;
    CompletingCanFinish(c, s);
    match s.client
    case Starting =>
      var a, m := StartExchange(c, s);
      var b, u := FinishTransfer(c, m);
      t := u;
      ReachesJoin(c, s, a, m, b, u);
      steps := a + b;
    case Transferring(_) => steps, t := FinishTransfer(c, s);
    case Completing(_) => steps, t := CompleteExchange(c, s);
    case Finished(_, _) => steps, t := [], s;
  }

  /**
   * Whatever has been lost, duplicated or reordered so far, some continuation ends with the
   * client finished, its final check passed, and the output equal to the input; it takes at
   * most one budget of steps and one retransmission timeout per chunk, and two handshakes.
   */
  lemma CompletionStaysReachable(c: Config, start: int, steps: seq<Step>, s: System)
    returns (more: seq<Step>, t: System)
    requires Run(c, start, steps, s)
    ensures SystemOk(c, s) && Reaches(c, s, more, t)
    ensures t.client.Finished? && Active(t.server) && t.server.transfer.output == c.input
    ensures |more| <= TransferBudget(c) + 6 && t.clock <= s.clock + Total(c) * RTO
  {
    hide SystemInv, Total, TransferBudget, Apply;
    ReachableInv(c, start, steps, s);
    more, t := FinishReachable(c, s);
    CompletingCanFinish(c, t);
    ReachesJoin(c, Initial(start), steps, s, more, t);
    ReliableDelivery(c, start, steps + more, t);
  }
}
