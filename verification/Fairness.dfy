/**
 * Progress of every run that is fair enough, not only of a well-chosen one: whatever else is
 * interleaved, a send, an expired timer check, a window's worth of sends, a delivery of the
 * resent base chunk and a delivery of its answer move the base.
 */
module Fairness {
  import opened Types
  import opened Codec
  import opened Windows
  import opened WindowProperties
  import opened WindowQueue
  import opened Sending
  import opened Servers
  import opened Clients
  import opened Systems
  import opened SystemInvariant
  import opened Delivery
  import opened Progress

  /** The number of data sends among some steps. */
  function Sends(steps: seq<Step>): nat {
    if steps == [] then 0 else (if steps[0].SendData? then 1 else 0) + Sends(steps[1..])
  }

  /** A good state with a window in which every chunk below `b` is acknowledged. */
  ghost predicate Upto(c: Config, s: System, b: nat) {
    && Good(c, s) && HasWindow(s.client) && b < Total(c)
    && forall i: nat | i < b :: AckedAt(s.client, i)
  }

  /** Unless `b` is acknowledged too, it is the base and the client is in its loop. */
  lemma UptoBase(c: Config, s: System, b: nat)
    requires Upto(c, s, b)
    ensures AckedAt(s.client, b) || At(c, s, b)
  {
    hide Wires, Ordered, Coalesced, Settled, Logged, Explained, Counted, Queued, Evidenced;
    var w := s.client.sending.window;
    assert w.base < b ==> AckedAt(s.client, w.base);
    if s.client.Transferring? {
      InTransfer(c, s);
    }
  }

  lemma UptoStays(c: Config, s: System, steps: seq<Step>, t: System, b: nat)
    requires Upto(c, s, b) && Reaches(c, s, steps, t)
    ensures Upto(c, t, b) && Onward(s, t)
  {
    hide SystemInv, AckedAt;
    ReachesInv(c, s, steps, t);
    AckedStays(c, s, steps, t);
  }

  lemma UptoStep(c: Config, s: System, step: Step, b: nat)
    requires Upto(c, s, b) && Enabled(s, step)
    ensures Upto(c, Apply(c, s, step), b) && Onward(s, Apply(c, s, step))
  {
    hide SystemInv, AckedAt, Apply;
    ApplyInv(c, s, step);
    StepOnward(c, s, step);
  }

  // ---------------------------------------------------------------- issuing the base chunk

  ghost predicate Issued(s: System, b: nat) {
    AckedAt(s.client, b) || b < NextOf(s.client)
  }

  lemma SendIssues(c: Config, s: System, b: nat, now: int)
    requires At(c, s, b) && Enabled(s, SendData(now))
    ensures b < NextOf(Apply(c, s, SendData(now)).client)
  {
    hide Wires, Ordered, Coalesced, Settled, Logged, Explained, Counted, Queued, Evidenced, Select;
    var w := s.client.sending.window;
    if b == w.next {
      IssuesBase(w, now);
    } else {
      SendFacts(w, now);
    }
  }

  /** One send somewhere issues the base chunk, if that had not been done. */
  lemma {:induction false} SomeSendIssues(c: Config, s: System, steps: seq<Step>, t: System, b: nat)
    requires Upto(c, s, b) && Reaches(c, s, steps, t) && (Sends(steps) > 0 || Issued(s, b))
    ensures Issued(t, b)
    decreases |steps|
  {
    hide SystemInv, Apply, NextOf, AckedAt;
    if steps != [] {
      var m := Apply(c, s, steps[0]);
      UptoStep(c, s, steps[0], b);
      UptoBase(c, s, b);
      if steps[0].SendData? && !AckedAt(s.client, b) {
        SendIssues(c, s, b, steps[0].now);
      }
      SomeSendIssues(c, m, steps[1..], t, b);
    }
  }

  // ---------------------------------------------------------------- the queue under any steps

  /** The flagged datagram of chunk `b` was sent after the first `n` requests. */
  ghost predicate ResentSince(c: Config, s: System, b: nat, n: nat) {
    Runnable(c) && b < Total(c) &&
    exists k: nat :: n <= k < |s.toServer| && s.toServer[k] == DataDatagram(c, b, true)
  }

  lemma SendKeepsWaiting(c: Config, s: System, b: nat, p: nat, now: int) returns (p': nat)
    requires At(c, s, b) && Waits(s.client.sending.window, b, p) && Enabled(s, SendData(now))
    ensures var m := Apply(c, s, SendData(now));
      || ResentSince(c, m, b, |s.toServer|)
      || (m.client.Transferring? && p' < p && Waits(m.client.sending.window, b, p'))
  {
    hide Wires, Ordered, Coalesced, Settled, Logged, Explained, Counted, Queued, Evidenced, Select,
         DataDatagram;
    p' := TransmitMovesForward(s.client.sending.window, b, p, now);
    var m := Apply(c, s, SendData(now));
    if Transmit(s.client.sending.window, now).1.value.sequence == b {
      assert m.toServer[|s.toServer|] == DataDatagram(c, b, true);
    }
  }

  lemma DeliveryKeepsWaiting(c: Config, s: System, b: nat, p: nat, k: nat, now: int)
    requires At(c, s, b) && Waits(s.client.sending.window, b, p) && Enabled(s, ToClient(k, now))
    ensures var m := Apply(c, s, ToClient(k, now));
      || AckedAt(m.client, b)
      || (m.client.Transferring? && Waits(m.client.sending.window, b, p))
  {
    hide Wires, Ordered, Coalesced, Settled, Logged, Explained, Counted, Queued, Evidenced, AckOf,
         ProcessAck,
         ClientReceive, LegalReply, LegalRequest;
    InTransit(c, s);
    var d := s.toClient[k];
    if AckOf(d).Some? {
      AckStep(c, s, k, now);
      AckKeepsWaiting(s.client.sending.window, AckOf(d).value, now, b, p);
    } else {
      NotAnAckKeeps(c, s.client, s.server, d, now);
    }
  }

  /** In the transfer loop only ACKs matter. */
  lemma NotAnAckKeeps(c: Config, x: Client, s: Server, d: Datagram, now: int)
    requires Runnable(c) && ClientOk(c, x) && x.Transferring? && LegalReply(c, s, d)
    requires AckOf(d).None?
    ensures ClientReceive(c, x, d, now) == x
  {
    hide DecodePacket, StartOf;
  }

  /** Any step leaves the waiting chunk at least as close to the front, and a send brings it closer. */
  lemma StepKeepsWaiting(c: Config, s: System, step: Step, b: nat, p: nat) returns (p': nat)
    requires At(c, s, b) && Waits(s.client.sending.window, b, p) && Enabled(s, step)
    ensures var m := Apply(c, s, step);
      || AckedAt(m.client, b)
      || ResentSince(c, m, b, |s.toServer|)
      || (&& m.client.Transferring? && p' <= p && (step.SendData? ==> p' < p)
          && Waits(m.client.sending.window, b, p'))
  {
    hide Wires, Ordered, Coalesced, Settled, Logged, Explained, Counted, Queued, Evidenced, ResentSince,
         ClientReceive, ServerReceive, ClientSend, CheckTimeouts;
    p' := p;
    match step
    case SendData(now) => p' := SendKeepsWaiting(c, s, b, p, now);
    case CheckTimers(now) => TimersKeepWaiting(s.client.sending.window, b, p, now);
    case ToClient(k, now) => DeliveryKeepsWaiting(c, s, b, p, k, now);
    case ToServer(_, _) =>
    case SendStart(_) =>
    case SendComplete(_) =>
  }

  /** More sends than entries ahead of it, whatever is interleaved, retransmit a waiting chunk. */
  lemma {:induction false} SendsReachBase(
      c: Config, s: System, steps: seq<Step>, t: System, b: nat, p: nat)
    requires Upto(c, s, b) && s.client.Transferring? && Waits(s.client.sending.window, b, p)
    requires Reaches(c, s, steps, t) && Sends(steps) > p
    ensures AckedAt(t.client, b) || ResentSince(c, t, b, |s.toServer|)
    decreases |steps|
  {
    hide SystemInv, Apply, AckedAt, Waits;
    var m := Apply(c, s, steps[0]);
    UptoStep(c, s, steps[0], b);
    UptoBase(c, s, b);
    UptoStays(c, m, steps[1..], t, b);
    if !AckedAt(s.client, b) {
      var p' := StepKeepsWaiting(c, s, steps[0], b, p);
      if !AckedAt(m.client, b) {
        if ResentSince(c, m, b, |s.toServer|) {
          ResentStays(c, m, t, b, |s.toServer|);
        } else {
          SendsReachBase(c, m, steps[1..], t, b, p');
          assert |s.toServer| <= |m.toServer|;
        }
      }
    }
  }

  lemma ResentStays(c: Config, s: System, t: System, b: nat, n: nat)
    requires ResentSince(c, s, b, n) && s.toServer <= t.toServer
    ensures ResentSince(c, t, b, n)
  {
    hide DataDatagram, Runnable, Total;
    var k: nat :| n <= k < |s.toServer| && s.toServer[k] == DataDatagram(c, b, true);
    assert t.toServer[k] == DataDatagram(c, b, true);
  }

  // ---------------------------------------------------------------- fair rounds

  /**
   * A stretch of a run, cut at the steps that matter: anything with a send in it; a timer
   * check; anything with a window's worth of sends; a delivery to the server; anything; a
   * delivery to the client.
   */
  datatype Round = Round(
    before: seq<Step>, checked: System, timer: int,
    sends: seq<Step>, sent: System, k: nat, arrived: int,
    after: seq<Step>, answered: System, heard: int, end: System)

  /** The timer of chunk `b` has run out at this time, unless it is queued already. */
  ghost predicate Overdue(s: System, b: nat, now: int) {
    && HasWindow(s.client) && b < |s.client.sending.window.chunks|
    && var chunk := s.client.sending.window.chunks[b];
      chunk.pending || now - chunk.lastSent >= RTO
  }

  /** The steps of the round follow each other from `s`. */
  ghost predicate Follows(c: Config, s: System, r: Round) {
    && Good(c, s)
    && Reaches(c, s, r.before, r.checked)
    && SystemOk(c, r.checked) && Enabled(r.checked, CheckTimers(r.timer))
    && Reaches(c, Apply(c, r.checked, CheckTimers(r.timer)), r.sends, r.sent)
    && SystemOk(c, r.sent) && Enabled(r.sent, ToServer(r.k, r.arrived))
    && Reaches(c, Apply(c, r.sent, ToServer(r.k, r.arrived)), r.after, r.answered)
    && SystemOk(c, r.answered) && Enabled(r.answered, ToClient(|r.sent.toClient|, r.heard))
    && r.end == Apply(c, r.answered, ToClient(|r.sent.toClient|, r.heard))
  }

  /**
   * The round serves chunk `b`: there are enough sends, the timer has expired, if the chunk was
   * resent then a copy is what is delivered, and (by `Follows`) the reply heard is the first one
   * after that. Once the chunk is acknowledged nothing more is asked.
   */
  ghost predicate Serves(c: Config, r: Round, b: nat)
    requires Runnable(c) && b < Total(c)
  {
    && Sends(r.before) >= 1
    && (AckedAt(r.checked.client, b) || Overdue(r.checked, b, r.timer))
    && Sends(r.sends) >= WindowOf(c)
    && (AckedAt(r.sent.client, b) || !ResentSince(c, r.sent, b, |r.checked.toServer|) ||
        (r.k < |r.sent.toServer| && r.sent.toServer[r.k] == DataDatagram(c, b, true)))
  }

  /** An overdue base chunk waits in the queue after the timer check, within one window. */
  lemma TimerQueues(c: Config, s: System, b: nat, now: int) returns (p: nat)
    requires At(c, s, b) && b < NextOf(s.client) && Overdue(s, b, now)
    requires Enabled(s, CheckTimers(now))
    ensures Apply(c, s, CheckTimers(now)).client.Transferring?
    ensures Waits(Apply(c, s, CheckTimers(now)).client.sending.window, b, p) && p < WindowOf(c)
  {
    hide Wires, Ordered, Coalesced, Logged, Explained, Counted, Queued, Evidenced, CheckTimeouts, CountRight;
    p := OverdueWaits(s.client.sending.window, b, now);
  }

  /** After the timer check and the sends of the round, the base chunk is acknowledged or resent. */
  lemma RoundResends(c: Config, s: System, r: Round, b: nat)
    requires Follows(c, s, r) && Upto(c, s, b) && Serves(c, r, b)
    ensures Upto(c, r.sent, b)
    ensures AckedAt(r.sent.client, b) || ResentSince(c, r.sent, b, |r.checked.toServer|)
  {
    hide SystemInv, Apply, AckedAt, Waits, Overdue, NextOf;
    UptoStays(c, s, r.before, r.checked, b);
    SomeSendIssues(c, s, r.before, r.checked, b);
    UptoBase(c, r.checked, b);
    var m := Apply(c, r.checked, CheckTimers(r.timer));
    UptoStep(c, r.checked, CheckTimers(r.timer), b);
    UptoStays(c, m, r.sends, r.sent, b);
    if !AckedAt(r.checked.client, b) {
      var p := TimerQueues(c, r.checked, b, r.timer);
      SendsReachBase(c, m, r.sends, r.sent, b, p);
      CheckSendsNothing(c, r.checked, r.timer);
    }
  }

  lemma CheckSendsNothing(c: Config, s: System, now: int)
    requires Runnable(c) && SystemOk(c, s) && Enabled(s, CheckTimers(now))
    ensures Apply(c, s, CheckTimers(now)).toServer == s.toServer
  {
    hide Act;
  }

  /** If the resent chunk is delivered and its answer heard, it is acknowledged. */
  lemma RoundAcknowledges(c: Config, s: System, r: Round, b: nat)
    requires Follows(c, s, r) && Upto(c, r.sent, b) && Serves(c, r, b)
    requires AckedAt(r.sent.client, b) || ResentSince(c, r.sent, b, |r.checked.toServer|)
    ensures Upto(c, r.end, b) && AckedAt(r.end.client, b)
  {
    hide SystemInv, Apply, AckedAt, AckOf, Reports, NextOf, DataDatagram, ResentSince;
    var m := Apply(c, r.sent, ToServer(r.k, r.arrived));
    var j := |r.sent.toClient|;
    UptoBase(c, r.sent, b);
    UptoStep(c, r.sent, ToServer(r.k, r.arrived), b);
    UptoStays(c, m, r.after, r.answered, b);
    UptoStep(c, r.answered, ToClient(j, r.heard), b);
    UptoBase(c, r.answered, b);
    if !AckedAt(r.answered.client, b) {
      var d := ResentIsAnswered(c, r.sent, b, r.k, r.arrived);
      assert r.answered.toClient[j] == d;
      ProcessedIsAcked(c, r.answered, j, r.heard);
    }
  }

  /**
   * Every round that serves the base chunk moves the base, whatever else happens in it: any
   * other sends, timer checks, losses, duplicates and reorderings.
   */
  lemma FairRoundAdvances(c: Config, s: System, r: Round)
    requires Follows(c, s, r) && HasWindow(s.client)
    requires s.client.sending.window.base < Total(c) && Serves(c, r, s.client.sending.window.base)
    ensures Good(c, r.end) && HasWindow(r.end.client)
    ensures s.client.sending.window.base < r.end.client.sending.window.base
  {
    hide Wires, Ordered, Coalesced, Settled, Logged, Explained, Counted, Queued, Evidenced, Reaches, Apply,
         Enabled, Serves;
    var b := s.client.sending.window.base;
    assert Upto(c, s, b);
    RoundResends(c, s, r, b);
    RoundAcknowledges(c, s, r, b);
    AckedMovesBase(c, r.end, b);
  }

  // ---------------------------------------------------------------- such rounds exist

  /** Sending and checking timers acknowledge nothing, and leave the client in its loop. */
  lemma LocalStep(c: Config, s: System, step: Step, b: nat)
    requires Good(c, s) && Enabled(s, step) && (step.SendData? || step.CheckTimers?)
    requires !AckedAt(s.client, b)
    ensures var t := Apply(c, s, step);
      t.client.Transferring? && !AckedAt(t.client, b) && t.clock == step.now
  {
    hide Wires, Ordered, Coalesced, Settled, Logged, Explained, Counted, Queued, Evidenced, Transmit;
    SendFacts(s.client.sending.window, step.now);
  }

  /** Any number of sends in a row. */
  lemma {:induction false} ManySends(c: Config, s: System, n: nat, b: nat)
    returns (steps: seq<Step>, t: System)
    requires Good(c, s) && s.client.Transferring? && !AckedAt(s.client, b)
    ensures Reaches(c, s, steps, t) && Sends(steps) == n
    ensures Good(c, t) && t.client.Transferring? && !AckedAt(t.client, b)
    decreases n
  {
    hide SystemInv, Apply, AckedAt;
    if n == 0 {
      steps, t := [], s;
    } else {
      var m := OneStep(c, s, SendData(s.clock));
      LocalStep(c, s, SendData(s.clock), b);
      var rest, u := ManySends(c, m, n - 1, b);
      t := u;
      steps := [SendData(s.clock)] + rest;
      ReachesJoin(c, s, [SendData(s.clock)], m, rest, u);
    }
  }

  /** The time at which the timer of the base chunk has run out. */
  lemma BecomesOverdue(c: Config, s: System, b: nat) returns (now: int)
    requires Good(c, s) && s.client.Transferring? && b < Total(c)
    ensures s.clock <= now && Overdue(s, b, now)
  {
    hide Wires, Ordered, Coalesced, SendingInv;
    now := Max(s.clock, s.client.sending.window.chunks[b].lastSent + RTO);
  }

  /** From every good unfinished state some round serves the base chunk. */
  lemma FairRoundExists(c: Config, s: System) returns (r: Round)
    requires Good(c, s) && s.client.Transferring? && !AllAcked(s.client.sending.window)
    ensures Follows(c, s, r) && s.client.sending.window.base < Total(c)
    ensures Serves(c, r, s.client.sending.window.base)
  {
    hide SystemInv, Apply, AckedAt, Overdue, Reports, AckOf, DataDatagram, Waits, WindowOf;
    var b := s.client.sending.window.base;
    AtBase(c, s);
    BaseUnacked(c, s, b);
    var before, checked := ManySends(c, s, 1, b);
    var timer := BecomesOverdue(c, checked, b);
    var m := OneStep(c, checked, CheckTimers(timer));
    LocalStep(c, checked, CheckTimers(timer), b);
    var sends, sent := ManySends(c, m, WindowOf(c), b);
    UptoStays(c, s, before, checked, b);
    SomeSendIssues(c, s, before, checked, b);
    UptoBase(c, checked, b);
    UptoStep(c, checked, CheckTimers(timer), b);
    var p := TimerQueues(c, checked, b, timer);
    SendsReachBase(c, m, sends, sent, b, p);
    CheckSendsNothing(c, checked, timer);
    var k: nat :| |checked.toServer| <= k < |sent.toServer| &&
                  sent.toServer[k] == DataDatagram(c, b, true);
    var d := ResentIsAnswered(c, sent, b, k, sent.clock);
    var n := OneStep(c, sent, ToServer(k, sent.clock));
    DeliveryTakesNoTime(c, sent, k);
    var j := |sent.toClient|;
    r := Round(before, checked, timer, sends, sent, k, sent.clock, [], n, n.clock,
               Apply(c, n, ToClient(j, n.clock)));
  }

  lemma DeliveryTakesNoTime(c: Config, s: System, k: nat)
    requires Runnable(c) && SystemOk(c, s) && k < |s.toServer|
    ensures Apply(c, s, ToServer(k, s.clock)).clock == s.clock
  {
    hide ServerReceive;
  }

  lemma BaseUnacked(c: Config, s: System, b: nat)
    requires At(c, s, b)
    ensures Upto(c, s, b) && !AckedAt(s.client, b)
  {
    hide Wires, Ordered, Coalesced, Settled, Logged, Explained, Counted, Queued, Evidenced;
  }

  /** Rounds one after the other, each serving the base it starts with while there is one. */
  ghost predicate FairRun(c: Config, s: System, rounds: seq<Round>, t: System)
    requires Good(c, s) && HasWindow(s.client)
    decreases |rounds|
  {
    if rounds == [] then t == s
    else
      && Follows(c, s, rounds[0]) && Good(c, rounds[0].end) && HasWindow(rounds[0].end.client)
      && (s.client.sending.window.base < Total(c) ==>
            Serves(c, rounds[0], s.client.sending.window.base))
      && FairRun(c, rounds[0].end, rounds[1..], t)
  }

  /** As many fair rounds as there are chunks left acknowledge everything, in every such run. */
  lemma {:induction false} FairRunsComplete(c: Config, s: System, rounds: seq<Round>, t: System)
    requires Good(c, s) && HasWindow(s.client) && FairRun(c, s, rounds, t)
    requires |rounds| >= Remaining(c, s.client)
    ensures Good(c, t) && HasWindow(t.client) && AllAcked(t.client.sending.window)
    ensures Active(t.server) && t.server.transfer.output == c.input
    decreases |rounds|
  {
    hide SystemInv, Apply, Reaches, Serves, Total;
    RemainingCounts(c, s);
    if rounds == [] {
      AllAckedOutput(c, s);
    } else {
      var m := rounds[0].end;
      if Remaining(c, s.client) > 0 {
        FairRoundAdvances(c, s, rounds[0]);
      } else {
        RoundKeepsAll(c, s, rounds[0]);
      }
      FairRunsComplete(c, m, rounds[1..], t);
    }
  }

  lemma RoundKeepsAll(c: Config, s: System, r: Round)
    requires Follows(c, s, r) && HasWindow(s.client) && AllAcked(s.client.sending.window)
    requires Good(c, r.end) && HasWindow(r.end.client)
    ensures AllAcked(r.end.client.sending.window)
  {
    hide SystemInv, Apply, Reaches;
    RunIsOnward(c, s, r);
    StayAllAcked(c, s, r.end);
  }

  lemma StayAllAcked(c: Config, s: System, t: System)
    requires Good(c, s) && HasWindow(s.client) && AllAcked(s.client.sending.window)
    requires Good(c, t) && HasWindow(t.client) && Onward(s, t)
    ensures AllAcked(t.client.sending.window)
  {
    hide Wires, Ordered, Coalesced, Settled, Logged, Explained, Counted, Queued, Evidenced;
    var w := t.client.sending.window;
    assert w.base < w.total ==> AckedAt(s.client, w.base);
  }

  lemma RunIsOnward(c: Config, s: System, r: Round)
    requires Follows(c, s, r)
    ensures Onward(s, r.end)
  {
    hide SystemInv, Apply, AckedAt, NextOf;
    ReachesInv(c, s, r.before, r.checked);
    AckedStays(c, s, r.before, r.checked);
    ApplyInv(c, r.checked, CheckTimers(r.timer));
    StepOnward(c, r.checked, CheckTimers(r.timer));
    var m := Apply(c, r.checked, CheckTimers(r.timer));
    ReachesInv(c, m, r.sends, r.sent);
    AckedStays(c, m, r.sends, r.sent);
    ApplyInv(c, r.sent, ToServer(r.k, r.arrived));
    StepOnward(c, r.sent, ToServer(r.k, r.arrived));
    var n := Apply(c, r.sent, ToServer(r.k, r.arrived));
    ReachesInv(c, n, r.after, r.answered);
    AckedStays(c, n, r.after, r.answered);
    StepOnward(c, r.answered, ToClient(|r.sent.toClient|, r.heard));
  }
}
