/**
 * When the sender retransmits, told from its log and the chunk states alone, in every run with
 * arbitrary ACKs: both retransmission rules exactly, and what the stall statistics add up to.
 */
module SendingRules {
  import opened Types
  import opened Chunks
  import opened Windows
  import opened WindowInvariant
  import opened WindowRules
  import opened Sending

  /** `y` ends some run of a sender with these limits. */
  ghost predicate SenderRun(
      total: nat, logical: nat, coverage: nat, start: int, actions: seq<Action>, y: Sending)
  {
    && total < U32_LIMIT && ValidLimits(logical, coverage)
    && RunsTo(Started(total, logical, coverage, start), actions, y)
  }

  lemma SenderRunInv(
      total: nat, logical: nat, coverage: nat, start: int, actions: seq<Action>, y: Sending)
    requires SenderRun(total, logical, coverage, start, actions, y)
    ensures SendingInv(y)
  {
    hide SendingInv, RunsTo;
    StartedInv(total, logical, coverage, start);
    RunInv(Started(total, logical, coverage, start), actions, y);
  }

  /**
   * Every transmission has its reason: a first send of a chunk; or a fast retransmission, three
   * more chunks being ACKed above it than at its last retransmission; or a timeout, 500 ms after
   * its last send.
   */
  lemma RetransmissionsJustified(
      total: nat, logical: nat, coverage: nat, start: int, actions: seq<Action>, y: Sending)
    requires SenderRun(total, logical, coverage, start, actions, y)
    ensures Justified(y.log)
  {
    hide SenderRun, Inv, Settled, Logged, Justified;
    SenderRunInv(total, logical, coverage, start, actions, y);
  }

  /** What the record of an issued chunk says, from the log. */
  lemma RecordFromLog(y: Sending, i: nat)
    requires SendingInv(y) && i < y.window.next
    ensures i < |y.window.chunks| && TimesOf(y.log, i) != []
    ensures var (c, times) := (y.window.chunks[i], TimesOf(y.log, i));
      && c.lastSent == times[|times| - 1] && c.evidence == EvidenceIn(y.log, i)
      && (c.state.InFlight? ==>
            c.latest == AckedIn(y.window.chunks, i + 1, y.window.next))
      && (c.state.InFlight? && !c.pending ==> (c.fastRetransmitted <==> |times| >= 2))
  {
    hide Counted, Queued, Evidenced, AckedIn, TimesOf, EvidenceIn, FastCount, Justified, Spaced;
    assert LoggedAt(y.window.chunks[i], TimesOf(y.log, i), FastCount(y.log, i), y.clock);
    assert ExplainedAt(y.window.chunks[i], TimesOf(y.log, i), EvidenceIn(y.log, i), y.clock);
    if y.window.chunks[i].state.InFlight? {
      TakenCount(y, i);
    }
  }

  /**
   * In any run, an ACK queues an idle chunk in flight exactly when it raises the number of chunks
   * ACKed above it to at least three more than at its last retransmission, and the chunk was sent
   * only once so far, or last 250 ms ago or more.
   */
  lemma FastRetransmissionExact(
      total: nat, logical: nat, coverage: nat, start: int, actions: seq<Action>, y: Sending,
      ack: AckPayload, now: int, i: nat)
    requires SenderRun(total, logical, coverage, start, actions, y)
    requires i < y.window.next && Sized(y.window) && TimesOf(y.log, i) != []
    requires y.window.chunks[i].state.InFlight? && !y.window.chunks[i].pending
    requires ProcessAck(y.window, ack, now).chunks[i].state.InFlight?
    ensures var (u, times) := (ProcessAck(y.window, ack, now), TimesOf(y.log, i));
      var (before, after) := (AckedIn(y.window.chunks, i + 1, y.window.next),
                              AckedIn(u.chunks, i + 1, u.next));
      u.chunks[i].pending <==>
        && after > before && after >= EvidenceIn(y.log, i) + 3
        && (|times| == 1 || now - times[|times| - 1] >= 250_000_000)
  {
    hide SenderRun, Inv, Settled, Logged, Explained, ProcessAck, AckedIn, TimesOf, EvidenceIn;
    SenderRunInv(total, logical, coverage, start, actions, y);
    RecordFromLog(y, i);
    AckQueuesExactly(y.window, ack, now, i);
  }

  /** In any run, a timer check queues an idle chunk in flight exactly 500 ms after its last send. */
  lemma TimeoutExact(
      total: nat, logical: nat, coverage: nat, start: int, actions: seq<Action>, y: Sending,
      now: int, i: nat)
    requires SenderRun(total, logical, coverage, start, actions, y)
    requires i < y.window.next && Sized(y.window) && TimesOf(y.log, i) != []
    requires y.window.chunks[i].state.InFlight? && !y.window.chunks[i].pending
    ensures var times := TimesOf(y.log, i);
      Act(y, TimeoutCheck(now)).window.chunks[i].pending <==> now - times[|times| - 1] >= 500_000_000
  {
    hide SenderRun, Counted, Queued, Evidenced, CheckTimeouts, TimesOf, EvidenceIn, Logged, Explained;
    SenderRunInv(total, logical, coverage, start, actions, y);
    RecordFromLog(y, i);
    TimeoutExactly(y.window, now, RTO, i);
    assert i < y.window.base ==> y.window.chunks[i].IsAcked();
  }

  // ---------------------------------------------------------------- stalls of the base

  /**
   * The stall statistics: the total is the time from the start to the last advance, the longest
   * stall lies between the average and the total, and there are events exactly if the base moved.
   */
  ghost predicate StallsAddUp(x: Sending, start: int) {
    var s := x.window.stall;
    && s.total == s.lastAdvance - start && s.lastAdvance <= x.clock
    && 0 <= s.longest <= s.total <= s.longest * s.events
    && (s.events == 0 <==> x.window.base == 0) && s.events <= x.window.base
  }

  lemma MaxCoversMean(total: int, longest: int, events: nat, gap: int)
    requires 0 <= longest <= total <= longest * events && 0 <= gap
    ensures 0 <= Max(longest, gap) <= total + gap <= Max(longest, gap) * (events + 1)
  {
    var m := Max(longest, gap);
    MulLess(longest, m, events);
    assert m * (events + 1) == m * events + m;
  }

  lemma AckStalls(x: Sending, ack: AckPayload, now: int, start: int)
    requires SendingInv(x) && StallsAddUp(x, start) && x.clock <= now
    ensures StallsAddUp(Act(x, AckArrives(ack, now)), start)
  {
    hide Counted, Queued, Evidenced, Settled, Logged, Explained, Rescan, Acknowledge;
    ProcessAckInv(x.window, ack, now);
    var s := x.window.stall;
    MaxCoversMean(s.total, s.longest, s.events, now - s.lastAdvance);
  }

  lemma OtherStalls(x: Sending, a: Action, start: int)
    requires SendingInv(x) && StallsAddUp(x, start) && x.clock <= a.now && !a.AckArrives?
    ensures StallsAddUp(Act(x, a), start)
  {
    hide Counted, Queued, Evidenced, Settled, Logged, Explained, Select;
    SelectOutcome(x.window);
  }

  lemma {:induction false} StallsOverRuns(x: Sending, actions: seq<Action>, y: Sending, start: int)
    requires SendingInv(x) && StallsAddUp(x, start) && RunsTo(x, actions, y)
    ensures StallsAddUp(y, start)
    decreases |actions|
  {
    hide Inv, Settled, Logged, Explained, Act, StallsAddUp;
    SizedByInv(x.window);
    if actions != [] {
      ActInv(x, actions[0]);
      if actions[0].AckArrives? {
        AckStalls(x, actions[0].ack, actions[0].now, start);
      } else {
        OtherStalls(x, actions[0], start);
      }
      StallsOverRuns(Act(x, actions[0]), actions[1..], y, start);
    }
  }

  /** So they do at the end of every run from the start. */
  lemma StallStatistics(
      total: nat, logical: nat, coverage: nat, start: int, actions: seq<Action>, y: Sending)
    requires SenderRun(total, logical, coverage, start, actions, y)
    ensures StallsAddUp(y, start)
  {
    hide SendingInv, RunsTo;
    StartedInv(total, logical, coverage, start);
    StallsOverRuns(Started(total, logical, coverage, start), actions, y, start);
  }
}
