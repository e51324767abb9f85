/**
 * Runs of the sender alone: any sequence of ACKs (whatever they carry), timeout checks and
 * transmissions under a monotone clock, with a log of every DATA transmission.
 */
module Sending {
  import opened Types
  import opened Windows
  import opened WindowInvariant
  import opened WindowProperties

  /** One DATA transmission, with the number of chunks above it that were ACKed at that moment. */
  datatype SendEvent = SendEvent(
    sequence: nat, time: int, retransmission: bool, fast: bool, ackedAbove: nat)

  datatype Sending = Sending(window: Window, clock: int, log: seq<SendEvent>)

  datatype Action =
    | AckArrives(ack: AckPayload, now: int)
    | TimeoutCheck(now: int)
    | SendNext(now: int)

  function Started(total: nat, logical: nat, coverage: nat, now: int): Sending {
    Sending(NewWindow(total, logical, coverage, now), now, [])
  }

  function EventOf(w: Window, d: Decision, now: int): SendEvent
    requires Sized(w)
  {
    SendEvent(d.sequence, now, d.retransmission, d.fast, AckedIn(w.chunks, d.sequence + 1, w.next))
  }

  function Act(x: Sending, a: Action): (y: Sending)
    requires Sized(x.window)
    ensures Sized(y.window) && y.window.total == x.window.total
  {
    match a
    case AckArrives(ack, now) => Sending(ProcessAck(x.window, ack, now), now, x.log)
    case TimeoutCheck(now) => Sending(CheckTimeouts(x.window, now, RTO), now, x.log)
    case SendNext(now) =>
      var (v, d) := Transmit(x.window, now);
      Sending(v, now,
              if d.None? then x.log
              else x.log + [EventOf(x.window, d.value, now)])
  }

  // ---------------------------------------------------------------- reading the log

  /** The times at which chunk `i` was transmitted, in order. */
  function TimesOf(log: seq<SendEvent>, i: nat): seq<int> {
    if log == [] then []
    else TimesOf(log[..|log| - 1], i) +
         (if log[|log| - 1].sequence == i then [log[|log| - 1].time] else [])
  }

  function FastCount(log: seq<SendEvent>, i: nat): nat {
    if log == [] then 0
    else FastCount(log[..|log| - 1], i) +
         (if log[|log| - 1].sequence == i && log[|log| - 1].fast then 1 else 0)
  }

  /** How many chunks above `i` were ACKed when it was last retransmitted; zero if it never was. */
  function EvidenceIn(log: seq<SendEvent>, i: nat): nat {
    if log == [] then 0
    else if log[|log| - 1].sequence == i && log[|log| - 1].retransmission
    then log[|log| - 1].ackedAbove
    else EvidenceIn(log[..|log| - 1], i)
  }

  /** How many of the given times are at or before the deadline. */
  function CountBy(times: seq<int>, deadline: int): nat {
    if times == [] then 0
    else CountBy(times[..|times| - 1], deadline) + (if times[|times| - 1] <= deadline then 1 else 0)
  }

  /** Transmissions of chunk `i` within `span` nanoseconds of its first one. */
  function SentWithin(log: seq<SendEvent>, i: nat, span: nat): nat {
    if TimesOf(log, i) == [] then 0 else CountBy(TimesOf(log, i), TimesOf(log, i)[0] + span)
  }

  lemma LogGrows(log: seq<SendEvent>, e: SendEvent, i: nat)
    ensures TimesOf(log + [e], i) == TimesOf(log, i) + (if e.sequence == i then [e.time] else [])
    ensures FastCount(log + [e], i) ==
            FastCount(log, i) + (if e.sequence == i && e.fast then 1 else 0)
    ensures EvidenceIn(log + [e], i) ==
            if e.sequence == i && e.retransmission then e.ackedAbove else EvidenceIn(log, i)
  {
    assert (log + [e])[..|log|] == log;
  }

  // ---------------------------------------------------------------- the run invariant

  /** After the first retransmission, sends are a repeat delay apart. */
  ghost predicate Spaced(times: seq<int>) {
    && (|times| >= 2 ==> times[0] <= times[1])
    && forall j: nat, k: nat | 1 <= j < k < |times| && k == j + 1 ::
         times[k] - times[j] >= REPEAT_DELAY
  }

  /** What the log says about one chunk agrees with its record. */
  ghost predicate LoggedAt(c: Chunk, times: seq<int>, fastCount: nat, clock: int) {
    && times != []
    && times[|times| - 1] == c.lastSent <= clock
    && Spaced(times)
    && (|times| >= 2 ==> c.fastRetransmitted)
    && (|times| >= 2 && c.pending ==> clock - c.lastSent >= REPEAT_DELAY)
    && 3 * fastCount <= c.evidence
  }

  ghost predicate Logged(x: Sending) {
    && x.window.next <= |x.window.chunks|
    && (forall i: nat | i < x.window.next ::
          LoggedAt(x.window.chunks[i], TimesOf(x.log, i), FastCount(x.log, i), x.clock))
    && (forall i: nat | x.window.next <= i :: TimesOf(x.log, i) == [] && FastCount(x.log, i) == 0)
  }

  /**
   * What a chunk's record remembers, told from the log: its evidence is the count at its last
   * retransmission; in flight, it is marked exactly if it was resent or is queued fast; queued
   * by a timeout, it was last sent a timeout ago; and left alone, it lacks the third later ACK.
   */
  ghost predicate ExplainedAt(c: Chunk, times: seq<int>, evidence: nat, clock: int) {
    && c.evidence == evidence
    && (!c.fastRetransmitted ==> c.evidence == 0)
    && (c.fastPending ==> c.pending)
    && (c.state.InFlight? ==> (c.fastRetransmitted <==> |times| >= 2 || c.fastPending))
    && (c.state.InFlight? && !c.pending && !c.fastRetransmitted ==>
          c.latest < FAST_RETRANSMIT_THRESHOLD)
    && (c.pending && !c.fastPending ==> times != [] && clock - times[|times| - 1] >= 500_000_000)
  }

  /**
   * Why entry `k` was sent: a new chunk, never sent before; or a fast retransmission, with three
   * more chunks ACKed above it than at its last one; or a timeout, 500 ms after its last send.
   */
  ghost predicate JustifiedAt(log: seq<SendEvent>, k: nat)
    requires k < |log|
  {
    var (e, times) := (log[k], TimesOf(log[..k], log[k].sequence));
    && (e.retransmission <==> times != [])
    && (e.fast ==> e.retransmission && e.ackedAbove >= EvidenceIn(log[..k], e.sequence) + 3)
    && (e.retransmission && !e.fast ==> e.time - times[|times| - 1] >= 500_000_000)
  }

  ghost predicate Justified(log: seq<SendEvent>) {
    forall k: nat | k < |log| :: JustifiedAt(log, k)
  }

  ghost predicate Explained(x: Sending) {
    && x.window.next <= |x.window.chunks|
    && (forall i: nat | i < x.window.next ::
          ExplainedAt(x.window.chunks[i], TimesOf(x.log, i), EvidenceIn(x.log, i), x.clock))
    && (forall i: nat | x.window.next <= i :: EvidenceIn(x.log, i) == 0)
    && Justified(x.log)
  }

  ghost predicate SendingInv(x: Sending) {
    Inv(x.window) && Settled(x.window) && Logged(x) && Explained(x)
  }

  lemma StartedInv(total: nat, logical: nat, coverage: nat, now: int)
    requires total < U32_LIMIT && ValidLimits(logical, coverage)
    ensures SendingInv(Started(total, logical, coverage, now))
  {
    NewWindowInv(total, logical, coverage, now);
  }

  /** What an ACK or a timeout check may change in one chunk's record. */
  ghost predicate Nudged(c: Chunk, d: Chunk, now: int) {
    && d.lastSent == c.lastSent && d.evidence == c.evidence
    && (c.fastRetransmitted ==> d.fastRetransmitted)
    && (d.pending && !c.pending ==> !c.fastRetransmitted || now - c.lastSent >= REPEAT_DELAY)
  }

  lemma NudgedLogged(c: Chunk, d: Chunk, times: seq<int>, fastCount: nat, clock: int, now: int)
    requires LoggedAt(c, times, fastCount, clock) && Nudged(c, d, now) && clock <= now
    ensures LoggedAt(d, times, fastCount, now)
  {
  }

  /** Acknowledging and rescanning one chunk. */
  lemma ChunkNudges(c: Chunk, reported: bool, scanned: bool, later: nat, now: int)
    ensures var a := if reported then AckChunk(c) else c;
      Nudged(c, if scanned then RescanChunk(a, later, now) else a, now)
  {
  }

  lemma AckNudges(w: Window, ack: AckPayload, now: int, i: nat)
    requires Inv(w) && i < w.next
    ensures Nudged(w.chunks[i], ProcessAck(w, ack, now).chunks[i], now)
  {
    var v := Absorb(w, ack);
    var later := AckedIn(v.chunks, i + 1, v.next);
    ChunkNudges(w.chunks[i], Reports(ack, i), v.base <= i, later, now);
    RescanIndex(v.chunks, v.base, v.next, now, i);
    assert v.chunks[i] == if Reports(ack, i) then AckChunk(w.chunks[i]) else w.chunks[i];
  }

  lemma AckLogged(x: Sending, ack: AckPayload, now: int)
    requires SendingInv(x) && x.clock <= now
    ensures Logged(Act(x, AckArrives(ack, now)))
  {
    var y := Act(x, AckArrives(ack, now));
    forall i: nat | i < y.window.next
      ensures LoggedAt(y.window.chunks[i], TimesOf(y.log, i), FastCount(y.log, i), y.clock)
    {
      AckNudges(x.window, ack, now, i);
      NudgedLogged(x.window.chunks[i], y.window.chunks[i],
                   TimesOf(x.log, i), FastCount(x.log, i), x.clock, now);
    }
  }

  lemma TimeoutLogged(x: Sending, now: int)
    requires SendingInv(x) && x.clock <= now
    ensures Logged(Act(x, TimeoutCheck(now)))
  {
    var y := Act(x, TimeoutCheck(now));
    forall i: nat | i < y.window.next
      ensures LoggedAt(y.window.chunks[i], TimesOf(y.log, i), FastCount(y.log, i), y.clock)
    {
      assert Nudged(x.window.chunks[i], y.window.chunks[i], now);
      NudgedLogged(x.window.chunks[i], y.window.chunks[i],
                   TimesOf(x.log, i), FastCount(x.log, i), x.clock, now);
    }
  }

  /** Retransmitting a pending chunk keeps its sends spaced and its fast count covered. */
  lemma ResendLogged(c: Chunk, times: seq<int>, fastCount: nat, clock: int, now: int)
    requires LoggedAt(c, times, fastCount, clock) && clock <= now
    requires c.pending && c.evidence <= c.latest
    requires c.fastPending ==> c.latest >= c.evidence + FAST_RETRANSMIT_THRESHOLD
    ensures LoggedAt(TakeChunk(c).(state := InFlight, lastSent := now), times + [now],
                     fastCount + (if c.fastPending then 1 else 0), now)
  {
    var t := times + [now];
    forall j: nat, k: nat | 1 <= j < k < |t| && k == j + 1 ensures t[k] - t[j] >= REPEAT_DELAY {
      if k < |times| {
        assert times[k] - times[j] >= REPEAT_DELAY;
      }
    }
  }

  lemma TransmitLogged(x: Sending, now: int)
    requires SendingInv(x) && x.clock <= now
    ensures Logged(Act(x, SendNext(now)))
  {
    hide LoggedAt, TimesOf, FastCount, Select, Counted, Queued, Evidenced, CountRight;
    var y := Act(x, SendNext(now));
    var (v, d) := Transmit(x.window, now);
    SelectOutcome(x.window);
    if d.Some? {
      forall i: nat
        ensures i < y.window.next ==>
          LoggedAt(y.window.chunks[i], TimesOf(y.log, i), FastCount(y.log, i), y.clock)
        ensures i >= y.window.next ==> TimesOf(y.log, i) == [] && FastCount(y.log, i) == 0
      {
        TransmitLoggedAt(x, y, d.value, now, i);
      }
    } else {
      forall i: nat | i < y.window.next
        ensures LoggedAt(y.window.chunks[i], TimesOf(y.log, i), FastCount(y.log, i), y.clock)
      {
        NudgedLogged(x.window.chunks[i], x.window.chunks[i],
                     TimesOf(x.log, i), FastCount(x.log, i), x.clock, now);
      }
    }
  }

  /** What a transmission does to the chunk records and the log. */
  lemma TransmitEffect(x: Sending, d: Decision, now: int, i: nat)
    requires Inv(x.window) && Sized(x.window) && Transmit(x.window, now).1 == Some(d)
    ensures var y := Act(x, SendNext(now));
      && y.clock == now && y.log == x.log + [EventOf(x.window, d, now)]
      && |y.window.chunks| == |x.window.chunks| == x.window.total
      && (if d.retransmission
          then d.sequence < y.window.next == x.window.next
               && x.window.chunks[d.sequence].pending
               && d.fast == x.window.chunks[d.sequence].fastPending
          else d.sequence == x.window.next < x.window.total && y.window.next == d.sequence + 1 && !d.fast)
      && y.window.next <= x.window.total && d.sequence < x.window.total
      && (i < x.window.total ==>
            y.window.chunks[i] ==
              if i != d.sequence then x.window.chunks[i]
              else (if d.retransmission then TakeChunk(x.window.chunks[i]) else FRESH_CHUNK).(
                state := InFlight, lastSent := now))
  {
    hide Counted, Evidenced, Select, AckedIn;
    SelectOutcome(x.window);
  }

  lemma TransmitLoggedAt(x: Sending, y: Sending, d: Decision, now: int, i: nat)
    requires SendingInv(x) && x.clock <= now
    requires Transmit(x.window, now).1 == Some(d) && y == Act(x, SendNext(now))
    ensures y.window.next <= |y.window.chunks|
    ensures i < y.window.next ==>
      LoggedAt(y.window.chunks[i], TimesOf(y.log, i), FastCount(y.log, i), y.clock)
    ensures i >= y.window.next ==> TimesOf(y.log, i) == [] && FastCount(y.log, i) == 0
  {
    SizedByInv(x.window);
    hide TimesOf, FastCount, Shape, Counted, Queued, AckedIn, Settled, Explained, Transmit, Act,
         EventOf, LoggedAt, TakeChunk;
    TransmitEffect(x, d, now, i);
    LogGrows(x.log, EventOf(x.window, d, now), i);
    EventFields(x.window, d, now);
    if i < x.window.next {
      var c := x.window.chunks[i];
      assert EvidenceOk(x.window, i);
      assert LoggedAt(c, TimesOf(x.log, i), FastCount(x.log, i), x.clock);
      if i == d.sequence {
        ResendLogged(c, TimesOf(x.log, i), FastCount(x.log, i), x.clock, now);
      } else {
        NudgedLogged(c, c, TimesOf(x.log, i), FastCount(x.log, i), x.clock, now);
      }
    } else if i == x.window.next && i < y.window.next {
      assert TimesOf(y.log, i) == [now];
      FirstLogged(now);
    }
  }

  lemma FirstLogged(now: int)
    ensures LoggedAt(FRESH_CHUNK.(state := InFlight, lastSent := now), [now], 0, now)
  {
  }

  lemma EventFields(w: Window, d: Decision, now: int)
    requires Sized(w)
    ensures var e := EventOf(w, d, now);
      && e.sequence == d.sequence && e.time == now
      && e.retransmission == d.retransmission && e.fast == d.fast
  {
    hide AckedIn;
  }

  /** Acknowledging and rescanning one chunk: three later ACKs queue it if it was never resent. */
  lemma ScannedExplained(c: Chunk, reported: bool, scanned: bool, later: nat,
                         times: seq<int>, evidence: nat, clock: int, now: int)
    requires ExplainedAt(c, times, evidence, clock) && (scanned || reported || c.IsAcked())
    requires clock <= now
    ensures var a := if reported then AckChunk(c) else c;
      ExplainedAt(if scanned then RescanChunk(a, later, now) else a, times, evidence, now)
  {
  }

  lemma AckExplainedAt(x: Sending, ack: AckPayload, now: int, i: nat)
    requires Inv(x.window) && Explained(x) && i < x.window.next && x.clock <= now
    ensures ExplainedAt(ProcessAck(x.window, ack, now).chunks[i], TimesOf(x.log, i),
                        EvidenceIn(x.log, i), now)
  {
    hide Counted, Queued, Evidenced, ExplainedAt, TimesOf, EvidenceIn, Justified, Reports, AckedIn,
         RescanChunk;
    var w := x.window;
    var v := Absorb(w, ack);
    AbsorbShape(w, ack);
    assert v.chunks[i] == if Reports(ack, i) then AckChunk(w.chunks[i]) else w.chunks[i];
    RescanIndex(v.chunks, v.base, v.next, now, i);
    ScannedExplained(w.chunks[i], Reports(ack, i), v.base <= i, AckedIn(v.chunks, i + 1, v.next),
                     TimesOf(x.log, i), EvidenceIn(x.log, i), x.clock, now);
  }

  lemma AckExplained(x: Sending, ack: AckPayload, now: int)
    requires SendingInv(x) && x.clock <= now
    ensures Explained(Act(x, AckArrives(ack, now)))
  {
    hide Counted, Queued, Evidenced, ExplainedAt, TimesOf, EvidenceIn, Justified, Reports, AckedIn,
         RescanChunk, AckChunk;
    var y := Act(x, AckArrives(ack, now));
    forall i: nat | i < y.window.next
      ensures ExplainedAt(y.window.chunks[i], TimesOf(y.log, i), EvidenceIn(y.log, i), y.clock)
    {
      AckExplainedAt(x, ack, now, i);
    }
  }

  lemma TimeoutExplained(x: Sending, now: int)
    requires SendingInv(x) && x.clock <= now
    ensures Explained(Act(x, TimeoutCheck(now)))
  {
    hide Counted, Queued, Evidenced, TimesOf, FastCount, EvidenceIn, Justified, Spaced;
    var y := Act(x, TimeoutCheck(now));
    forall i: nat | i < y.window.next
      ensures ExplainedAt(y.window.chunks[i], TimesOf(y.log, i), EvidenceIn(y.log, i), y.clock)
    {
      assert ExplainedAt(x.window.chunks[i], TimesOf(x.log, i), EvidenceIn(x.log, i), x.clock);
      assert LoggedAt(x.window.chunks[i], TimesOf(x.log, i), FastCount(x.log, i), x.clock);
    }
  }

  /** The count that goes into the log with a chunk in flight is the one its record holds. */
  lemma TakenCount(x: Sending, q: nat)
    requires Inv(x.window) && Settled(x.window)
    requires q < |x.window.chunks| && x.window.chunks[q].state.InFlight?
    ensures q < x.window.next
    ensures x.window.chunks[q].latest == AckedIn(x.window.chunks, q + 1, x.window.next)
  {
    hide Counted, Queued, Evidenced, AckedIn;
    assert q < x.window.next;
    assert CountRight(x.window, q);
  }

  lemma TransmitExplainedAt(x: Sending, d: Decision, now: int, i: nat)
    requires SendingInv(x) && x.clock <= now && Transmit(x.window, now).1 == Some(d)
    ensures var y := Act(x, SendNext(now));
      && y.window.next <= |y.window.chunks|
      && (i < y.window.next ==>
            ExplainedAt(y.window.chunks[i], TimesOf(y.log, i), EvidenceIn(y.log, i), now))
      && (i >= y.window.next ==> EvidenceIn(y.log, i) == 0)
  {
    hide Counted, Queued, Evidenced, CountRight, Select, TimesOf, FastCount, EvidenceIn, Spaced,
         Justified, AckedIn;
    var y := Act(x, SendNext(now));
    SelectOutcome(x.window);
    LogGrows(x.log, EventOf(x.window, d, now), i);
    if d.retransmission {
      TakenCount(x, d.sequence);
    }
    if i < x.window.next {
      assert ExplainedAt(x.window.chunks[i], TimesOf(x.log, i), EvidenceIn(x.log, i), x.clock);
      assert LoggedAt(x.window.chunks[i], TimesOf(x.log, i), FastCount(x.log, i), x.clock);
    }
  }

  /** What is sent next is justified by the log so far. */
  lemma SentIsJustified(x: Sending, d: Decision, now: int)
    requires SendingInv(x) && x.clock <= now && Transmit(x.window, now).1 == Some(d)
    ensures Justified(x.log + [EventOf(x.window, d, now)])
  {
    hide Counted, CountRight, Select, TimesOf, FastCount, EvidenceIn, Spaced, AckedIn;
    SelectOutcome(x.window);
    var log := x.log + [EventOf(x.window, d, now)];
    var q := d.sequence;
    if d.retransmission {
      TakenCount(x, q);
      assert EvidenceOk(x.window, q);
      assert ExplainedAt(x.window.chunks[q], TimesOf(x.log, q), EvidenceIn(x.log, q), x.clock);
      assert LoggedAt(x.window.chunks[q], TimesOf(x.log, q), FastCount(x.log, q), x.clock);
    }
    forall k: nat | k < |log| ensures JustifiedAt(log, k) {
      if k < |x.log| {
        assert log[..k] == x.log[..k];
        assert JustifiedAt(x.log, k);
      } else {
        assert log[..k] == x.log;
      }
    }
  }

  lemma TransmitExplained(x: Sending, now: int)
    requires SendingInv(x) && x.clock <= now
    ensures Explained(Act(x, SendNext(now)))
  {
    hide Counted, Queued, Evidenced, CountRight, Select, TimesOf, FastCount, EvidenceIn, Spaced,
         Justified, EventOf, LoggedAt;
    var y := Act(x, SendNext(now));
    var d := Transmit(x.window, now).1;
    SelectOutcome(x.window);
    if d.Some? {
      SentIsJustified(x, d.value, now);
      forall i: nat
        ensures i < y.window.next ==>
          ExplainedAt(y.window.chunks[i], TimesOf(y.log, i), EvidenceIn(y.log, i), now)
        ensures i >= y.window.next ==> EvidenceIn(y.log, i) == 0
      {
        TransmitExplainedAt(x, d.value, now, i);
      }
    }
  }

  /** Every action keeps the run invariant. */
  lemma ActInv(x: Sending, a: Action)
    requires SendingInv(x) && x.clock <= a.now
    ensures SendingInv(Act(x, a))
  {
    match a
    case AckArrives(ack, now) =>
      ProcessAckInv(x.window, ack, now);
      ProcessAckSettled(x.window, ack, now);
      AckLogged(x, ack, now);
      AckExplained(x, ack, now);
    case TimeoutCheck(now) =>
      CheckTimeoutsInv(x.window, now, RTO);
      CheckTimeoutsSettled(x.window, now, RTO);
      TimeoutLogged(x, now);
      TimeoutExplained(x, now);
    case SendNext(now) =>
      TransmitInv(x.window, now);
      TransmitSettled(x.window, now);
      TransmitLogged(x, now);
      TransmitExplained(x, now);
  }

  // ---------------------------------------------------------------- whole runs

  /** `y` is where a run of these actions from `x` ends. */
  predicate RunsTo(x: Sending, actions: seq<Action>, y: Sending)
    requires Sized(x.window)
    decreases |actions|
  {
    if actions == [] then y == x
    else x.clock <= actions[0].now && RunsTo(Act(x, actions[0]), actions[1..], y)
  }

  lemma ActKeepsLimits(x: Sending, a: Action)
    requires Inv(x.window)
    ensures Sized(x.window)
    ensures var y := Act(x, a);
      y.window.coverage == x.window.coverage && y.window.logical == x.window.logical
  {
    hide Counted, Queued, Evidenced, Select;
    SelectOutcome(x.window);
  }

  lemma {:induction false} RunInv(x: Sending, actions: seq<Action>, y: Sending)
    requires SendingInv(x) && RunsTo(x, actions, y)
    ensures SendingInv(y)
    ensures x.window.total == y.window.total && x.window.coverage == y.window.coverage
    ensures x.window.logical == y.window.logical
    decreases |actions|
  {
    hide Inv, Settled, Logged, Explained, Act;
    SizedByInv(x.window);
    if actions != [] {
      ActInv(x, actions[0]);
      ActKeepsLimits(x, actions[0]);
      RunInv(Act(x, actions[0]), actions[1..], y);
    }
  }

  lemma {:induction false} SpacedFrom(times: seq<int>, k: nat)
    requires Spaced(times) && 1 <= k < |times|
    ensures times[k] >= times[0] + (k - 1) * REPEAT_DELAY
  {
    if k > 1 {
      SpacedFrom(times, k - 1);
      assert times[k] - times[k - 1] >= REPEAT_DELAY;
    }
  }

  lemma {:induction false} CountByBound(times: seq<int>, first: int, span: nat)
    requires forall k: nat | 1 <= k < |times| :: times[k] >= first + (k - 1) * REPEAT_DELAY
    ensures CountBy(times, first + span) <= 2 + span / REPEAT_DELAY
  {
    if times != [] {
      var last := |times| - 1;
      if times[last] <= first + span && last >= 1 {
        assert (last - 1) * REPEAT_DELAY <= span;
        CountByLength(times, first + span);
      } else {
        CountByBound(times[..last], first, span);
      }
    }
  }

  lemma {:induction false} CountByLength(times: seq<int>, deadline: int)
    ensures CountBy(times, deadline) <= |times|
  {
    if times != [] {
      CountByLength(times[..|times| - 1], deadline);
    }
  }

  /**
   * Over a whole run, whatever the ACKs carry and whichever mix of fast and RTO causes: after
   * its first retransmission the sends of a chunk are at least 250 ms apart, so within `span`
   * nanoseconds of its first transmission it is sent at most 2 + span / 250 ms times.
   */
  lemma TransmissionsBounded(
      total: nat, logical: nat, coverage: nat, start: int,
      actions: seq<Action>, y: Sending, i: nat, span: nat)
    requires total < U32_LIMIT && ValidLimits(logical, coverage)
    requires RunsTo(Started(total, logical, coverage, start), actions, y)
    ensures Spaced(TimesOf(y.log, i))
    ensures SentWithin(y.log, i, span) <= 2 + span / REPEAT_DELAY
  {
    StartedInv(total, logical, coverage, start);
    RunInv(Started(total, logical, coverage, start), actions, y);
    LoggedSpaced(y, i);
    SendsBounded(y, i, span);
  }

  lemma SendsBounded(y: Sending, i: nat, span: nat)
    requires Logged(y)
    ensures SentWithin(y.log, i, span) <= 2 + span / REPEAT_DELAY
  {
    LoggedSpaced(y, i);
    if TimesOf(y.log, i) != [] {
      SpacedCount(TimesOf(y.log, i), span);
    }
  }

  lemma LoggedSpaced(y: Sending, i: nat)
    requires Logged(y)
    ensures Spaced(TimesOf(y.log, i))
  {
    if i < y.window.next {
      assert LoggedAt(y.window.chunks[i], TimesOf(y.log, i), FastCount(y.log, i), y.clock);
    }
  }

  lemma SpacedCount(times: seq<int>, span: nat)
    requires Spaced(times) && times != []
    ensures CountBy(times, times[0] + span) <= 2 + span / REPEAT_DELAY
  {
    forall k: nat | 1 <= k < |times| ensures times[k] >= times[0] + (k - 1) * REPEAT_DELAY {
      SpacedFrom(times, k);
    }
    CountByBound(times, times[0], span);
  }

  lemma FastBounded(y: Sending, i: nat)
    requires SendingInv(y)
    ensures FastCount(y.log, i) <= (y.window.coverage - 1) / 3
  {
    if i < y.window.next {
      assert EvidenceOk(y.window, i);
    }
  }

  /** The transmission bounds of one chunk, from the run invariant alone. */
  lemma BoundsHold(y: Sending, i: nat, span: nat)
    requires SendingInv(y)
    ensures FastCount(y.log, i) <= (y.window.coverage - 1) / 3
    ensures Spaced(TimesOf(y.log, i))
    ensures SentWithin(y.log, i, span) <= 2 + span / REPEAT_DELAY
  {
    FastBounded(y, i);
    LoggedSpaced(y, i);
    SendsBounded(y, i, span);
  }

  lemma FastIsPrompt(y: Sending, i: nat)
    requires SendingInv(y) && i < y.window.next
    requires AckedIn(y.window.chunks, i + 1, y.window.next) >= FAST_RETRANSMIT_THRESHOLD
    ensures y.window.chunks[i].IsAcked() || y.window.chunks[i].pending || |TimesOf(y.log, i)| >= 2
  {
    hide Counted, Queued, Evidenced, AckedIn, TimesOf;
    assert ExplainedAt(y.window.chunks[i], TimesOf(y.log, i), EvidenceIn(y.log, i), y.clock);
    if y.window.chunks[i].state.InFlight? {
      assert CountRight(y.window, i);
    }
  }

  /**
   * Over a whole run, whatever the ACKs carry: a chunk with three or more ACKed chunks above it
   * is itself ACKed, or queued for retransmission, or has been retransmitted already.
   */
  lemma FastRetransmissionPrompt(
      total: nat, logical: nat, coverage: nat, start: int,
      actions: seq<Action>, y: Sending, i: nat)
    requires total < U32_LIMIT && ValidLimits(logical, coverage)
    requires RunsTo(Started(total, logical, coverage, start), actions, y)
    requires i < y.window.next <= |y.window.chunks|
    requires AckedIn(y.window.chunks, i + 1, y.window.next) >= FAST_RETRANSMIT_THRESHOLD
    ensures y.window.chunks[i].IsAcked() || y.window.chunks[i].pending || |TimesOf(y.log, i)| >= 2
  {
    StartedInv(total, logical, coverage, start);
    RunInv(Started(total, logical, coverage, start), actions, y);
    FastIsPrompt(y, i);
  }

  /** Over a whole run, one chunk is fast-retransmitted at most (coverage - 1) / 3 times. */
  lemma FastRetransmissionsBounded(
      total: nat, logical: nat, coverage: nat, start: int,
      actions: seq<Action>, y: Sending, i: nat)
    requires total < U32_LIMIT && ValidLimits(logical, coverage)
    requires RunsTo(Started(total, logical, coverage, start), actions, y)
    ensures FastCount(y.log, i) <= (coverage - 1) / 3
  {
    StartedInv(total, logical, coverage, start);
    RunInv(Started(total, logical, coverage, start), actions, y);
    FastBounded(y, i);
  }
}
