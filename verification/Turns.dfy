/**
 * Turns of the client's transfer loop as values: what it reads, what it sends, which runs of the
 * sender its turns are, and when a turn sends what.
 */
module Turns {
  import opened Types
  import opened Codec
  import opened Windows
  import opened WindowInvariant
  import opened WindowProperties
  import opened WindowRules
  import opened WindowQueue
  import opened Sending
  import opened Clients

  /** A datagram read from the socket, with the clock reading when it is processed. */
  datatype Arrival = Arrival(datagram: Datagram, time: int)

  /** What one arrival does to the window: an ACK of this session, or nothing. */
  function Absorbed(session: U32, w: Window, a: Arrival): (r: Window)
    requires Sized(w)
    ensures Sized(r) && r.total == w.total
  {
    match DecodePacket(a.datagram)
    case Rejected(_) => w
    case Accepted(p) =>
      if p.header.session == session && UsableAck(p).Some?
      then ProcessAck(w, UsableAck(p).value, a.time) else w
  }

  /** Everything that has arrived, in order. */
  function Drained(session: U32, w: Window, arrivals: seq<Arrival>): (r: Window)
    requires Sized(w)
    ensures Sized(r) && r.total == w.total
  {
    if arrivals == [] then w
    else Absorbed(session, Drained(session, w, arrivals[..|arrivals| - 1]), arrivals[|arrivals| - 1])
  }

  /** An ACK of the session, usable or not: what a wait for an ACK ends with. */
  predicate EndsWait(session: U32, a: Arrival) {
    match DecodePacket(a.datagram)
    case Rejected(_) => false
    case Accepted(p) => p.header.session == session && p.header.kind == ACK
  }

  predicate WaitEnded(session: U32, arrivals: seq<Arrival>) {
    exists k: nat :: k < |arrivals| && EndsWait(session, arrivals[k])
  }

  /** A wait for an ACK drops what comes before the first ACK of the session, and stops there. */
  function Awaited(session: U32, w: Window, arrivals: seq<Arrival>): (r: Window)
    requires Sized(w)
    ensures Sized(r) && r.total == w.total
  {
    if arrivals == [] then w
    else if WaitEnded(session, arrivals[..|arrivals| - 1])
    then Awaited(session, w, arrivals[..|arrivals| - 1])
    else Absorbed(session, w, arrivals[|arrivals| - 1])
  }

  lemma {:induction false} AwaitedStops(session: U32, w: Window, arrivals: seq<Arrival>, k: nat)
    requires Sized(w) && k <= |arrivals| && WaitEnded(session, arrivals[..k])
    ensures Awaited(session, w, arrivals) == Awaited(session, w, arrivals[..k])
    decreases |arrivals|
  {
    hide EndsWait, Absorbed;
    var n := |arrivals| - 1;
    if k <= n {
      var i: nat :| i < k && EndsWait(session, arrivals[..k][i]);
      assert EndsWait(session, arrivals[..n][i]);
      assert arrivals[..n][..k] == arrivals[..k];
      AwaitedStops(session, w, arrivals[..n], k);
    } else {
      assert arrivals[..k] == arrivals;
    }
  }

  lemma WaitGoesOn(session: U32, arrivals: seq<Arrival>, k: nat)
    requires k < |arrivals| && !WaitEnded(session, arrivals[..k]) && !EndsWait(session, arrivals[k])
    ensures !WaitEnded(session, arrivals[..k + 1])
  {
    hide EndsWait;
    var seen, prefix := arrivals[..k], arrivals[..k + 1];
    forall i: nat | i < |prefix| ensures !EndsWait(session, prefix[i]) {
      assert i < k ==> !EndsWait(session, seen[i]);
    }
  }

  // ---------------------------------------------------------------- turns of the loop

  /**
   * What the environment supplies to one turn: the arrivals drained first, the clock at the
   * timer check and at the send, and the arrivals read afterwards (by the second drain if a
   * packet was sent, by the wait for an ACK if there was nothing to send).
   */
  datatype Turn = Turn(before: seq<Arrival>, checked: int, sentAt: int, after: seq<Arrival>)

  /** The window and the datagrams after one turn. */
  function Turned(c: Config, w: Window, t: Turn): (r: (Window, seq<Datagram>))
    requires Runnable(c) && Sized(w) && w.total == Total(c)
    ensures Sized(r.0) && r.0.total == w.total
  {
    var timed := CheckTimeouts(Drained(c.session, w, t.before), t.checked, RTO);
    var (v, d) := Transmit(timed, t.sentAt);
    if d.None? then (Awaited(c.session, v, t.after), [])
    else (Drained(c.session, v, t.after),
          [DataDatagram(c, d.value.sequence, d.value.retransmission)])
  }

  // ---------------------------------------------------------------- turns are runs

  function EndTime(from: int, arrivals: seq<Arrival>): int {
    if arrivals == [] then from else arrivals[|arrivals| - 1].time
  }

  /** The clock readings of the arrivals never run backwards. */
  predicate InOrder(from: int, arrivals: seq<Arrival>) {
    arrivals == [] ||
    (&& InOrder(from, arrivals[..|arrivals| - 1])
     && EndTime(from, arrivals[..|arrivals| - 1]) <= arrivals[|arrivals| - 1].time)
  }

  predicate TurnInOrder(from: int, t: Turn) {
    && InOrder(from, t.before)
    && EndTime(from, t.before) <= t.checked <= t.sentAt
    && InOrder(t.sentAt, t.after)
  }

  predicate TurnsInOrder(from: int, turns: seq<Turn>)
    decreases |turns|
  {
    turns == [] ||
    (TurnInOrder(from, turns[0]) &&
     TurnsInOrder(EndTime(turns[0].sentAt, turns[0].after), turns[1..]))
  }

  lemma {:induction false} InOrderEnds(from: int, arrivals: seq<Arrival>)
    requires InOrder(from, arrivals)
    ensures from <= EndTime(from, arrivals)
  {
    if arrivals != [] {
      InOrderEnds(from, arrivals[..|arrivals| - 1]);
    }
  }

  lemma {:induction false} RunsJoin(x: Sending, a: seq<Action>, y: Sending, b: seq<Action>, z: Sending)
    requires Sized(x.window) && Sized(y.window) && RunsTo(x, a, y) && RunsTo(y, b, z)
    ensures RunsTo(x, a + b, z)
    decreases |a|
  {
    hide Act;
    if a == [] {
      assert a + b == b;
    } else {
      RunsJoin(Act(x, a[0]), a[1..], y, b, z);
      assert (a + b)[1..] == a[1..] + b;
    }
  }

  /** `y` is reached from `x` by a run of the sender that ends by this time. */
  ghost predicate RunBy(x: Sending, actions: seq<Action>, y: Sending, time: int) {
    Sized(x.window) && Sized(y.window) && RunsTo(x, actions, y) && y.clock <= time
  }

  lemma ActRun(x: Sending, a: Action)
    requires Sized(x.window) && x.clock <= a.now
    ensures RunBy(x, [a], Act(x, a), a.now)
  {
    hide ProcessAck, CheckTimeouts, Transmit;
    var y := Act(x, a);
    assert RunsTo(y, [], y);
    assert [a][1..] == [];
  }

  /** One arrival is one ACK of a run, or nothing. */
  lemma AbsorbedRuns(session: U32, x: Sending, a: Arrival) returns (actions: seq<Action>, y: Sending)
    requires Sized(x.window) && x.clock <= a.time
    ensures RunBy(x, actions, y, a.time)
    ensures y.window == Absorbed(session, x.window, a) && y.log == x.log
  {
    hide ProcessAck;
    match DecodePacket(a.datagram) {
      case Rejected(_) => actions, y := [], x;
      case Accepted(p) =>
        if p.header.session == session && UsableAck(p).Some? {
          var ack := AckArrives(UsableAck(p).value, a.time);
          ActRun(x, ack);
          actions, y := [ack], Act(x, ack);
        } else {
          actions, y := [], x;
        }
    }
  }

  lemma {:induction false} DrainedRuns(session: U32, x: Sending, arrivals: seq<Arrival>, from: int)
    returns (actions: seq<Action>, y: Sending)
    requires Sized(x.window) && x.clock <= from && InOrder(from, arrivals)
    ensures RunBy(x, actions, y, EndTime(from, arrivals))
    ensures y.window == Drained(session, x.window, arrivals) && y.log == x.log
  {
    hide Absorbed;
    if arrivals == [] {
      actions, y := [], x;
    } else {
      var n := |arrivals| - 1;
      var a, m := DrainedRuns(session, x, arrivals[..n], from);
      var b, z := AbsorbedRuns(session, m, arrivals[n]);
      RunsJoin(x, a, m, b, z);
      actions, y := a + b, z;
    }
  }

  lemma {:induction false} AwaitedRuns(session: U32, x: Sending, arrivals: seq<Arrival>, from: int)
    returns (actions: seq<Action>, y: Sending)
    requires Sized(x.window) && x.clock <= from && InOrder(from, arrivals)
    ensures RunBy(x, actions, y, EndTime(from, arrivals))
    ensures y.window == Awaited(session, x.window, arrivals) && y.log == x.log
  {
    hide Absorbed, WaitEnded;
    if arrivals == [] {
      actions, y := [], x;
    } else {
      var n := |arrivals| - 1;
      InOrderEnds(from, arrivals[..n]);
      if WaitEnded(session, arrivals[..n]) {
        actions, y := AwaitedRuns(session, x, arrivals[..n], from);
      } else {
        actions, y := AbsorbedRuns(session, x, arrivals[n]);
      }
    }
  }

  /** The datagram that a log entry stands for. */
  predicate Carries(c: Config, d: Datagram, e: SendEvent)
    requires Runnable(c)
  {
    e.sequence < Total(c) && d == DataDatagram(c, e.sequence, e.retransmission)
  }

  /** The datagrams are those of the log entries that `y` has and `x` has not. */
  ghost predicate Logs(c: Config, x: Sending, y: Sending, sent: seq<Datagram>)
    requires Runnable(c)
  {
    && |y.log| == |x.log| + |sent| && x.log <= y.log
    && forall k: nat | k < |sent| :: Carries(c, sent[k], y.log[|x.log| + k])
  }

  /** Sending is the middle step of a run, and logs what it sends. */
  lemma SentRuns(c: Config, x: Sending, now: int)
    requires Runnable(c) && Sized(x.window) && x.window.total == Total(c) && x.clock <= now
    ensures var y := Act(x, SendNext(now));
      var (v, d) := Transmit(x.window, now);
      && y.window == v
      && Logs(c, x, y, if d.None? then [] else [DataDatagram(c, d.value.sequence, d.value.retransmission)])
  {
    hide Transmit, DataDatagram;
  }

  /** One turn of the loop is a run of the sender, and its log says what was sent. */
  lemma TurnRuns(c: Config, x: Sending, t: Turn) returns (actions: seq<Action>, y: Sending)
    requires Runnable(c) && Sized(x.window) && x.window.total == Total(c) && TurnInOrder(x.clock, t)
    ensures RunBy(x, actions, y, EndTime(t.sentAt, t.after))
    ensures y.window == Turned(c, x.window, t).0 && Logs(c, x, y, Turned(c, x.window, t).1)
  {
    hide Transmit, CheckTimeouts, Drained, Awaited, InOrder, EndTime, DataDatagram;
    var a, m := DrainedRuns(c.session, x, t.before, x.clock);
    ActRun(m, TimeoutCheck(t.checked));
    var n := Act(m, TimeoutCheck(t.checked));
    ActRun(n, SendNext(t.sentAt));
    var s := Act(n, SendNext(t.sentAt));
    SentRuns(c, n, t.sentAt);
    var b: seq<Action>, z: Sending;
    if Transmit(n.window, t.sentAt).1.None? {
      b, z := AwaitedRuns(c.session, s, t.after, t.sentAt);
    } else {
      b, z := DrainedRuns(c.session, s, t.after, t.sentAt);
    }
    RunsJoin(n, [SendNext(t.sentAt)], s, b, z);
    RunsJoin(m, [TimeoutCheck(t.checked)], n, [SendNext(t.sentAt)] + b, z);
    RunsJoin(x, a, m, [TimeoutCheck(t.checked)] + ([SendNext(t.sentAt)] + b), z);
    actions := a + ([TimeoutCheck(t.checked)] + ([SendNext(t.sentAt)] + b));
    y := z;
  }

  lemma LogsJoin(c: Config, x: Sending, y: Sending, z: Sending, a: seq<Datagram>, b: seq<Datagram>)
    requires Runnable(c) && Logs(c, x, y, a) && Logs(c, y, z, b)
    ensures Logs(c, x, z, a + b)
  {
    hide Carries;
    forall k: nat | k < |a + b| ensures Carries(c, (a + b)[k], z.log[|x.log| + k]) {
      if k < |a| {
        assert Carries(c, a[k], y.log[|x.log| + k]);
      } else {
        assert Carries(c, b[k - |a|], z.log[|y.log| + (k - |a|)]);
      }
    }
  }

  /** Turns that are in order from some time are so from any earlier one. */
  lemma {:induction false} EarlierInOrder(early: int, late: int, arrivals: seq<Arrival>)
    requires early <= late && InOrder(late, arrivals)
    ensures InOrder(early, arrivals) && EndTime(early, arrivals) <= EndTime(late, arrivals)
  {
    if arrivals != [] {
      EarlierInOrder(early, late, arrivals[..|arrivals| - 1]);
    }
  }

  lemma LaterStart(early: int, late: int, t: Turn)
    requires early <= late && TurnInOrder(late, t)
    ensures TurnInOrder(early, t)
  {
    EarlierInOrder(early, late, t.before);
  }

  // ---------------------------------------------------------------- what reading does

  /** The arrival is an ACK of the session, with the SACK flag and 8192 bits, that reports chunk `i`. */
  predicate Vouches(session: U32, a: Arrival, i: nat) {
    match DecodePacket(a.datagram)
    case Rejected(_) => false
    case Accepted(p) =>
      && p.header.session == session && p.header.kind == ACK && p.header.flags / 4 % 2 == 1
      && DecodeAck(p.payload).Some? && DecodeAck(p.payload).value.bitmapBits == 8192
      && Reports(DecodeAck(p.payload).value, i)
  }

  /** Reading ACKs issues and sends nothing, undoes nothing, and takes nothing off the queue. */
  ghost predicate ReadOnly(w: Window, v: Window) {
    && v == w.(base := v.base, outstanding := v.outstanding, chunks := v.chunks, queue := v.queue,
               stall := v.stall)
    && w.base <= v.base && |v.chunks| == |w.chunks|
    && forall i: nat | i < |w.chunks| ::
         && v.chunks[i].lastSent == w.chunks[i].lastSent
         && (w.chunks[i].IsAcked() ==> v.chunks[i].IsAcked())
         && (!v.chunks[i].IsAcked() ==>
               v.chunks[i].state == w.chunks[i].state && (w.chunks[i].pending ==> v.chunks[i].pending))
  }

  lemma AckReadOnly(w: Window, ack: AckPayload, now: int)
    requires Inv(w)
    ensures ReadOnly(w, ProcessAck(w, ack, now))
  {
    hide Counted, Queued, Evidenced, AckedIn, Reports, Rescan, DueFast, IsDue;
    var v := ProcessAck(w, ack, now);
    AbsorbShape(w, ack);
    forall i: nat | i < |w.chunks|
      ensures v.chunks[i].lastSent == w.chunks[i].lastSent
      ensures w.chunks[i].IsAcked() ==> v.chunks[i].IsAcked()
      ensures !v.chunks[i].IsAcked() ==>
        v.chunks[i].state == w.chunks[i].state && (w.chunks[i].pending ==> v.chunks[i].pending)
    {
      StateAfterAck(w, ack, now, i);
      var a := Absorb(w, ack);
      RescanIndex(a.chunks, a.base, a.next, now, i);
    }
  }

  lemma AbsorbedRule(session: U32, w: Window, a: Arrival)
    requires Inv(w)
    ensures Sized(w)
    ensures var v := Absorbed(session, w, a);
      && Inv(v) && ReadOnly(w, v)
      && forall i: nat | i < w.total :: v.chunks[i].IsAcked() <==>
           w.chunks[i].IsAcked() || (i < w.next && Vouches(session, a, i))
  {
    hide Inv, ProcessAck, Reports;
    SizedByInv(w);
    var d := DecodePacket(a.datagram);
    if d.Accepted? && d.packet.header.session == session && UsableAck(d.packet).Some? {
      var ack := UsableAck(d.packet).value;
      ProcessAckInv(w, ack, a.time);
      AckReadOnly(w, ack, a.time);
      forall i: nat | i < w.total
        ensures ProcessAck(w, ack, a.time).chunks[i].IsAcked() <==>
          w.chunks[i].IsAcked() || (i < w.next && Reports(ack, i))
      {
        AckedAfter(w, ack, a.time, i);
      }
    }
  }

  ghost predicate AnyVouches(session: U32, arrivals: seq<Arrival>, i: nat) {
    exists k: nat :: k < |arrivals| && Vouches(session, arrivals[k], i)
  }

  lemma AnyVouchesSplits(session: U32, arrivals: seq<Arrival>, i: nat)
    requires arrivals != []
    ensures var n := |arrivals| - 1;
      AnyVouches(session, arrivals, i) <==>
        AnyVouches(session, arrivals[..n], i) || Vouches(session, arrivals[n], i)
  {
    hide Vouches;
    var n := |arrivals| - 1;
    var seen := arrivals[..n];
    if AnyVouches(session, arrivals, i) && !Vouches(session, arrivals[n], i) {
      var k: nat :| k < |arrivals| && Vouches(session, arrivals[k], i);
      assert Vouches(session, seen[k], i);
    }
    if AnyVouches(session, seen, i) {
      var k: nat :| k < |seen| && Vouches(session, seen[k], i);
      assert Vouches(session, arrivals[k], i);
    }
  }

  lemma ReadOnlyJoins(u: Window, v: Window, w: Window)
    requires ReadOnly(u, v) && ReadOnly(v, w)
    ensures ReadOnly(u, w)
  {
  }

  /** Draining acknowledges exactly the issued chunks that some ACK read vouches for. */
  lemma {:induction false} DrainedRule(session: U32, w: Window, arrivals: seq<Arrival>)
    requires Inv(w)
    ensures Sized(w)
    ensures var v := Drained(session, w, arrivals);
      && Inv(v) && ReadOnly(w, v)
      && forall i: nat | i < w.total :: v.chunks[i].IsAcked() <==>
           w.chunks[i].IsAcked() || (i < w.next && AnyVouches(session, arrivals, i))
  {
    hide Inv, Absorbed, Vouches, ReadOnly;
    SizedByInv(w);
    if arrivals == [] {
      assert ReadOnly(w, w) by {
        SameIsReadOnly(w);
      }
    } else {
      var n := |arrivals| - 1;
      DrainedRule(session, w, arrivals[..n]);
      var m := Drained(session, w, arrivals[..n]);
      AbsorbedRule(session, m, arrivals[n]);
      var v := Drained(session, w, arrivals);
      ReadOnlyJoins(w, m, v);
      ReadOnlyShape(w, m);
      ReadOnlyShape(w, v);
      forall i: nat | i < w.total
        ensures v.chunks[i].IsAcked() <==>
          w.chunks[i].IsAcked() || (i < w.next && AnyVouches(session, arrivals, i))
      {
        AnyVouchesSplits(session, arrivals, i);
      }
    }
  }

  lemma SameIsReadOnly(w: Window)
    ensures ReadOnly(w, w)
  {
  }

  lemma ReadOnlyShape(w: Window, v: Window)
    requires ReadOnly(w, v)
    ensures |v.chunks| == |w.chunks| && v.total == w.total && v.next == w.next
    ensures v.logical == w.logical && v.coverage == w.coverage
  {
  }

  /** The first ACK of the session among the arrivals vouches for chunk `i`. */
  ghost predicate FirstVouches(session: U32, arrivals: seq<Arrival>, i: nat) {
    exists k: nat :: k < |arrivals| && Vouches(session, arrivals[k], i) && !WaitEnded(session, arrivals[..k])
  }

  lemma VouchingEnds(session: U32, a: Arrival, i: nat)
    requires Vouches(session, a, i)
    ensures EndsWait(session, a)
  {
    hide Reports, DecodeAck;
  }

  lemma FirstVouchesSplits(session: U32, arrivals: seq<Arrival>, i: nat)
    requires arrivals != []
    ensures var n := |arrivals| - 1;
      FirstVouches(session, arrivals, i) <==>
        if WaitEnded(session, arrivals[..n]) then FirstVouches(session, arrivals[..n], i)
        else Vouches(session, arrivals[n], i)
  {
    hide Vouches, EndsWait, WaitEnded;
    var n := |arrivals| - 1;
    var seen := arrivals[..n];
    if FirstVouches(session, arrivals, i) {
      var k: nat :| k < |arrivals| && Vouches(session, arrivals[k], i) && !WaitEnded(session, arrivals[..k]);
      if k < n {
        assert seen[..k] == arrivals[..k];
        assert Vouches(session, seen[k], i);
        VouchingEnds(session, arrivals[k], i);
        SomeEnds(session, seen, k);
      }
    }
    if WaitEnded(session, seen) && FirstVouches(session, seen, i) {
      var k: nat :| k < |seen| && Vouches(session, seen[k], i) && !WaitEnded(session, seen[..k]);
      assert seen[..k] == arrivals[..k];
      assert Vouches(session, arrivals[k], i);
    }
  }

  lemma SomeEnds(session: U32, arrivals: seq<Arrival>, k: nat)
    requires k < |arrivals| && EndsWait(session, arrivals[k])
    ensures WaitEnded(session, arrivals)
  {
  }

  /** A wait acknowledges exactly the issued chunks that the first ACK of the session vouches for. */
  lemma {:induction false} AwaitedRule(session: U32, w: Window, arrivals: seq<Arrival>)
    requires Inv(w)
    ensures Sized(w)
    ensures var v := Awaited(session, w, arrivals);
      && Inv(v) && ReadOnly(w, v)
      && forall i: nat | i < w.total :: v.chunks[i].IsAcked() <==>
           w.chunks[i].IsAcked() || (i < w.next && FirstVouches(session, arrivals, i))
  {
    hide Inv, Absorbed, Vouches, ReadOnly, WaitEnded;
    SizedByInv(w);
    SameIsReadOnly(w);
    if arrivals != [] {
      var n := |arrivals| - 1;
      AwaitedRule(session, w, arrivals[..n]);
      AbsorbedRule(session, w, arrivals[n]);
      var v := Awaited(session, w, arrivals);
      ReadOnlyShape(w, v);
      forall i: nat | i < w.total
        ensures v.chunks[i].IsAcked() <==>
          w.chunks[i].IsAcked() || (i < w.next && FirstVouches(session, arrivals, i))
      {
        FirstVouchesSplits(session, arrivals, i);
      }
    }
  }

  // ---------------------------------------------------------------- what a turn sends

  /** Chunk `i` of the window waits for retransmission, or was last sent 500 ms ago or more. */
  predicate DueNow(w: Window, i: nat, now: int) {
    && w.base <= i < w.next && i < |w.chunks|
    && (w.chunks[i].pending ||
        (w.chunks[i].state.InFlight? && now - w.chunks[i].lastSent >= 500_000_000))
  }

  /** No new chunk may go: all issued, or the window full, or the coverage used up. */
  predicate NoRoom(w: Window) {
    || w.next == w.total
    || |UnackedBelow(w.chunks, w.next)| >= w.logical
    || w.next == w.base + w.coverage
  }

  /** The timers make exactly the due chunks wait, and change no limit. */
  lemma TimersMakeDue(w: Window, now: int)
    requires Inv(w)
    ensures var v := CheckTimeouts(w, now, RTO);
      && Inv(v) && v.next == w.next && v.total == w.total && (NoRoom(v) <==> NoRoom(w))
      && forall i: nat | i < w.total :: v.chunks[i].pending <==> DueNow(w, i, now)
  {
    hide Counted, Evidenced;
    var v := CheckTimeouts(w, now, RTO);
    CheckTimeoutsInv(w, now, RTO);
    assert UnackedBelow(v.chunks, v.next) == UnackedBelow(w.chunks, w.next);
    forall i: nat | i < w.total ensures v.chunks[i].pending <==> DueNow(w, i, now) {
      TimeoutExactly(w, now, RTO, i);
      assert w.chunks[i].pending ==> w.base <= i < w.next;
    }
  }

  /** Selecting and sending: nothing exactly without pending chunks and without room. */
  lemma TransmitExactly(w: Window, now: int)
    requires Inv(w)
    ensures var d := Transmit(w, now).1;
      && (d.None? <==> (forall i: nat | i < w.total :: !w.chunks[i].pending) && NoRoom(w))
      && (d.Some? ==>
            && d.value.sequence < w.total
            && (d.value.retransmission <==> exists i: nat :: i < w.total && w.chunks[i].pending)
            && (if d.value.retransmission then w.chunks[d.value.sequence].pending
                else d.value.sequence == w.next))
  {
    hide Counted, Queued, Evidenced, Select;
    SelectedCanBeMarked(w);
    SelectsNothing(w);
    SelectOutcome(w);
    if Select(w).1.Some? {
      SelectsThis(w);
    }
  }

  /**
   * What a turn sends, told from the window after its first reading: nothing exactly when no chunk
   * is due at the timer check and there is no room for a new one; a due chunk, flagged, if there
   * is one; otherwise the next new chunk, not flagged.
   */
  lemma TurnSends(c: Config, w: Window, t: Turn) returns (q: nat)
    requires Runnable(c) && Inv(w) && w.total == Total(c)
    ensures Sized(w)
    ensures var (v, sent) := (Drained(c.session, w, t.before), Turned(c, w, t).1);
      && (sent == [] <==> (forall i: nat | i < w.total :: !DueNow(v, i, t.checked)) && NoRoom(v))
      && (sent != [] ==>
            && q < Total(c)
            && if exists i: nat :: i < w.total && DueNow(v, i, t.checked)
               then DueNow(v, q, t.checked) && sent == [DataDatagram(c, q, true)]
               else q == v.next && sent == [DataDatagram(c, q, false)])
  {
    hide Inv, Transmit, CheckTimeouts, Drained, Awaited, DataDatagram, DueNow, NoRoom, ReadOnly;
    DrainedRule(c.session, w, t.before);
    var v := Drained(c.session, w, t.before);
    TimersMakeDue(v, t.checked);
    var timed := CheckTimeouts(v, t.checked, RTO);
    TransmitExactly(timed, t.sentAt);
    var d := Transmit(timed, t.sentAt).1;
    q := if d.Some? then d.value.sequence else 0;
  }

  // ---------------------------------------------------------------- the loop resends what is overdue

  lemma DrainKeepsWaiting(session: U32, w: Window, a: Arrival, i: nat, p: nat)
    requires Inv(w) && Waits(w, i, p)
    ensures Sized(w)
    ensures var v := Absorbed(session, w, a);
      Waits(v, i, p) || (i < |v.chunks| && v.chunks[i].IsAcked())
  {
    hide Inv, ProcessAck, Waits;
    SizedByInv(w);
    var d := DecodePacket(a.datagram);
    if d.Accepted? && d.packet.header.session == session && UsableAck(d.packet).Some? {
      AckKeepsWaiting(w, UsableAck(d.packet).value, a.time, i, p);
    }
  }

  /** After any reading a waiting chunk is acknowledged or waits where it did. */
  lemma {:induction false} DrainedWaits(session: U32, w: Window, arrivals: seq<Arrival>, i: nat, p: nat)
    requires Inv(w) && Waits(w, i, p)
    ensures Sized(w)
    ensures var v := Drained(session, w, arrivals);
      Waits(v, i, p) || (i < |v.chunks| && v.chunks[i].IsAcked())
  {
    hide Inv, Absorbed, Waits, ReadOnly;
    SizedByInv(w);
    if arrivals != [] {
      var n := |arrivals| - 1;
      DrainedWaits(session, w, arrivals[..n], i, p);
      DrainedRule(session, w, arrivals[..n]);
      var m := Drained(session, w, arrivals[..n]);
      AbsorbedRule(session, m, arrivals[n]);
      ReadOnlyShape(w, m);
      if i < |m.chunks| && m.chunks[i].IsAcked() {
        ReadOnlyKeepsAcked(m, Drained(session, w, arrivals), i);
      } else {
        DrainKeepsWaiting(session, m, arrivals[n], i, p);
      }
    }
  }

  lemma ReadOnlyKeepsAcked(w: Window, v: Window, i: nat)
    requires ReadOnly(w, v) && i < |w.chunks| && w.chunks[i].IsAcked()
    ensures i < |v.chunks| && v.chunks[i].IsAcked()
  {
  }

  lemma {:induction false} AwaitedWaits(session: U32, w: Window, arrivals: seq<Arrival>, i: nat, p: nat)
    requires Inv(w) && Waits(w, i, p)
    ensures Sized(w)
    ensures var v := Awaited(session, w, arrivals);
      Waits(v, i, p) || (i < |v.chunks| && v.chunks[i].IsAcked())
  {
    hide Inv, Absorbed, Waits, WaitEnded;
    SizedByInv(w);
    if arrivals != [] {
      var n := |arrivals| - 1;
      AwaitedWaits(session, w, arrivals[..n], i, p);
      DrainKeepsWaiting(session, w, arrivals[n], i, p);
    }
  }

  /** A turn keeps the window invariant, its limits, and what is acknowledged. */
  lemma TurnedInv(c: Config, w: Window, t: Turn)
    requires Runnable(c) && Inv(w) && w.total == Total(c)
    ensures Sized(w)
    ensures var v := Turned(c, w, t).0;
      && Inv(v) && v.total == w.total && v.logical == w.logical && |v.chunks| == |w.chunks|
      && forall i: nat | i < |w.chunks| && w.chunks[i].IsAcked() :: v.chunks[i].IsAcked()
  {
    hide Inv, Transmit, CheckTimeouts, Drained, Awaited, DataDatagram, ReadOnly;
    DrainedRule(c.session, w, t.before);
    var d := Drained(c.session, w, t.before);
    ReadOnlyShape(w, d);
    CheckTimeoutsInv(d, t.checked, RTO);
    var timed := CheckTimeouts(d, t.checked, RTO);
    TransmitInv(timed, t.sentAt);
    var x := Transmit(timed, t.sentAt).0;
    LocalKeeps(d, t.checked, t.sentAt);
    DrainedRule(c.session, x, t.after);
    AwaitedRule(c.session, x, t.after);
    var v := Turned(c, w, t).0;
    ReadOnlyShape(x, v);
    forall i: nat | i < |w.chunks| && w.chunks[i].IsAcked() ensures v.chunks[i].IsAcked() {
      ReadOnlyKeepsAcked(w, d, i);
      ReadOnlyKeepsAcked(x, v, i);
    }
  }

  /** Checking timers and sending change no limit and acknowledge nothing. */
  lemma LocalKeeps(w: Window, checked: int, sentAt: int)
    requires Inv(w)
    ensures var x := Transmit(CheckTimeouts(w, checked, RTO), sentAt).0;
      && x.total == w.total && x.logical == w.logical && |x.chunks| == |w.chunks|
      && forall i: nat | i < |w.chunks| :: x.chunks[i].IsAcked() <==> w.chunks[i].IsAcked()
  {
    hide Counted, Queued, Evidenced, Select;
    CheckTimeoutsInv(w, checked, RTO);
    SelectOutcome(CheckTimeouts(w, checked, RTO));
  }

  /** The chunk is acknowledged, or it went out flagged in this turn, or it moved forward. */
  ghost predicate Forward(c: Config, v: Window, sent: seq<Datagram>, i: nat, p: nat)
    requires Runnable(c) && i < Total(c)
  {
    || (i < |v.chunks| && v.chunks[i].IsAcked())
    || sent == [DataDatagram(c, i, true)]
    || exists p': nat :: p' < p && Waits(v, i, p')
  }

  /** From the timer check on: a chunk then waiting is sent or moves forward. */
  lemma SecondHalfForward(c: Config, w: Window, t: Turn, i: nat, p: nat)
    requires Runnable(c) && Inv(w) && w.total == Total(c) && i < Total(c)
    requires Sized(w)
    requires var timed := CheckTimeouts(Drained(c.session, w, t.before), t.checked, RTO);
      Inv(timed) && timed.total == w.total && Waits(timed, i, p)
    ensures Forward(c, Turned(c, w, t).0, Turned(c, w, t).1, i, p)
  {
    hide Inv, Transmit, CheckTimeouts, Drained, Awaited, DataDatagram, Waits;
    var timed := CheckTimeouts(Drained(c.session, w, t.before), t.checked, RTO);
    var p' := TransmitMovesForward(timed, i, p, t.sentAt);
    TransmitInv(timed, t.sentAt);
    var x := Transmit(timed, t.sentAt).0;
    if Transmit(timed, t.sentAt).1.value.sequence != i {
      DrainedWaits(c.session, x, t.after, i, p');
    }
  }

  /** A turn brings a waiting chunk forward. */
  lemma TurnForward(c: Config, w: Window, t: Turn, i: nat, p: nat)
    requires Runnable(c) && Inv(w) && w.total == Total(c) && i < Total(c) && Waits(w, i, p)
    ensures Sized(w) && Forward(c, Turned(c, w, t).0, Turned(c, w, t).1, i, p)
  {
    hide Inv, Turned, CheckTimeouts, Drained, DataDatagram, Waits, ReadOnly;
    DrainedRule(c.session, w, t.before);
    DrainedWaits(c.session, w, t.before, i, p);
    var d := Drained(c.session, w, t.before);
    ReadOnlyShape(w, d);
    SameTotal(d, t.checked);
    if Waits(d, i, p) {
      CheckTimeoutsInv(d, t.checked, RTO);
      TimersKeepWaiting(d, i, p, t.checked);
      SecondHalfForward(c, w, t, i, p);
    } else {
      AckedInTurn(c, w, t, i);
    }
  }

  lemma SameTotal(w: Window, now: int)
    ensures CheckTimeouts(w, now, RTO).total == w.total
  {
  }

  /** What the first reading acknowledges stays acknowledged. */
  lemma AckedInTurn(c: Config, w: Window, t: Turn, i: nat)
    requires Runnable(c) && Inv(w) && Sized(w) && w.total == Total(c) && i < Total(c)
    requires i < |Drained(c.session, w, t.before).chunks|
    requires Drained(c.session, w, t.before).chunks[i].IsAcked()
    ensures i < |Turned(c, w, t).0.chunks| && Turned(c, w, t).0.chunks[i].IsAcked()
  {
    hide Inv, Transmit, CheckTimeouts, Drained, Awaited, DataDatagram, ReadOnly;
    DrainedRule(c.session, w, t.before);
    var d := Drained(c.session, w, t.before);
    LocalKeeps(d, t.checked, t.sentAt);
    CheckTimeoutsInv(d, t.checked, RTO);
    var timed := CheckTimeouts(d, t.checked, RTO);
    TransmitInv(timed, t.sentAt);
    var x := Transmit(timed, t.sentAt).0;
    DrainedRule(c.session, x, t.after);
    AwaitedRule(c.session, x, t.after);
    ReadOnlyKeepsAcked(x, Turned(c, w, t).0, i);
  }

  /** A turn whose timer check finds a chunk due makes it wait, within one window, and brings it forward. */
  lemma OverdueTurn(c: Config, w: Window, t: Turn, i: nat)
    requires Runnable(c) && Inv(w) && w.total == Total(c) && DueNow(w, i, t.checked)
    ensures Sized(w) && i < Total(c) && w.logical > 0
    ensures Forward(c, Turned(c, w, t).0, Turned(c, w, t).1, i, w.logical - 1)
  {
    hide Counted, Evidenced, Turned, CheckTimeouts, Drained, DataDatagram, Waits;
    DrainedRule(c.session, w, t.before);
    var d := Drained(c.session, w, t.before);
    SameTotal(d, t.checked);
    if d.chunks[i].IsAcked() {
      AckedInTurn(c, w, t, i);
    } else {
      var p := OverdueWaits(d, i, t.checked);
      CheckTimeoutsInv(d, t.checked, RTO);
      SecondHalfForward(c, w, t, i, p);
    }
  }

  /** The loop over these turns, until everything is acknowledged: the window and what went out. */
  function Looped(c: Config, w: Window, turns: seq<Turn>): (r: (Window, seq<Datagram>))
    requires Runnable(c) && Sized(w) && w.total == Total(c)
    decreases |turns|
  {
    if turns == [] || AllAcked(w) then (w, [])
    else
      var (v, sent) := Turned(c, w, turns[0]);
      var (u, rest) := Looped(c, v, turns[1..]);
      (u, sent + rest)
  }

  /** With this much sent, the loop from `v` over the rest of the turns is what is left to do. */
  ghost predicate LeftToDo(
      c: Config, w: Window, turns: seq<Turn>, v: Window, rest: seq<Turn>, sent: seq<Datagram>)
    requires Runnable(c) && Sized(w) && w.total == Total(c) && Sized(v) && v.total == Total(c)
  {
    Looped(c, w, turns) == (Looped(c, v, rest).0, sent + Looped(c, v, rest).1)
  }

  lemma LoopStarts(c: Config, w: Window, turns: seq<Turn>)
    requires Runnable(c) && Sized(w) && w.total == Total(c)
    ensures LeftToDo(c, w, turns, w, turns, [])
  {
    hide Looped, Sized;
    assert [] + Looped(c, w, turns).1 == Looped(c, w, turns).1;
  }

  lemma LoopGoesOn(
      c: Config, w: Window, turns: seq<Turn>, v: Window, rest: seq<Turn>, sent: seq<Datagram>)
    requires Runnable(c) && Sized(w) && w.total == Total(c) && Sized(v) && v.total == Total(c)
    requires LeftToDo(c, w, turns, v, rest, sent) && rest != [] && !AllAcked(v)
    ensures var (u, out) := Turned(c, v, rest[0]);
      LeftToDo(c, w, turns, u, rest[1..], sent + out)
  {
    hide Turned, Sized;
    var (u, out) := Turned(c, v, rest[0]);
    var more := Looped(c, u, rest[1..]).1;
    assert sent + (out + more) == (sent + out) + more;
  }

  lemma LoopEnds(
      c: Config, w: Window, turns: seq<Turn>, v: Window, rest: seq<Turn>, sent: seq<Datagram>)
    requires Runnable(c) && Sized(w) && w.total == Total(c) && Sized(v) && v.total == Total(c)
    requires LeftToDo(c, w, turns, v, rest, sent) && (rest == [] || AllAcked(v))
    ensures Looped(c, w, turns) == (v, sent)
  {
    hide Turned, Sized;
    assert sent + [] == sent;
  }

  /** The chunk is acknowledged at the end of the loop, or it went out flagged. */
  ghost predicate Settles(c: Config, w: Window, turns: seq<Turn>, i: nat)
    requires Runnable(c) && Sized(w) && w.total == Total(c) && i < Total(c)
  {
    var (u, sent) := Looped(c, w, turns);
    (i < |u.chunks| && u.chunks[i].IsAcked()) || DataDatagram(c, i, true) in sent
  }

  lemma {:induction false} AckedSettles(c: Config, w: Window, turns: seq<Turn>, i: nat)
    requires Runnable(c) && Inv(w) && Sized(w) && w.total == Total(c) && i < Total(c)
    requires i < |w.chunks| && w.chunks[i].IsAcked()
    ensures Settles(c, w, turns, i)
    decreases |turns|
  {
    hide Inv, Turned, DataDatagram, Sized;
    if turns != [] && !AllAcked(w) {
      TurnedInv(c, w, turns[0]);
      AckedSettles(c, Turned(c, w, turns[0]).0, turns[1..], i);
    }
  }

  lemma AllAckedHas(w: Window, i: nat)
    requires Inv(w) && AllAcked(w) && i < w.total
    ensures i < |w.chunks| && w.chunks[i].IsAcked()
  {
    hide Counted, Queued, Evidenced;
  }

  lemma SettledOutcome(c: Config, w: Window, turns: seq<Turn>, i: nat)
    requires Runnable(c) && Sized(w) && w.total == Total(c) && i < Total(c)
    requires Settles(c, w, turns, i)
    ensures || i in AckedSet(Looped(c, w, turns).0.chunks, 0, Total(c))
            || DataDatagram(c, i, true) in Looped(c, w, turns).1
  {
    hide Looped, DataDatagram;
  }

  /** No turns at all are a run too, and nothing is logged in it. */
  lemma StillHere(c: Config, x: Sending)
    requires Runnable(c) && Sized(x.window)
    ensures RunsTo(x, [], x) && Logs(c, x, x, [])
  {
  }

  lemma LoopStep(c: Config, w: Window, turns: seq<Turn>, i: nat)
    requires Runnable(c) && Sized(w) && w.total == Total(c) && i < Total(c)
    requires turns != [] && !AllAcked(w)
    requires || DataDatagram(c, i, true) in Turned(c, w, turns[0]).1
             || Settles(c, Turned(c, w, turns[0]).0, turns[1..], i)
    ensures Settles(c, w, turns, i)
  {
    hide Turned, DataDatagram, Sized;
  }

  /** A waiting chunk is acknowledged, or goes out flagged, within as many turns as its position. */
  lemma {:induction false} WaitingSettles(c: Config, w: Window, turns: seq<Turn>, i: nat, p: nat)
    requires Runnable(c) && Inv(w) && Sized(w) && w.total == Total(c) && i < Total(c)
    requires Waits(w, i, p) && |turns| > p
    ensures Settles(c, w, turns, i)
    decreases |turns|
  {
    hide Inv, Turned, DataDatagram, Waits, Settles;
    if AllAcked(w) {
      AllAckedHas(w, i);
      AckedSettles(c, w, turns, i);
    } else {
      TurnForward(c, w, turns[0], i, p);
      TurnedInv(c, w, turns[0]);
      var (v, sent) := Turned(c, w, turns[0]);
      if i < |v.chunks| && v.chunks[i].IsAcked() {
        AckedSettles(c, v, turns[1..], i);
      } else if sent != [DataDatagram(c, i, true)] {
        var p': nat :| p' < p && Waits(v, i, p');
        WaitingSettles(c, v, turns[1..], i, p');
      }
      LoopStep(c, w, turns, i);
    }
  }

  /**
   * A chunk that waits for retransmission, or was last sent 500 ms before the first timer check,
   * is acknowledged at the end or goes out flagged, within as many turns as the logical window.
   */
  lemma OverdueSettles(c: Config, w: Window, turns: seq<Turn>, i: nat)
    requires Runnable(c) && Inv(w) && w.total == Total(c) && |turns| >= w.logical
    requires turns != [] && DueNow(w, i, turns[0].checked)
    ensures Sized(w) && i < Total(c) && Settles(c, w, turns, i)
  {
    hide Inv, Turned, DataDatagram, Waits, Settles, DueNow;
    OverdueTurn(c, w, turns[0], i);
    if AllAcked(w) {
      AllAckedHas(w, i);
      AckedSettles(c, w, turns, i);
    } else {
      TurnedInv(c, w, turns[0]);
      var (v, sent) := Turned(c, w, turns[0]);
      if i < |v.chunks| && v.chunks[i].IsAcked() {
        AckedSettles(c, v, turns[1..], i);
      } else if sent != [DataDatagram(c, i, true)] {
        var p': nat :| p' < w.logical - 1 && Waits(v, i, p');
        WaitingSettles(c, v, turns[1..], i, p');
      }
      LoopStep(c, w, turns, i);
    }
  }
}
