/** Every window operation keeps the window invariant, whatever an ACK carries. */
module WindowInvariant {
  import opened Types
  import opened Windows

  // ---------------------------------------------------------------- counting

  lemma {:induction false} AckedInBound(chunks: seq<Chunk>, lo: nat, hi: nat)
    requires hi <= |chunks|
    ensures AckedIn(chunks, lo, hi) <= Max(0, hi - lo)
    decreases hi - lo
  {
    if lo < hi {
      AckedInBound(chunks, lo + 1, hi);
    }
  }

  lemma {:induction false} AckedInMonotone(a: seq<Chunk>, b: seq<Chunk>, lo: nat, hi: nat)
    requires hi <= |a| && hi <= |b|
    requires forall i: nat | lo <= i < hi && a[i].IsAcked() :: b[i].IsAcked()
    ensures AckedIn(a, lo, hi) <= AckedIn(b, lo, hi)
    decreases hi - lo
  {
    if lo < hi {
      AckedInMonotone(a, b, lo + 1, hi);
    }
  }

  lemma AckedInSame(a: seq<Chunk>, b: seq<Chunk>, lo: nat, hi: nat)
    requires hi <= |a| && hi <= |b|
    requires forall i: nat | lo <= i < hi :: a[i].IsAcked() == b[i].IsAcked()
    ensures AckedIn(a, lo, hi) == AckedIn(b, lo, hi)
  {
    AckedInMonotone(a, b, lo, hi);
    AckedInMonotone(b, a, lo, hi);
  }

  lemma {:induction false} AckedInSplit(chunks: seq<Chunk>, lo: nat, mid: nat, hi: nat)
    requires lo <= mid <= hi <= |chunks|
    ensures AckedIn(chunks, lo, hi) == AckedIn(chunks, lo, mid) + AckedIn(chunks, mid, hi)
    decreases mid - lo
  {
    if lo < mid {
      AckedInSplit(chunks, lo + 1, mid, hi);
    }
  }

  // ---------------------------------------------------------------- scan orders

  lemma {:induction false} DescendingHolds(s: set<nat>, lo: nat, hi: nat)
    ensures Distinct(Descending(s, lo, hi))
    ensures forall x: nat :: x in Descending(s, lo, hi) <==> x in s && lo <= x < hi
    decreases hi - lo
  {
    if lo < hi {
      DescendingHolds(s, lo + 1, hi);
    }
  }

  lemma {:induction false} AscendingHolds(s: set<nat>, lo: nat, hi: nat)
    ensures Distinct(Ascending(s, lo, hi))
    ensures forall x: nat :: x in Ascending(s, lo, hi) <==> x in s && lo <= x < hi
    decreases hi - lo
  {
    if lo < hi {
      AscendingHolds(s, lo, hi - 1);
    }
  }

  // ---------------------------------------------------------------- construction and selection

  lemma SizedByInv(w: Window)
    requires Inv(w)
    ensures Sized(w)
  {
    hide Counted, Queued, Evidenced;
  }

  lemma NewWindowInv(total: nat, logical: nat, coverage: nat, now: int)
    requires total < U32_LIMIT && ValidLimits(logical, coverage)
    ensures Inv(NewWindow(total, logical, coverage, now))
    ensures Settled(NewWindow(total, logical, coverage, now))
  {
    var w := NewWindow(total, logical, coverage, now);
    assert Occupied(w) == {};
  }

  /** Replacing one chunk by one with the same state changes no count. */
  lemma SameStates(w: Window, v: Window)
    requires |w.chunks| == |v.chunks| && w.next == v.next <= |w.chunks|
    requires forall i: nat | i < |w.chunks| ::
               w.chunks[i].IsAcked() == v.chunks[i].IsAcked()
    ensures UnackedBelow(w.chunks, w.next) == UnackedBelow(v.chunks, v.next)
    ensures forall i: nat | i <= w.next :: AckedIn(w.chunks, i, w.next) == AckedIn(v.chunks, i, v.next)
  {
    forall i: nat | i <= w.next
      ensures AckedIn(w.chunks, i, w.next) == AckedIn(v.chunks, i, v.next)
    {
      AckedInSame(w.chunks, v.chunks, i, w.next);
    }
  }

  lemma PopMembers(queue: seq<nat>)
    requires queue != [] && Distinct(queue)
    ensures Distinct(queue[1..])
    ensures forall x: nat :: x in queue[1..] <==> x in queue && x != queue[0]
  {
    forall x: nat | x in queue && x != queue[0] ensures x in queue[1..] {
      var k :| 0 <= k < |queue| && queue[k] == x;
      assert queue[1..][k - 1] == x;
    }
  }

  /** What the evidence says depends on the chunks alone. */
  lemma EvidenceIgnoresQueue(w: Window, v: Window)
    requires Evidenced(w) && v == w.(queue := v.queue, stall := v.stall)
    ensures Evidenced(v)
  {
    hide AckedIn;
    forall i: nat | i < v.next ensures EvidenceOk(v, i) {
      assert EvidenceOk(w, i);
    }
  }

  lemma PopDeadQueued(w: Window)
    requires Queued(w) && w.queue != [] && !Live(w, w.queue[0])
    ensures Queued(w.(queue := w.queue[1..]))
    ensures w.queue[0] < |w.chunks| && w.chunks[w.queue[0]].IsAcked()
  {
    PopMembers(w.queue);
    assert w.queue[0] in w.queue;
  }

  lemma PopCounted(w: Window)
    requires Counted(w) && w.queue != []
    ensures Counted(w.(queue := w.queue[1..]))
  {
    SubsetSize(Occupied(w.(queue := w.queue[1..])), Occupied(w));
  }

  lemma PopDeadInv(w: Window)
    requires Inv(w) && w.queue != [] && !Live(w, w.queue[0])
    ensures Inv(w.(queue := w.queue[1..]))
    ensures w.queue[0] < |w.chunks| && w.chunks[w.queue[0]].IsAcked()
  {
    hide Queued, Counted, Evidenced;
    PopDeadQueued(w);
    PopCounted(w);
    EvidenceIgnoresQueue(w, w.(queue := w.queue[1..]));
  }

  lemma TakeQueued(w: Window, q: nat)
    requires Queued(w) && w.queue != [] && q == w.queue[0] && Live(w, q)
    ensures Queued(w.(queue := w.queue[1..], chunks := w.chunks[q := TakeChunk(w.chunks[q])]))
  {
    PopMembers(w.queue);
  }

  lemma TakeEvidenced(w: Window, q: nat)
    requires Evidenced(w) && Live(w, q) && w.queue != []
    ensures Evidenced(w.(queue := w.queue[1..], chunks := w.chunks[q := TakeChunk(w.chunks[q])]))
  {
    var v := w.(queue := w.queue[1..], chunks := w.chunks[q := TakeChunk(w.chunks[q])]);
    forall i: nat | i < v.next ensures EvidenceOk(v, i) {
      assert EvidenceOk(w, i);
      AckedInSame(w.chunks, v.chunks, i + 1, w.next);
    }
  }

  lemma TakeCounted(w: Window, q: nat)
    requires Counted(w) && w.queue != [] && Live(w, q)
    ensures Counted(w.(queue := w.queue[1..], chunks := w.chunks[q := TakeChunk(w.chunks[q])]))
  {
    var v := w.(queue := w.queue[1..], chunks := w.chunks[q := TakeChunk(w.chunks[q])]);
    assert UnackedBelow(v.chunks, v.next) == UnackedBelow(w.chunks, w.next);
    SubsetSize(Occupied(v), Occupied(w));
  }

  lemma TakeInv(w: Window, q: nat)
    requires Inv(w) && w.queue != [] && q == w.queue[0] && Live(w, q)
    ensures Inv(w.(queue := w.queue[1..], chunks := w.chunks[q := TakeChunk(w.chunks[q])]))
  {
    hide Queued, Counted, Evidenced;
    TakeQueued(w, q);
    TakeCounted(w, q);
    TakeEvidenced(w, q);
    QueuedBelowNext(w, q);
  }

  lemma QueuedBelowNext(w: Window, q: nat)
    requires Queued(w) && q in w.queue
    ensures q < w.next
  {
  }

  lemma IssueEvidenced(w: Window, v: Window)
    requires Shape(w) && Evidenced(w) && w.next < w.total
    requires v == w.(next := w.next + 1, outstanding := w.outstanding + 1)
    ensures Evidenced(v)
  {
    forall i: nat | i < v.next ensures EvidenceOk(v, i) {
      if i < w.next {
        assert EvidenceOk(w, i);
        AckedInSplit(w.chunks, i + 1, w.next, v.next);
      }
    }
  }

  /** Issuing a chunk adds one unacknowledged sequence. */
  lemma IssueUnacked(chunks: seq<Chunk>, next: nat)
    requires next < |chunks| && !chunks[next].IsAcked()
    ensures UnackedBelow(chunks, next + 1) == UnackedBelow(chunks, next) + {next}
    ensures |UnackedBelow(chunks, next + 1)| == |UnackedBelow(chunks, next)| + 1
  {
    assert UnackedBelow(chunks, next + 1) == UnackedBelow(chunks, next) + {next};
  }

  lemma IssueCounted(w: Window, v: Window)
    requires Shape(w) && Counted(w) && w.queue == [] && CanSendNew(w)
    requires v == w.(next := w.next + 1, outstanding := w.outstanding + 1)
    ensures Counted(v)
  {
    hide UnackedBelow;
    IssueUnacked(w.chunks, w.next);
    assert Occupied(v) == UnackedBelow(v.chunks, v.next);
  }

  lemma IssueInv(w: Window)
    requires Inv(w) && w.queue == [] && CanSendNew(w)
    ensures Inv(w.(next := w.next + 1, outstanding := w.outstanding + 1))
  {
    var v := w.(next := w.next + 1, outstanding := w.outstanding + 1);
    IssueEvidenced(w, v);
    IssueCounted(w, v);
  }

  /** Selection keeps the invariant. */
  lemma {:induction false} SelectInv(w: Window)
    requires Inv(w)
    ensures Inv(Select(w).0)
    decreases |w.queue|
  {
    hide Inv;
    if w.queue != [] {
      if Live(w, w.queue[0]) {
        TakeInv(w, w.queue[0]);
      } else {
        PopDeadInv(w);
        SelectInv(w.(queue := w.queue[1..]));
      }
    } else if CanSendNew(w) {
      IssueInv(w);
    }
  }

  ghost predicate AnyPending(w: Window) {
    exists i: nat :: i < |w.chunks| && w.chunks[i].pending
  }

  /** Everything a selection may do, without reference to how the queue is walked. */
  ghost predicate SelectionOutcome(w: Window, v: Window, d: Option<Decision>) {
    match d
    case None => v == w.(queue := [])
    case Some(Decision(q, false, fast)) =>
      !fast && q == w.next && v == w.(queue := [], next := w.next + 1, outstanding := w.outstanding + 1)
    case Some(Decision(q, true, fast)) =>
      && q < |w.chunks|
      && w.chunks[q].state.InFlight? && w.chunks[q].pending && fast == w.chunks[q].fastPending
      && v == w.(queue := v.queue, chunks := w.chunks[q := TakeChunk(w.chunks[q])])
  }

  /**
   * A retransmission is chosen exactly when some chunk is pending; otherwise new data exactly
   * when both window limits allow it; otherwise nothing.
   */
  lemma {:induction false} SelectOutcome(w: Window)
    requires Inv(w)
    ensures SelectionOutcome(w, Select(w).0, Select(w).1)
    ensures Select(w).1.None? <==> !AnyPending(w) && !CanSendNew(w)
    ensures Select(w).1.Some? ==> (Select(w).1.value.retransmission <==> AnyPending(w))
    decreases |w.queue|
  {
    hide Counted, Evidenced;
    if w.queue != [] && !Live(w, w.queue[0]) {
      PopDeadInv(w);
      SelectOutcome(w.(queue := w.queue[1..]));
    } else if w.queue != [] {
      assert w.chunks[w.queue[0]].pending;
    }
  }

  lemma MarkSentInv(w: Window, sequence: nat, time: int)
    requires Inv(w) && CanMarkSent(w, sequence)
    ensures Inv(MarkSent(w, sequence, time))
  {
    var v := MarkSent(w, sequence, time);
    SameStates(w, v);
    assert Occupied(v) == Occupied(w);
    forall i: nat | i < v.next ensures EvidenceOk(v, i) {
      assert EvidenceOk(w, i);
    }
  }

  // ---------------------------------------------------------------- acknowledgements

  /** The acknowledged half of `ProcessAck`, before the scan for fast retransmissions. */
  ghost function Absorb(w: Window, ack: AckPayload): Window
    requires Sized(w)
  {
    var acked := Acknowledge(w.chunks, w.next, ack);
    w.(chunks := acked, base := FirstUnacked(acked, w.base),
       outstanding := |UnackedBelow(acked, w.next)|)
  }

  lemma AbsorbShape(w: Window, ack: AckPayload)
    requires Shape(w)
    ensures Shape(Absorb(w, ack))
  {
    var v := Absorb(w, ack);
    assert v.next < v.total ==> v.chunks[v.next] == FRESH_CHUNK;
    assert v.base <= v.next;
  }

  lemma AbsorbCounted(w: Window, ack: AckPayload)
    requires Shape(w) && Counted(w)
    ensures Counted(Absorb(w, ack))
  {
    SubsetSize(Occupied(Absorb(w, ack)), Occupied(w));
  }

  lemma AbsorbEvidenced(w: Window, ack: AckPayload)
    requires Shape(w) && Evidenced(w)
    ensures Evidenced(Absorb(w, ack))
  {
    var v := Absorb(w, ack);
    forall i: nat | i < v.next ensures EvidenceOk(v, i) {
      assert EvidenceOk(w, i);
      AckedInMonotone(w.chunks, v.chunks, i + 1, w.next);
    }
  }

  lemma AbsorbInv(w: Window, ack: AckPayload)
    requires Inv(w)
    ensures Inv(Absorb(w, ack))
  {
    AbsorbShape(w, ack);
    AbsorbCounted(w, ack);
    AbsorbEvidenced(w, ack);
  }

  /** The scan half of `ProcessAck`. */
  ghost function Scan(w: Window, now: int): Window
    requires w.next <= |w.chunks|
  {
    w.(chunks := Rescan(w.chunks, w.base, w.next, now),
       queue := w.queue + Descending(DueFast(w.chunks, w.base, w.next, now), w.base, w.next))
  }

  lemma AppendDistinct(a: seq<nat>, b: seq<nat>)
    requires Distinct(a) && Distinct(b)
    requires forall x: nat | x in b :: x !in a
    ensures Distinct(a + b)
  {
    var c := a + b;
    forall i, j | 0 <= i < j < |c| ensures c[i] != c[j] {
      if i < |a| <= j {
        assert c[j] in b;
        assert c[i] in a;
      }
    }
  }

  /** Making a set of idle in-flight chunks pending, and queueing exactly those. */
  ghost predicate Enqueues(w: Window, v: Window, due: set<nat>, add: seq<nat>) {
    && v == w.(chunks := v.chunks, queue := w.queue + add)
    && |v.chunks| == |w.chunks|
    && Distinct(add)
    && (forall x: nat :: x in add <==> x in due)
    && (forall i: nat | i < |w.chunks| :: v.chunks[i].state == w.chunks[i].state)
    && (forall i: nat | i < |w.chunks| :: v.chunks[i].pending == (w.chunks[i].pending || i in due))
    && (forall i: nat | i in due ::
          i < w.next && i < |w.chunks| && w.chunks[i].state.InFlight? && !w.chunks[i].pending)
  }

  lemma EnqueueQueued(w: Window, v: Window, due: set<nat>, add: seq<nat>)
    requires Queued(w) && w.next <= w.total && Enqueues(w, v, due, add)
    ensures Queued(v)
  {
    AppendDistinct(w.queue, add);
    assert forall x: nat :: x in v.queue <==> x in w.queue || x in add;
  }

  lemma EnqueueCounted(w: Window, v: Window, due: set<nat>, add: seq<nat>)
    requires Counted(w) && Enqueues(w, v, due, add)
    ensures Counted(v)
  {
    assert UnackedBelow(v.chunks, v.next) == UnackedBelow(w.chunks, w.next);
    assert forall x: nat :: x in v.queue <==> x in w.queue || x in due;
    SubsetSize(Occupied(v), Occupied(w));
  }

  lemma ScanEnqueues(w: Window, now: int)
    requires w.next <= |w.chunks|
    ensures Enqueues(w, Scan(w, now), DueFast(w.chunks, w.base, w.next, now),
                     Descending(DueFast(w.chunks, w.base, w.next, now), w.base, w.next))
  {
    var due := DueFast(w.chunks, w.base, w.next, now);
    var v := Scan(w, now);
    DescendingHolds(due, w.base, w.next);
    forall i: nat | i < |w.chunks|
      ensures v.chunks[i].pending == (w.chunks[i].pending || i in due)
    {
      RescanIndex(w.chunks, w.base, w.next, now, i);
    }
  }

  lemma RescanChunkEvidence(c: Chunk, later: nat, now: int)
    requires c.evidence <= c.latest <= later
    requires c.fastPending ==>
      c.pending && c.fastRetransmitted && c.latest >= c.evidence + FAST_RETRANSMIT_THRESHOLD
    ensures var r := RescanChunk(c, later, now);
      && r.evidence <= r.latest <= later
      && r.latest == (if c.state.InFlight? then later else c.latest)
      && (r.fastPending ==>
            r.pending && r.fastRetransmitted && r.latest >= r.evidence + FAST_RETRANSMIT_THRESHOLD)
  {
  }

  /** The scan changes no chunk's state, hence no count. */
  lemma ScanKeepsCounts(w: Window, now: int, lo: nat)
    requires w.next <= |w.chunks|
    ensures AckedIn(Scan(w, now).chunks, lo, w.next) == AckedIn(w.chunks, lo, w.next)
  {
    AckedInSame(Scan(w, now).chunks, w.chunks, lo, w.next);
  }

  /** The scan at one index, whatever the order of the loop. */
  lemma {:induction false} RescanIndex(chunks: seq<Chunk>, base: nat, next: nat, now: int, i: nat)
    requires i < |chunks| && next <= |chunks|
    ensures Rescan(chunks, base, next, now)[i] ==
            if base <= i < next then RescanChunk(chunks[i], AckedIn(chunks, i + 1, next), now)
            else chunks[i]
    decreases next - base
  {
    if base < next {
      RescanIndex(chunks, base + 1, next, now, i);
    }
  }

  lemma ScanChunkAt(w: Window, now: int, i: nat)
    requires i < w.next <= |w.chunks|
    ensures Scan(w, now).chunks[i] ==
            if w.base <= i then RescanChunk(w.chunks[i], AckedIn(w.chunks, i + 1, w.next), now)
            else w.chunks[i]
  {
    RescanIndex(w.chunks, w.base, w.next, now, i);
  }

  lemma EvidenceAfterScan(w: Window, v: Window, now: int, i: nat, later: nat)
    requires Shape(w) && i < w.next && v.next == w.next <= |v.chunks| && v.coverage == w.coverage
    requires later == AckedIn(w.chunks, i + 1, w.next) == AckedIn(v.chunks, i + 1, v.next)
    requires v.chunks[i] == if w.base <= i then RescanChunk(w.chunks[i], later, now) else w.chunks[i]
    requires EvidenceOk(w, i)
    ensures EvidenceOk(v, i)
  {
    AckedInBound(w.chunks, i + 1, w.next);
    RescanChunkEvidence(w.chunks[i], later, now);
  }

  lemma ScanEvidenced(w: Window, now: int)
    requires Shape(w) && Evidenced(w)
    ensures Evidenced(Scan(w, now))
  {
    forall i: nat | i < w.next ensures EvidenceOk(Scan(w, now), i) {
      ScanChunkAt(w, now, i);
      ScanKeepsCounts(w, now, i + 1);
      EvidenceAfterScan(w, Scan(w, now), now, i, AckedIn(w.chunks, i + 1, w.next));
    }
  }

  lemma ScanShape(w: Window, now: int)
    requires Shape(w)
    ensures Shape(Scan(w, now))
  {
    forall i: nat | w.next <= i < w.total ensures Scan(w, now).chunks[i] == FRESH_CHUNK {
      RescanIndex(w.chunks, w.base, w.next, now, i);
    }
  }

  lemma ScanInv(w: Window, now: int)
    requires Inv(w)
    ensures Inv(Scan(w, now))
  {
    var due := DueFast(w.chunks, w.base, w.next, now);
    var add := Descending(due, w.base, w.next);
    ScanEnqueues(w, now);
    ScanShape(w, now);
    EnqueueQueued(w, Scan(w, now), due, add);
    EnqueueCounted(w, Scan(w, now), due, add);
    ScanEvidenced(w, now);
  }

  lemma ProcessAckInv(w: Window, ack: AckPayload, now: int)
    requires Inv(w)
    ensures Inv(ProcessAck(w, ack, now))
  {
    AbsorbInv(w, ack);
    var v := Absorb(w, ack);
    ScanInv(v, now);
    var u := ProcessAck(w, ack, now);
    assert u == Scan(v, now).(stall := u.stall);
    assert Occupied(u) == Occupied(Scan(v, now));
    forall i: nat | i < u.next ensures EvidenceOk(u, i) {
      assert EvidenceOk(Scan(v, now), i);
    }
  }

  // ---------------------------------------------------------------- timeouts

  lemma TimeoutEnqueues(w: Window, now: int, rto: int)
    ensures Enqueues(w, CheckTimeouts(w, now, rto), DueTimeout(w, now, rto),
                     Ascending(DueTimeout(w, now, rto), w.base, w.next))
  {
    AscendingHolds(DueTimeout(w, now, rto), w.base, w.next);
  }

  lemma TimeoutEvidenced(w: Window, now: int, rto: int)
    requires Evidenced(w)
    ensures Evidenced(CheckTimeouts(w, now, rto))
  {
    hide AckedIn;
    var v := CheckTimeouts(w, now, rto);
    forall i: nat | i < v.next ensures EvidenceOk(v, i) {
      assert EvidenceOk(w, i);
      AckedInSame(w.chunks, v.chunks, i + 1, w.next);
    }
  }

  lemma CheckTimeoutsInv(w: Window, now: int, rto: int)
    requires Inv(w)
    ensures Inv(CheckTimeouts(w, now, rto))
  {
    hide AckedIn, Evidenced, Queued, Counted;
    var v := CheckTimeouts(w, now, rto);
    var due := DueTimeout(w, now, rto);
    TimeoutEnqueues(w, now, rto);
    EnqueueQueued(w, v, due, Ascending(due, w.base, w.next));
    EnqueueCounted(w, v, due, Ascending(due, w.base, w.next));
    TimeoutEvidenced(w, now, rto);
  }

  // ---------------------------------------------------------------- consequences

  /**
   * The queue holds each sequence once, every pending chunk, otherwise only ACKed ones, and
   * never outgrows the logical window, stale entries included.
   */
  lemma QueueBounded(w: Window)
    requires Inv(w)
    ensures Distinct(w.queue) && |w.queue| <= w.logical
    ensures forall i: nat | i < w.total ::
      i in w.queue <==> w.chunks[i].pending || (i in w.queue && w.chunks[i].IsAcked())
    ensures w.outstanding <= w.logical
  {
    DistinctSize(w.queue, Occupied(w));
    SubsetSize(UnackedBelow(w.chunks, w.next), Occupied(w));
  }
}
