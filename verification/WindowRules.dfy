/**
 * What each window operation does to which chunk, and exactly when, said about the chunk records
 * before and after alone: no helper of the operations themselves is named.
 */
module WindowRules {
  import opened Types
  import opened Codec
  import opened Windows
  import opened WindowInvariant
  import opened WindowProperties

  // ---------------------------------------------------------------- counting and order

  function AckedSet(chunks: seq<Chunk>, lo: nat, hi: nat): set<nat> {
    set i: nat | lo <= i < hi && i < |chunks| && chunks[i].IsAcked()
  }

  /** The count that the scan keeps is the number of acknowledged chunks. */
  lemma {:induction false} AckedInCounts(chunks: seq<Chunk>, lo: nat, hi: nat)
    requires hi <= |chunks|
    ensures AckedIn(chunks, lo, hi) == |AckedSet(chunks, lo, hi)|
    decreases hi - lo
  {
    if lo < hi {
      AckedInCounts(chunks, lo + 1, hi);
      var rest := AckedSet(chunks, lo + 1, hi);
      assert AckedSet(chunks, lo, hi) == if chunks[lo].IsAcked() then rest + {lo} else rest;
    } else {
      assert AckedSet(chunks, lo, hi) == {};
    }
  }

  predicate Falling(s: seq<nat>) {
    forall i: nat, j: nat | i < j < |s| :: s[i] > s[j]
  }

  predicate Rising(s: seq<nat>) {
    forall i: nat, j: nat | i < j < |s| :: s[i] < s[j]
  }

  lemma {:induction false} DescendingFalls(s: set<nat>, lo: nat, hi: nat)
    ensures Falling(Descending(s, lo, hi))
    decreases hi - lo
  {
    if lo < hi {
      var rest := Descending(s, lo + 1, hi);
      DescendingFalls(s, lo + 1, hi);
      DescendingHolds(s, lo + 1, hi);
      assert forall k: nat | k < |rest| :: rest[k] in rest;
    }
  }

  lemma {:induction false} AscendingRises(s: set<nat>, lo: nat, hi: nat)
    ensures Rising(Ascending(s, lo, hi))
    decreases hi - lo
  {
    if lo < hi {
      var rest := Ascending(s, lo, hi - 1);
      AscendingRises(s, lo, hi - 1);
      AscendingHolds(s, lo, hi - 1);
      assert forall k: nat | k < |rest| :: rest[k] in rest;
    }
  }

  // ---------------------------------------------------------------- selection

  /**
   * Nothing is selected exactly when no chunk waits for retransmission and no new one may go: all
   * issued, or as many unacknowledged as the logical window, or the coverage used up.
   */
  lemma SelectsNothing(w: Window)
    requires Inv(w)
    ensures Select(w).1.None? <==>
      && (forall i: nat | i < w.total :: !w.chunks[i].pending)
      && (|| w.next == w.total
          || |UnackedBelow(w.chunks, w.next)| >= w.logical
          || w.next == w.base + w.coverage)
  {
    hide Queued, Evidenced, Select;
    SelectOutcome(w);
  }

  /**
   * Otherwise a waiting chunk if there is one, flagged as a retransmission and as fast or not as
   * it was queued, with the count of that moment as its new evidence; if not, the next new chunk.
   */
  lemma SelectsThis(w: Window)
    requires Inv(w) && Select(w).1.Some?
    ensures var (v, d) := (Select(w).0, Select(w).1.value);
      if exists i: nat :: i < w.total && w.chunks[i].pending then
        && d.sequence < w.total && w.chunks[d.sequence].pending && d.retransmission
        && d.fast == w.chunks[d.sequence].fastPending
        && !v.chunks[d.sequence].pending && !v.chunks[d.sequence].fastPending
        && v.chunks[d.sequence].fastRetransmitted
        && v.chunks[d.sequence].evidence == w.chunks[d.sequence].latest
        && v.next == w.next
        && forall i: nat | i < w.total && i != d.sequence :: v.chunks[i] == w.chunks[i]
      else
        d == Decision(w.next, false, false) && v.next == w.next + 1 && v.chunks == w.chunks
  {
    hide Counted, Evidenced, Select;
    SelectOutcome(w);
    SelectInv(w);
  }

  // ---------------------------------------------------------------- acknowledgement

  lemma HalfDiv(b: nat, d: nat)
    requires d > 0
    ensures b / 2 / d == b / (2 * d)
  {
    var h := b / 2;
    var q := h / d;
    assert h == q * d + h % d;
    var rest := 2 * (h % d) + b % 2;
    assert b == 2 * (q * d) + rest;
    assert 2 * (q * d) == (2 * d) * q;
    QuotientUnique(b, 2 * d, q, rest);
  }

  /** Bit `k` of a byte, by its weight. */
  lemma {:induction false} BitByWeight(b: nat, k: nat)
    requires k < 8
    ensures ByteBit(b, k) <==> b / BitValue(k) % 2 == 1
    decreases k
  {
    if k > 0 {
      BitByWeight(b / 2, k - 1);
      HalfDiv(b, BitValue(k - 1));
      assert BitValue(k) == 2 * BitValue(k - 1);
    }
  }

  /** Bit `k` of a bitmap, counted from the least significant bit of the first byte. */
  predicate BitAt(bitmap: seq<Byte>, k: nat) {
    k / 8 < |bitmap| && bitmap[k / 8] / BitValue(k % 8) % 2 == 1
  }

  /**
   * A chunk is acknowledged after an ACK exactly when it was before, or it was issued and lies
   * below the cumulative ACK, or below the announced largest with its bit set: bit zero of the
   * first byte stands for the bitmap base, and bits past the announced number do not count.
   */
  lemma AckedExactly(w: Window, ack: AckPayload, now: int, i: nat)
    requires Inv(w) && i < w.total
    ensures ProcessAck(w, ack, now).chunks[i].IsAcked() <==>
      || w.chunks[i].IsAcked()
      || (&& i < w.next
          && (|| i < ack.cumulativeAck
              || (&& ack.bitmapBase <= i < ack.largestReceivedPlusOne
                  && i - ack.bitmapBase < ack.bitmapBits
                  && BitAt(ack.bitmap, i - ack.bitmapBase))))
  {
    hide Inv, ProcessAck;
    AckedAfter(w, ack, now, i);
    if ack.bitmapBase <= i && (i - ack.bitmapBase) / 8 < |ack.bitmap| {
      var k: nat := i - ack.bitmapBase;
      BitByWeight(ack.bitmap[k / 8], k % 8);
    }
  }

  /** What an ACK leaves alone in a chunk that it does not acknowledge. */
  lemma AckKeepsRecord(w: Window, ack: AckPayload, now: int, i: nat)
    requires Inv(w) && i < w.next && !ProcessAck(w, ack, now).chunks[i].IsAcked()
    ensures var u := ProcessAck(w, ack, now);
      && u.base <= i && !w.chunks[i].IsAcked()
      && u.chunks[i] == RescanChunk(w.chunks[i], AckedIn(u.chunks, i + 1, u.next), now)
  {
    hide Counted, Queued, Evidenced, AckedIn, Reports, RescanChunk;
    var v := Absorb(w, ack);
    AbsorbShape(w, ack);
    StateAfterAck(w, ack, now, i);
    ProcessAckInv(w, ack, now);
    var u := ProcessAck(w, ack, now);
    assert u.chunks == Scan(v, now).chunks;
    ScanChunkAt(v, now, i);
    ScanKeepsCounts(v, now, i + 1);
  }

  /**
   * An ACK queues a chunk that is in flight and not waiting exactly when the number of chunks
   * ACKed above it has grown, is at least three more than at its last retransmission, and it was
   * not queued fast or resent before, or its last send is 250 ms ago. It is then marked as fast.
   */
  lemma AckQueuesExactly(w: Window, ack: AckPayload, now: int, i: nat)
    requires Inv(w) && i < w.next && w.chunks[i].state.InFlight?
    requires ProcessAck(w, ack, now).chunks[i].state.InFlight?
    ensures var (c, u) := (w.chunks[i], ProcessAck(w, ack, now));
      var n := AckedIn(u.chunks, i + 1, u.next);
      && (u.chunks[i].pending <==>
            || c.pending
            || (&& n > c.latest && n >= c.evidence + 3
                && (!c.fastRetransmitted || now - c.lastSent >= 250_000_000)))
      && (u.chunks[i].fastPending <==> c.fastPending || (u.chunks[i].pending && !c.pending))
      && (u.chunks[i].fastRetransmitted <==>
            c.fastRetransmitted || (u.chunks[i].pending && !c.pending))
      && u.chunks[i].latest == n && u.chunks[i].evidence == c.evidence
      && u.chunks[i].lastSent == c.lastSent
  {
    hide Inv, ProcessAck, AckedIn;
    AckKeepsRecord(w, ack, now, i);
  }

  /** The chunks an ACK queues go behind those that wait already, the highest first. */
  lemma AckQueueOrder(w: Window, ack: AckPayload, now: int)
    requires Inv(w)
    ensures var u := ProcessAck(w, ack, now);
      && w.queue <= u.queue
      && Falling(u.queue[|w.queue|..])
      && forall i: nat | i < w.next ::
           i in u.queue[|w.queue|..] <==> u.chunks[i].pending && !w.chunks[i].pending
  {
    hide Counted, Evidenced, AckedIn, Reports;
    var v := Absorb(w, ack);
    AbsorbInv(w, ack);
    var u := ProcessAck(w, ack, now);
    var due := DueFast(v.chunks, v.base, v.next, now);
    var add := Descending(due, v.base, v.next);
    ScanEnqueues(v, now);
    DescendingFalls(due, v.base, v.next);
    assert u.queue[|w.queue|..] == add;
    assert u.chunks == Scan(v, now).chunks;
    forall i: nat | i < w.next ensures i in add <==> u.chunks[i].pending && !w.chunks[i].pending {
      assert v.chunks[i].pending ==> w.chunks[i].pending;
      assert u.chunks[i].pending == (v.chunks[i].pending || i in due);
    }
  }

  // ---------------------------------------------------------------- timeouts

  /**
   * A timer check queues exactly the chunks of the window that are in flight, not waiting, and
   * were last sent at least the timeout ago; it touches nothing else.
   */
  lemma TimeoutExactly(w: Window, now: int, rto: int, i: nat)
    requires Sized(w) && i < w.total
    ensures var (c, d) := (w.chunks[i], CheckTimeouts(w, now, rto).chunks[i]);
      && (d.pending <==>
            || c.pending
            || (w.base <= i < w.next && c.state.InFlight? && now - c.lastSent >= rto))
      && (d.pending && !c.pending ==> !d.fastPending)
      && d == c.(pending := d.pending, fastPending := d.fastPending)
      && (d.pending == c.pending ==> d == c)
  {
  }

  /** The chunks a timer check queues go behind those that wait already, the lowest first. */
  lemma TimeoutQueueOrder(w: Window, now: int, rto: int)
    requires Inv(w)
    ensures var v := CheckTimeouts(w, now, rto);
      && w.queue <= v.queue
      && Rising(v.queue[|w.queue|..])
      && forall i: nat | i < w.next ::
           i in v.queue[|w.queue|..] <==> v.chunks[i].pending && !w.chunks[i].pending
  {
    hide Counted, Evidenced;
    var v := CheckTimeouts(w, now, rto);
    var due := DueTimeout(w, now, rto);
    TimeoutEnqueues(w, now, rto);
    AscendingRises(due, w.base, w.next);
    assert v.queue[|w.queue|..] == Ascending(due, w.base, w.next);
  }
}
