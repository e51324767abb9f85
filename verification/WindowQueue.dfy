/** How a chunk waiting in the retransmission queue gets to the front, whatever the window does. */
module WindowQueue {
  import opened Types
  import opened Windows
  import opened WindowInvariant
  import opened WindowProperties

  /** Chunk `b` waits at position `p` of the queue. */
  ghost predicate Waits(w: Window, b: nat, p: nat) {
    p < |w.queue| && w.queue[p] == b < |w.chunks| && w.chunks[b].state.InFlight? && w.chunks[b].pending
  }

  /** A selection takes the waiting chunk, or another one ahead of it, moving it forward. */
  lemma {:induction false} SelectMovesForward(w: Window, b: nat, p: nat) returns (p': nat)
    requires Inv(w) && Waits(w, b, p)
    ensures Select(w).1.Some? && Select(w).1.value.retransmission
    ensures Select(w).1.value.sequence == b || (p' < p && Waits(Select(w).0, b, p'))
    decreases |w.queue|
  {
    hide Inv;
    p' := 0;
    if Live(w, w.queue[0]) {
      if w.queue[0] != b {
        p' := p - 1;
      }
    } else {
      PopDeadInv(w);
      var q := SelectMovesForward(w.(queue := w.queue[1..]), b, p - 1);
      p' := q;
    }
  }

  lemma TransmitMovesForward(w: Window, b: nat, p: nat, now: int) returns (p': nat)
    requires Inv(w) && Waits(w, b, p)
    ensures Transmit(w, now).1.Some? && Transmit(w, now).1.value.retransmission
    ensures Transmit(w, now).1.value.sequence == b || (p' < p && Waits(Transmit(w, now).0, b, p'))
    ensures Transmit(w, now).0.base == w.base
  {
    p' := SelectMovesForward(w, b, p);
    SelectedCanBeMarked(w);
    SelectOutcome(w);
  }

  lemma TimersKeepWaiting(w: Window, b: nat, p: nat, now: int)
    requires Inv(w) && Waits(w, b, p)
    ensures Waits(CheckTimeouts(w, now, RTO), b, p)
  {
  }

  lemma AckKeepsWaiting(w: Window, ack: AckPayload, now: int, b: nat, p: nat)
    requires Inv(w) && Waits(w, b, p)
    ensures var v := ProcessAck(w, ack, now);
      Waits(v, b, p) || (b < |v.chunks| && v.chunks[b].IsAcked())
  {
    hide Counted, Evidenced;
    var v := Absorb(w, ack);
    AbsorbShape(w, ack);
    assert b in w.queue;
    assert ProcessAck(w, ack, now).chunks == Scan(v, now).chunks;
    ScanChunkAt(v, now, b);
  }

  /** After a timer check an overdue chunk waits, with fewer than a window of entries ahead of it. */
  lemma OverdueWaits(w: Window, i: nat, now: int) returns (p: nat)
    requires Inv(w) && w.base <= i < w.next && w.chunks[i].state.InFlight?
    requires w.chunks[i].pending || now - w.chunks[i].lastSent >= RTO
    ensures Waits(CheckTimeouts(w, now, RTO), i, p) && p < w.logical
  {
    hide Counted, Evidenced;
    var v := CheckTimeouts(w, now, RTO);
    CheckTimeoutsInv(w, now, RTO);
    QueueBounded(v);
    assert v.chunks[i].pending;
    p :| 0 <= p < |v.queue| && v.queue[p] == i;
  }

  lemma IssuesBase(w: Window, now: int)
    requires Inv(w) && w.base == w.next < w.total
    ensures Transmit(w, now).0.base == w.base < Transmit(w, now).0.next
  {
    assert UnackedBelow(w.chunks, w.next) == {};
    SelectOutcome(w);
    SelectedCanBeMarked(w);
  }
}
