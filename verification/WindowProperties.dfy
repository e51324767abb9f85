/** What ACK processing, selection and timeouts mean for the window as a whole. */
module WindowProperties {
  import opened Types
  import opened Windows
  import opened WindowInvariant

  // ---------------------------------------------------------------- ACK processing is a union

  /** ACK processing only ever turns a state into `Acked`. */
  lemma StateAfterAck(w: Window, ack: AckPayload, now: int, i: nat)
    requires Inv(w) && i < w.total
    ensures ProcessAck(w, ack, now).chunks[i].state ==
            if i < w.next && Reports(ack, i) then Acked else w.chunks[i].state
  {
    var v := Absorb(w, ack);
    assert ProcessAck(w, ack, now).chunks == Scan(v, now).chunks;
    AbsorbShape(w, ack);
    if i < w.next {
      ScanChunkAt(v, now, i);
    }
  }

  /** The acknowledged chunks afterwards are those before, plus what the ACK reports below `next`. */
  lemma AckedAfter(w: Window, ack: AckPayload, now: int, i: nat)
    requires Inv(w) && i < w.total
    ensures ProcessAck(w, ack, now).chunks[i].IsAcked() <==>
            w.chunks[i].IsAcked() || (i < w.next && Reports(ack, i))
  {
    StateAfterAck(w, ack, now, i);
  }

  ghost predicate StatesAgree(w: Window, v: Window) {
    && |w.chunks| == |v.chunks|
    && forall i: nat | i < |w.chunks| :: w.chunks[i].state == v.chunks[i].state
  }

  /** Base and outstanding count are functions of the chunk states. */
  lemma StatesDecide(w: Window, v: Window)
    requires Shape(w) && Counted(w) && Shape(v) && Counted(v)
    requires StatesAgree(w, v) && w.next == v.next
    ensures w.base == v.base && w.outstanding == v.outstanding
  {
    hide AckedIn;
    assert w.base < v.base ==> v.chunks[w.base].IsAcked();
    assert v.base < w.base ==> w.chunks[v.base].IsAcked();
    assert UnackedBelow(w.chunks, w.next) == UnackedBelow(v.chunks, v.next);
  }

  /** Processing two ACKs in either order, at any times, ends in the same states and counters. */
  lemma AckJoin(w: Window, a: AckPayload, b: AckPayload, t1: int, t2: int, t3: int, t4: int)
    requires Inv(w)
    ensures
      var ab := ProcessAck(ProcessAck(w, a, t1), b, t2);
      var ba := ProcessAck(ProcessAck(w, b, t3), a, t4);
      && StatesAgree(ab, ba)
      && ab.base == ba.base
      && ab.outstanding == ba.outstanding
      && forall i: nat | i < w.total ::
           ab.chunks[i].state ==
           if i < w.next && (Reports(a, i) || Reports(b, i)) then Acked else w.chunks[i].state
  {
    var wa := ProcessAck(w, a, t1);
    var wb := ProcessAck(w, b, t3);
    ProcessAckInv(w, a, t1);
    ProcessAckInv(w, b, t3);
    ProcessAckInv(wa, b, t2);
    ProcessAckInv(wb, a, t4);
    var ab := ProcessAck(wa, b, t2);
    var ba := ProcessAck(wb, a, t4);
    forall i: nat | i < w.total
      ensures ab.chunks[i].state == ba.chunks[i].state
      ensures ab.chunks[i].state ==
              if i < w.next && (Reports(a, i) || Reports(b, i)) then Acked else w.chunks[i].state
    {
      StateAfterAck(w, a, t1, i);
      StateAfterAck(w, b, t3, i);
      StateAfterAck(wa, b, t2, i);
      StateAfterAck(wb, a, t4, i);
    }
    StatesDecide(ab, ba);
  }

  // ---------------------------------------------------------------- late ACKs

  lemma {:induction false} NothingDue(lo: nat, hi: nat)
    ensures Descending({}, lo, hi) == []
    decreases hi - lo
  {
    if lo < hi {
      NothingDue(lo + 1, hi);
    }
  }

  lemma {:induction false} FirstUnackedStays(chunks: seq<Chunk>, base: nat)
    requires base <= |chunks|
    requires base < |chunks| ==> !chunks[base].IsAcked()
    ensures FirstUnacked(chunks, base) == base
  {
  }

  /** In a settled window the scan finds nothing new: every cached count is already right. */
  lemma SettledScan(w: Window, now: int)
    requires Shape(w) && Settled(w)
    ensures Rescan(w.chunks, w.base, w.next, now) == w.chunks
    ensures DueFast(w.chunks, w.base, w.next, now) == {}
  {
    var r := Rescan(w.chunks, w.base, w.next, now);
    forall i: nat | i < |w.chunks| ensures r[i] == w.chunks[i] {
      RescanIndex(w.chunks, w.base, w.next, now, i);
      assert w.base <= i < w.next ==> CountRight(w, i);
    }
    forall i: nat | w.base <= i < w.next ensures !DueAt(w.chunks, w.next, now, i) {
      assert CountRight(w, i);
    }
  }

  /**
   * An ACK that reports only what is already acknowledged changes no field at all, at any
   * time: no state, counter, cached count, flag, queue entry or stall statistic.
   */
  lemma LateAckIsNoOp(w: Window, ack: AckPayload, now: int)
    requires Inv(w) && Settled(w)
    requires forall i: nat | i < w.next && Reports(ack, i) :: w.chunks[i].IsAcked()
    ensures ProcessAck(w, ack, now) == w
  {
    assert Acknowledge(w.chunks, w.next, ack) == w.chunks;
    FirstUnackedStays(w.chunks, w.base);
    SettledScan(w, now);
    NothingDue(w.base, w.next);
    assert w.queue + [] == w.queue;
  }

  // ---------------------------------------------------------------- settled windows stay settled

  /** After an ACK every cached count is right, whatever it was before. */
  lemma ProcessAckCountsRight(w: Window, ack: AckPayload, now: int)
    requires Inv(w)
    ensures var u := ProcessAck(w, ack, now);
      forall i: nat | u.base <= i < u.next :: CountRight(u, i)
  {
    hide Counted, Queued, AckedIn, Acknowledge, FirstUnacked;
    var v := Absorb(w, ack);
    var u := ProcessAck(w, ack, now);
    assert u.chunks == Scan(v, now).chunks;
    AbsorbShape(w, ack);
    forall i: nat | u.base <= i < u.next ensures CountRight(u, i) {
      ScanChunkAt(v, now, i);
      ScanKeepsCounts(v, now, i + 1);
    }
  }

  /** So an ACK settles any window whose issued chunks were all sent. */
  lemma ProcessAckSettled(w: Window, ack: AckPayload, now: int)
    requires Inv(w) && AllSent(w)
    ensures Settled(ProcessAck(w, ack, now))
  {
    var u := ProcessAck(w, ack, now);
    ProcessAckCountsRight(w, ack, now);
    forall i: nat | u.base <= i < u.next ensures !u.chunks[i].state.Unsent? {
      StateAfterAck(w, ack, now, i);
    }
  }

  lemma TimeoutKeepsCounts(w: Window, now: int, rto: int, i: nat)
    requires i < w.next <= |w.chunks|
    ensures var v := CheckTimeouts(w, now, rto);
      && v.chunks[i].state == w.chunks[i].state
      && v.chunks[i].latest == w.chunks[i].latest
      && AckedIn(v.chunks, i + 1, w.next) == AckedIn(w.chunks, i + 1, w.next)
  {
    AckedInSame(w.chunks, CheckTimeouts(w, now, rto).chunks, i + 1, w.next);
  }

  lemma CheckTimeoutsSettled(w: Window, now: int, rto: int)
    requires Inv(w) && Settled(w)
    ensures Settled(CheckTimeouts(w, now, rto))
  {
    var v := CheckTimeouts(w, now, rto);
    forall i: nat | v.base <= i < v.next
      ensures !v.chunks[i].state.Unsent? && CountRight(v, i)
    {
      assert CountRight(w, i);
      TimeoutKeepsCounts(w, now, rto, i);
    }
  }

  // ---------------------------------------------------------------- select, send and mark

  /** The selected chunk may always be marked as sent: `mark_sent` never throws after a selection. */
  lemma SelectedCanBeMarked(w: Window)
    requires Inv(w)
    ensures var (v, d) := Select(w);
      d.Some? ==> CanMarkSent(v, d.value.sequence)
  {
    SelectOutcome(w);
    SelectInv(w);
  }

  /**
   * Selecting, sending and marking form one client step: no ACK is processed in between.
   * The guard stands for the exception in `mark_sent`; SelectedCanBeMarked shows it holds.
   */
  function Transmit(w: Window, now: int): (r: (Window, Option<Decision>))
    ensures Sized(w) ==> Sized(r.0) && r.0.total == w.total
    ensures Sized(w) && r.1.Some? ==> r.1.value.sequence < w.total
  {
    var (v, d) := Select(w);
    if d.Some? && CanMarkSent(v, d.value.sequence)
    then (MarkSent(v, d.value.sequence, now), d)
    else (v, None)
  }

  lemma TransmitInv(w: Window, now: int)
    requires Inv(w)
    ensures Inv(Transmit(w, now).0)
  {
    SelectInv(w);
    SelectedCanBeMarked(w);
    var (v, d) := Select(w);
    if d.Some? {
      MarkSentInv(v, d.value.sequence, now);
    }
  }

  lemma TransmitSettled(w: Window, now: int)
    requires Inv(w) && Settled(w)
    ensures Settled(Transmit(w, now).0)
  {
    hide AckedIn, Counted, Queued, Evidenced, Select;
    SelectOutcome(w);
    SelectedCanBeMarked(w);
    var (v, d) := Transmit(w, now);
    forall i: nat | v.base <= i < v.next
      ensures !v.chunks[i].state.Unsent? && CountRight(v, i)
    {
      assert i < w.next ==> CountRight(w, i);
      TransmitCounts(w, v, i);
    }
  }

  lemma TransmitCounts(w: Window, v: Window, i: nat)
    requires Shape(w) && |v.chunks| == |w.chunks| && w.next <= v.next <= w.next + 1 && i < v.next <= w.total
    requires forall k: nat | k < w.total :: v.chunks[k].IsAcked() == w.chunks[k].IsAcked()
    ensures AckedIn(v.chunks, i + 1, v.next) == if i < w.next then AckedIn(w.chunks, i + 1, w.next) else 0
  {
    if i < w.next {
      AckedInSame(v.chunks, w.chunks, i + 1, w.next);
      AckedInSplit(v.chunks, i + 1, w.next, v.next);
      if w.next < v.next {
        assert w.chunks[w.next] == FRESH_CHUNK;
      }
    }
  }

  // ---------------------------------------------------------------- no deadlock

  /** With nothing pending and no room or nothing left, the base chunk is outstanding. */
  lemma BlockedBase(w: Window)
    requires Inv(w) && !AllAcked(w) && !CanSendNew(w)
    ensures w.base < w.next
  {
    hide Queued, Evidenced;
    assert w.base == w.next ==> UnackedBelow(w.chunks, w.next) == {};
  }

  /** A timer check makes selection succeed once a chunk's timer has run out. */
  lemma TimeoutWakes(w: Window, now: int, i: nat)
    requires Inv(w) && w.base <= i < w.next && w.chunks[i].state.InFlight?
    requires now - w.chunks[i].lastSent >= RTO
    ensures Select(CheckTimeouts(w, now, RTO)).1.Some?
  {
    hide Counted, Queued, Evidenced, Select;
    CheckTimeoutsInv(w, now, RTO);
    SelectOutcome(CheckTimeouts(w, now, RTO));
    assert CheckTimeouts(w, now, RTO).chunks[i].pending;
  }

  /**
   * When a settled, unfinished window has nothing to send, its base chunk is in flight and not
   * pending; one RTO after that chunk's last send, the timeout check makes selection succeed.
   */
  lemma NoDeadlock(w: Window, now: int)
    requires Inv(w) && Settled(w) && !AllAcked(w)
    requires Select(w).1.None?
    ensures w.base < w.next
    ensures w.chunks[w.base].state.InFlight? && !w.chunks[w.base].pending
    ensures now - w.chunks[w.base].lastSent >= RTO ==>
              Select(CheckTimeouts(Select(w).0, now, RTO)).1.Some?
  {
    hide Counted, Queued, Evidenced, CountRight, Select, CheckTimeouts;
    SelectOutcome(w);
    SelectInv(w);
    BlockedBase(w);
    if now - w.chunks[w.base].lastSent >= RTO {
      TimeoutWakes(Select(w).0, now, w.base);
    }
  }
}
