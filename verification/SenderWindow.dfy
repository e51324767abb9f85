/** The sender's window as the program keeps it: fields, a chunk vector and a deque, in place. */
module SenderWindows {
  import opened Types
  import opened Windows

  import opened WindowInvariant

  class SenderWindow {
    const totalChunks: U32
    const logicalWindowChunks: U32
    const sackCoverageChunks: U32
    var base: U32
    var nextSequence: U32
    var outstandingChunks: U32
    const chunks: array<Chunk>
    var retransmissionQueue: seq<nat>
    var stall: Stall

    /** The window these fields stand for. */
    ghost function View(): Window
      reads this, chunks
    {
      Window(totalChunks, logicalWindowChunks, sackCoverageChunks, base, nextSequence,
             outstandingChunks, chunks[..], retransmissionQueue, stall)
    }

    ghost predicate Valid()
      reads this, chunks
    {
      Inv(View())
    }

    constructor (total: U32, logical: U32, coverage: U32, now: int)
      requires ValidLimits(logical, coverage)
      ensures Valid() && fresh(chunks)
      ensures View() == NewWindow(total, logical, coverage, now)
    {
      totalChunks, logicalWindowChunks, sackCoverageChunks := total, logical, coverage;
      base, nextSequence, outstandingChunks := 0, 0, 0;
      chunks := new Chunk[total](_ => FRESH_CHUNK);
      retransmissionQueue := [];
      stall := Stall(now, 0, 0, 0);
      new;
      assert chunks[..] == seq(total, i => FRESH_CHUNK);
      NewWindowInv(total, logical, coverage, now);
    }

    /** Construction with the program's argument checks; nothing where it throws. */
    static method Create(total: U32, logical: U32, coverage: U32, now: int)
      returns (window: SenderWindow?)
      ensures window == null <==> !ValidLimits(logical, coverage)
      ensures window != null ==>
        && fresh(window) && fresh(window.chunks) && window.Valid()
        && window.View() == NewWindow(total, logical, coverage, now)
    {
      if logical == 0 || coverage == 0 || logical > coverage {
        return null;
      }
      window := new SenderWindow(total, logical, coverage, now);
    }

    method SelectNextPacket() returns (decision: Option<Decision>)
      requires Valid()
      modifies this`retransmissionQueue, this`nextSequence, this`outstandingChunks, chunks
      ensures Valid()
      ensures (View(), decision) == Select(old(View()))
    {
      SelectInv(View());
      assert forall k: nat | k < |retransmissionQueue| :: retransmissionQueue[k] in retransmissionQueue;
      decision := PopAndSelect();
    }

    /** The selection loop itself, which needs only that the queue holds valid indices. */
    method PopAndSelect() returns (decision: Option<Decision>)
      requires Sized(View()) && forall k: nat | k < |retransmissionQueue| :: retransmissionQueue[k] < chunks.Length
      modifies this`retransmissionQueue, this`nextSequence, this`outstandingChunks, chunks
      ensures (View(), decision) == Select(old(View()))
    {
      ghost var was := View();
      while retransmissionQueue != []
        invariant unchanged(chunks)
        invariant nextSequence == old(nextSequence) && outstandingChunks == old(outstandingChunks)
        invariant forall k: nat | k < |retransmissionQueue| :: retransmissionQueue[k] < chunks.Length
        invariant Select(was.(queue := retransmissionQueue)) == Select(was)
        decreases |retransmissionQueue|
      {
        var sequence := retransmissionQueue[0];
        retransmissionQueue := retransmissionQueue[1..];
        if chunks[sequence].state.InFlight? && chunks[sequence].pending {
          var fast := chunks[sequence].fastPending;
          chunks[sequence] := chunks[sequence].(
            pending := false, fastPending := false, fastRetransmitted := true,
            evidence := chunks[sequence].latest);
          assert View() == was.(queue := retransmissionQueue,
                                chunks := was.chunks[sequence := TakeChunk(was.chunks[sequence])]);
          return Some(Decision(sequence, true, fast));
        }
      }
      assert View() == was.(queue := []);
      if nextSequence < totalChunks && outstandingChunks < logicalWindowChunks &&
         nextSequence < base + sackCoverageChunks {
        var sequence := nextSequence;
        nextSequence := nextSequence + 1;
        outstandingChunks := outstandingChunks + 1;
        return Some(Decision(sequence, false, false));
      }
      return None;
    }

    /** `ok` is false where the program throws; then nothing changes. */
    method MarkSent(sequence: U32, time: int) returns (ok: bool)
      requires Valid()
      modifies chunks
      ensures ok == CanMarkSent(old(View()), sequence)
      ensures Valid()
      ensures View() == if ok then Windows.MarkSent(old(View()), sequence, time) else old(View())
    {
      if sequence >= nextSequence || chunks[sequence].state.Acked? {
        return false;
      }
      MarkSentInv(View(), sequence, time);
      chunks[sequence] := chunks[sequence].(state := InFlight, lastSent := time);
      return true;
    }

    /** The outstanding counter counts; the base may be behind while an ACK is absorbed. */
    ghost predicate Counting()
      reads this, chunks
    {
      && chunks.Length == totalChunks && base <= totalChunks && nextSequence <= totalChunks
      && outstandingChunks == |UnackedBelow(chunks[..], nextSequence)|
    }

    method MarkAcked(sequence: U32)
      requires Counting()
      modifies this`outstandingChunks, chunks
      ensures Counting()
      ensures chunks[..] ==
        if sequence < nextSequence
        then old(chunks[..])[sequence := AckChunk(old(chunks[sequence]))]
        else old(chunks[..])
    {
      if sequence >= nextSequence || sequence >= totalChunks {
        return;
      }
      if chunks[sequence].state.Acked? {
        return;
      }
      ghost var before := UnackedBelow(chunks[..], nextSequence);
      assert sequence as nat in before;
      chunks[sequence] := chunks[sequence].(state := Acked, pending := false, fastPending := false);
      assert UnackedBelow(chunks[..], nextSequence) == before - {sequence as nat};
      outstandingChunks := outstandingChunks - 1;
    }

    method AckPrefix(prefixEnd: U32)
      requires Counting() && prefixEnd <= nextSequence
      modifies this`outstandingChunks, chunks
      ensures Counting()
      ensures forall i: nat | i < chunks.Length ::
        chunks[i] == if base <= i < prefixEnd then AckChunk(old(chunks[i])) else old(chunks[i])
    {
      var sequence := base;
      while sequence < prefixEnd
        invariant base <= sequence && (sequence <= prefixEnd || sequence == base)
        invariant Counting()
        invariant forall i: nat | i < chunks.Length ::
          chunks[i] == if base <= i < sequence then AckChunk(old(chunks[i])) else old(chunks[i])
      {
        label before:
        MarkAcked(sequence);
        forall i: nat | i < chunks.Length
          ensures chunks[i] ==
            if base <= i < sequence + 1 then AckChunk(old(chunks[i])) else old(chunks[i])
        {
          assert chunks[..][i] == chunks[i];
          assert old@before(chunks[..])[i] == old@before(chunks[i]);
        }
        sequence := sequence + 1;
      }
    }

    method AckBitmap(ack: AckPayload, bits: nat)
      requires Counting()
      requires bits <= 8 * |ack.bitmap| && (bits > 0 ==> ack.bitmapBase + bits <= nextSequence)
      modifies this`outstandingChunks, chunks
      ensures Counting()
      ensures forall i: nat | i < chunks.Length ::
        chunks[i] ==
          if ack.bitmapBase <= i < ack.bitmapBase + bits && TestBit(ack.bitmap, i - ack.bitmapBase)
          then AckChunk(old(chunks[i])) else old(chunks[i])
    {
      for bit := 0 to bits
        invariant Counting()
        invariant forall i: nat | i < chunks.Length ::
          chunks[i] ==
            if ack.bitmapBase <= i < ack.bitmapBase + bit && TestBit(ack.bitmap, i - ack.bitmapBase)
            then AckChunk(old(chunks[i])) else old(chunks[i])
      {
        if TestBit(ack.bitmap, bit) {
          label before:
          MarkAcked(ack.bitmapBase + bit);
          forall i: nat | i < chunks.Length
            ensures chunks[i] == if i == ack.bitmapBase + bit then AckChunk(old@before(chunks[i]))
                                 else old@before(chunks[i])
          {
            assert chunks[..][i] == chunks[i];
            assert old@before(chunks[..])[i] == old@before(chunks[i]);
          }
        }
      }
    }

    method AdvanceBase(now: int)
      requires Counting()
      modifies this`base, this`stall
      ensures Counting()
      ensures base == FirstUnacked(chunks[..], old(base))
      ensures stall == AdvanceStall(old(stall), base != old(base), now)
    {
      var previous := base;
      while base < totalChunks && chunks[base].state.Acked?
        invariant previous <= base <= totalChunks && stall == old(stall)
        invariant Counting()
        invariant FirstUnacked(chunks[..], base) == FirstUnacked(chunks[..], previous)
      {
        base := base + 1;
      }
      if base != previous {
        var gap := now - stall.lastAdvance;
        stall := Stall(now, stall.events + 1, stall.total + gap, Max(stall.longest, gap));
      }
    }

    /** One step of the scan: refresh the cached count and queue the chunk if it is due. */
    method RescanAt(sequence: U32, laterAcked: U32, now: int)
      requires sequence < chunks.Length && chunks[sequence].state.InFlight?
      requires chunks[sequence].evidence <= laterAcked
      modifies this`retransmissionQueue, chunks
      ensures chunks[..] ==
        old(chunks[..])[sequence := RescanChunk(old(chunks[sequence]), laterAcked, now)]
      ensures retransmissionQueue ==
        old(retransmissionQueue) + (if IsDue(old(chunks[sequence]), laterAcked, now) then [sequence] else [])
    {
      var c := chunks[sequence];
      var hasNewLaterSack := laterAcked > c.latest;
      // The stored evidence never exceeds the count, so the subtraction cannot wrap.
      var gained: U32 := laterAcked - c.evidence;
      var hasNewEvidence := laterAcked >= c.evidence && gained >= FAST_RETRANSMIT_THRESHOLD;
      var delayElapsed := !c.fastRetransmitted || now - c.lastSent >= REPEAT_DELAY;
      chunks[sequence] := c.(latest := laterAcked);
      if hasNewLaterSack && hasNewEvidence && delayElapsed {
        QueueRetransmission(sequence, true);
      }
    }

    /** One turn of the scan, at `sequence`, with the chunks above it already scanned. */
    method ScanAt(sequence: U32, laterAcked: U32, now: int, ghost was: seq<Chunk>)
      returns (counted: U32)
      requires sequence < nextSequence <= |was| && Covered(was, nextSequence)
      requires laterAcked == AckedIn(was, sequence + 1, nextSequence)
      requires chunks[..] == Rescan(was, sequence + 1, nextSequence, now)
      modifies this`retransmissionQueue, chunks
      ensures counted == AckedIn(was, sequence, nextSequence)
      ensures chunks[..] == Rescan(was, sequence, nextSequence, now)
      ensures retransmissionQueue == old(retransmissionQueue) +
                (if IsDue(was[sequence], laterAcked, now) then [sequence] else [])
    {
      RescanStep(was, sequence, nextSequence, now);
      assert chunks[..][sequence] == chunks[sequence];
      counted := laterAcked;
      if chunks[sequence].state.Acked? {
        counted := counted + 1;
      } else if chunks[sequence].state.InFlight? {
        RescanAt(sequence, laterAcked, now);
      }
    }

    /** The downward scan that counts later ACKed chunks and queues fast retransmissions. */
    method ScanForFastRetransmissions(now: int)
      requires Sized(View()) && base <= nextSequence && Covered(chunks[..], nextSequence)
      modifies this`retransmissionQueue, chunks
      ensures View() == Scan(old(View()), now)
    {
      ghost var was := chunks[..];
      ghost var due := DueFast(was, base, nextSequence, now);
      var laterAcked: U32 := 0;
      var sequence := nextSequence;
      while sequence > base
        invariant base <= sequence <= nextSequence
        invariant laterAcked == AckedIn(was, sequence, nextSequence)
        invariant retransmissionQueue == old(retransmissionQueue) + Descending(due, sequence, nextSequence)
        invariant chunks[..] == Rescan(was, sequence, nextSequence, now)
        decreases sequence
      {
        sequence := sequence - 1;
        laterAcked := ScanAt(sequence, laterAcked, now, was);
      }
    }

    method QueueRetransmission(sequence: U32, fast: bool)
      requires sequence < chunks.Length
      modifies this`retransmissionQueue, chunks
      ensures var c := old(chunks[sequence]);
        if c.state.InFlight? && !c.pending then
          && retransmissionQueue == old(retransmissionQueue) + [sequence]
          && chunks[..] == old(chunks[..])[sequence := c.(
               pending := true, fastPending := fast,
               fastRetransmitted := fast || c.fastRetransmitted)]
        else
          retransmissionQueue == old(retransmissionQueue) && chunks[..] == old(chunks[..])
    {
      var c := chunks[sequence];
      if !c.state.InFlight? || c.pending {
        return;
      }
      chunks[sequence] := c.(pending := true, fastPending := fast,
                             fastRetransmitted := fast || c.fastRetransmitted);
      retransmissionQueue := retransmissionQueue + [sequence];
    }

    /** Any ACK payload, whatever its fields: the result is the one the specification gives. */
    method ProcessAck(ack: AckPayload, now: int)
      requires Valid()
      modifies this`base, this`outstandingChunks, this`retransmissionQueue, this`stall, chunks
      ensures Valid()
      ensures View() == Windows.ProcessAck(old(View()), ack, now)
    {
      ghost var was := View();
      ProcessAckInv(was, ack, now);
      AbsorbInv(was, ack);
      EvidenceIsCovered(Absorb(was, ack));
      AbsorbAck(ack, now);
      ScanForFastRetransmissions(now);
    }

    /** Marks everything the ACK reports, then moves the base over the acknowledged prefix. */
    method AbsorbAck(ack: AckPayload, now: int)
      requires Shape(View()) && Counting()
      modifies this`base, this`outstandingChunks, this`stall, chunks
      ensures View() == Absorb(old(View()), ack).(
        stall := AdvanceStall(old(stall), base != old(base), now))
    {
      hide Acknowledge, UnackedBelow;
      ghost var was := View();
      var prefixEnd := Min(ack.cumulativeAck, Min(totalChunks, nextSequence));
      AckPrefix(prefixEnd);
      ghost var mid := chunks[..];
      var availableBits := Min(ack.bitmapBits, 8 * |ack.bitmap|);
      var limit := Min(ack.largestReceivedPlusOne, Min(totalChunks, nextSequence));
      var bits := if ack.bitmapBase < limit then Min(availableBits, limit - ack.bitmapBase) else 0;
      AckBitmap(ack, bits);
      AcknowledgedSoFar(was, ack, prefixEnd, bits, mid, chunks[..]);
      AdvanceBase(now);
    }

    method CheckTimeouts(now: int, rto: int)
      requires Valid()
      modifies this`retransmissionQueue, chunks
      ensures Valid()
      ensures View() == Windows.CheckTimeouts(old(View()), now, rto)
    {
      ghost var was := View();
      ghost var due := DueTimeout(was, now, rto);
      CheckTimeoutsInv(was, now, rto);
      TimeOutFrom(due, now, rto);
    }

    method TimeOutFrom(ghost due: set<nat>, now: int, rto: int)
      requires Sized(View()) && base <= nextSequence && due == DueTimeout(View(), now, rto)
      modifies this`retransmissionQueue, chunks
      ensures View() == Windows.CheckTimeouts(old(View()), now, rto)
    {
      ghost var was := chunks[..];
      for sequence: int := base to nextSequence
        invariant retransmissionQueue == old(retransmissionQueue) + Ascending(due, base, sequence)
        invariant forall i: nat | i < chunks.Length ::
          chunks[i] == if i < sequence && i in due
                       then was[i].(pending := true, fastPending := false) else was[i]
      {
        label before:
        if chunks[sequence].state.InFlight? && !chunks[sequence].pending &&
           now - chunks[sequence].lastSent >= rto {
          QueueRetransmission(sequence, false);
          forall i: nat | i < chunks.Length && i != sequence
            ensures chunks[i] == old@before(chunks[i])
          {
            assert chunks[..][i] == old@before(chunks[..])[i];
          }
          assert chunks[..][sequence] == chunks[sequence];
        }
      }
      assert chunks[..] == Windows.CheckTimeouts(old(View()), now, rto).chunks;
    }

    predicate IsAllAcked()
      reads this
    {
      base == totalChunks
    }
  }

  /** The prefix loop and the bitmap loop together acknowledge exactly what the ACK reports. */
  lemma AcknowledgedSoFar(w: Window, ack: AckPayload, prefixEnd: nat, bits: nat,
                          mid: seq<Chunk>, end: seq<Chunk>)
    requires Shape(w) && |mid| == |end| == |w.chunks|
    requires prefixEnd == Min(ack.cumulativeAck, Min(w.total, w.next))
    requires var limit := Min(ack.largestReceivedPlusOne, Min(w.total, w.next));
      bits == if ack.bitmapBase < limit
              then Min(Min(ack.bitmapBits, 8 * |ack.bitmap|), limit - ack.bitmapBase) else 0
    requires forall i: nat | i < |mid| ::
      mid[i] == if w.base <= i < prefixEnd then AckChunk(w.chunks[i]) else w.chunks[i]
    requires forall i: nat | i < |end| ::
      end[i] == if ack.bitmapBase <= i < ack.bitmapBase + bits && TestBit(ack.bitmap, i - ack.bitmapBase)
                then AckChunk(mid[i]) else mid[i]
    ensures end == Acknowledge(w.chunks, w.next, ack)
  {
    var r := Acknowledge(w.chunks, w.next, ack);
    forall i: nat | i < |end| ensures end[i] == r[i] {
      assert r[i] == if i < w.next && Reports(ack, i) then AckChunk(w.chunks[i]) else w.chunks[i];
      assert i < w.base ==> AckChunk(w.chunks[i]) == w.chunks[i];
    }
  }

  /** No chunk's evidence exceeds the number of ACKed chunks above it. */
  ghost predicate Covered(chunks: seq<Chunk>, next: nat) {
    && next <= |chunks| < U32_LIMIT
    && forall i: nat | i < next :: CoveredAt(chunks, next, i)
  }

  ghost predicate CoveredAt(chunks: seq<Chunk>, next: nat, i: nat)
    requires i < next <= |chunks|
  {
    chunks[i].evidence <= AckedIn(chunks, i + 1, next)
  }

  lemma EvidenceIsCovered(w: Window)
    requires Inv(w)
    ensures Covered(w.chunks, w.next)
  {
    forall i: nat | i < w.next ensures CoveredAt(w.chunks, w.next, i) {
      assert EvidenceOk(w, i);
    }
  }

  /** How the scanned chunks and the count change when the scan moves down by one. */
  lemma RescanStep(was: seq<Chunk>, sequence: nat, next: nat, now: int)
    requires sequence < next && Covered(was, next)
    ensures var later := AckedIn(was, sequence + 1, next);
      var above := Rescan(was, sequence + 1, next, now);
      && later < U32_LIMIT - 1
      && above[sequence] == was[sequence]
      && was[sequence].evidence <= later
      && Rescan(was, sequence, next, now) ==
           above[sequence := RescanChunk(was[sequence], later, now)]
  {
    AckedInBound(was, sequence + 1, next);
    RescanIndex(was, sequence + 1, next, now, sequence);
    assert CoveredAt(was, next, sequence);
  }
}
