/** The client's transfer loop over the window object: drain ACKs, check timers, send one packet. */
module ClientLoops {
  import opened Types
  import opened Chunks
  import opened Codec
  import opened CodecBuffers
  import opened Windows
  import opened WindowInvariant
  import opened WindowProperties
  import opened WindowRules
  import opened SenderWindows
  import opened Sending
  import opened Turns
  import opened Clients
  import Pacing

  /** Applies an ACK packet; one without SACK flag, malformed, or of another size is ignored. */
  method ApplyAckPacket(p: Packet, window: SenderWindow, time: int)
    requires window.Valid() && p.header.kind == ACK
    modifies window, window.chunks
    ensures window.Valid()
    ensures window.View() ==
      if UsableAck(p).Some? then ProcessAck(old(window.View()), UsableAck(p).value, time)
      else old(window.View())
  {
    if !HasSackFlag(p.header.flags) {
      return;
    }
    var ack := DecodeAck(p.payload);
    if ack.None? || ack.value.bitmapBits != ACK_BITMAP_BITS {
      return;
    }
    window.ProcessAck(ack.value, time);
  }

  /** Processes everything the socket holds, in order. */
  method DrainAcks(session: U32, window: SenderWindow, arrivals: seq<Arrival>)
    requires window.Valid()
    modifies window, window.chunks
    ensures window.Valid()
    ensures window.View() == Drained(session, old(window.View()), arrivals)
    ensures ReadOnly(old(window.View()), window.View())
    ensures forall i: nat | i < window.chunks.Length ::
      window.chunks[i].state.Acked? <==>
        old(window.chunks[i]).state.Acked? ||
        (i < window.nextSequence && AnyVouches(session, arrivals, i))
  {
    hide Inv, ProcessAck, DecodePacket, Vouches, ReadOnly;
    SizedByInv(window.View());
    DrainedRule(session, window.View(), arrivals);
    ReadOnlyShape(window.View(), Drained(session, window.View(), arrivals));
    for k := 0 to |arrivals|
      invariant window.Valid()
      invariant window.View() == Drained(session, old(window.View()), arrivals[..k])
    {
      assert arrivals[..k + 1][..k] == arrivals[..k];
      var r := DeserializePacket(arrivals[k].datagram);
      if r.Accepted? && r.packet.header.session == session && r.packet.header.kind == ACK {
        ApplyAckPacket(r.packet, window, arrivals[k].time);
      }
    }
    assert arrivals[..|arrivals|] == arrivals;
  }

  /** Reads until an ACK of the session is there, or the arrivals (and so the time) run out. */
  method WaitForAck(session: U32, window: SenderWindow, arrivals: seq<Arrival>)
    requires window.Valid()
    modifies window, window.chunks
    ensures window.Valid()
    ensures window.View() == Awaited(session, old(window.View()), arrivals)
    ensures ReadOnly(old(window.View()), window.View())
    ensures forall i: nat | i < window.chunks.Length ::
      window.chunks[i].state.Acked? <==>
        old(window.chunks[i]).state.Acked? ||
        (i < window.nextSequence && FirstVouches(session, arrivals, i))
  {
    hide Inv, ProcessAck, DecodePacket, Vouches, ReadOnly;
    SizedByInv(window.View());
    AwaitedRule(session, window.View(), arrivals);
    ReadOnlyShape(window.View(), Awaited(session, window.View(), arrivals));
    for k := 0 to |arrivals|
      invariant window.Valid() && window.View() == old(window.View())
      invariant !WaitEnded(session, arrivals[..k])
      invariant window.View() == Awaited(session, old(window.View()), arrivals[..k])
    {
      assert arrivals[..k + 1][..k] == arrivals[..k];
      var r := DeserializePacket(arrivals[k].datagram);
      if r.Accepted? && r.packet.header.session == session && r.packet.header.kind == ACK {
        assert EndsWait(session, arrivals[..k + 1][k]);
        AwaitedStops(session, window.View(), arrivals, k + 1);
        ApplyAckPacket(r.packet, window, arrivals[k].time);
        return;
      }
      WaitGoesOn(session, arrivals, k);
    }
    assert arrivals[..|arrivals|] == arrivals;
  }

  /** Cuts a chunk from the input and wraps it as a DATA datagram. */
  method MakeData(c: Config, sequence: U32, retransmission: bool) returns (d: Datagram)
    requires Runnable(c) && sequence < Total(c)
    ensures d == DataDatagram(c, sequence, retransmission)
  {
    hide EncodeFields, ChunkCount;
    InputTiles(c, sequence);
    var offset := sequence * ChunkSize(c);
    var size := Min(ChunkSize(c), |c.input| - offset);
    var flags := if retransmission then FLAG_RETRANSMITTED else 0;
    var packed := SerializePacket(MakeHeader(DATA, c.session, sequence, flags),
                                  c.input[offset..offset + size]);
    d := packed.value;
  }

  /** Selects a chunk, sends it and marks it; nothing if none is ready. */
  method SendOne(c: Config, window: SenderWindow, now: int) returns (sent: seq<Datagram>)
    requires Runnable(c) && window.Valid() && window.totalChunks == Total(c)
    modifies window, window.chunks
    ensures window.Valid()
    ensures window.View() == Transmit(old(window.View()), now).0
    ensures var d := Transmit(old(window.View()), now).1;
      sent == if d.None? then [] else [DataDatagram(c, d.value.sequence, d.value.retransmission)]
  {
    SelectedCanBeMarked(window.View());
    var decision := window.SelectNextPacket();
    if decision.None? {
      return [];
    }
    var d := MakeData(c, decision.value.sequence, decision.value.retransmission);
    var ok := window.MarkSent(decision.value.sequence, now);
    return [d];
  }

  /**
   * What follows the START_ACK: its checks, then the window, then the pacer. Nothing where the
   * program throws.
   */
  method BeginTransfer(c: Config, payload: seq<Byte>, now: int)
    returns (window: SenderWindow?, pacer: Pacing.Pacer?)
    requires Runnable(c)
    ensures window != null && pacer != null <==> OnStartAck(c, payload, now).Transferring?
    ensures window != null && pacer != null ==>
      && fresh(window) && fresh(window.chunks) && window.Valid() && window.totalChunks == Total(c)
      && window.View() == OnStartAck(c, payload, now).sending.window
      && fresh(pacer) && pacer.Valid() && pacer.bytesPerNanosecond == Pacing.Rate(c.rateBps)
      && pacer.View() == Pacing.Bucket(Pacing.BURST_CAPACITY, now)
  {
    hide Inv, DecodeStartAck;
    window, pacer := null, null;
    var answer := DecodeStartAck(payload);
    if answer.None? || answer.value.status != STATUS_OK {
      return;
    }
    var a := answer.value;
    if a.acceptedWindowChunks == 0 || a.acceptedWindowChunks > a.acceptedBitmapBits ||
       a.acceptedBitmapBits != ACK_BITMAP_BITS {
      return;
    }
    window := SenderWindow.Create(Total(c), a.acceptedWindowChunks, a.acceptedBitmapBits, now);
    pacer := Pacing.Pacer.Create(c.rateBps, now);
  }

  /** One turn of the transfer loop: drain, timers, then send and drain again, or wait. */
  method TransferTurn(c: Config, window: SenderWindow, t: Turn) returns (sent: seq<Datagram>)
    requires Runnable(c) && window.Valid() && window.totalChunks == Total(c)
    modifies window, window.chunks
    ensures window.Valid()
    ensures (window.View(), sent) == Turned(c, old(window.View()), t)
    ensures var v := Drained(c.session, old(window.View()), t.before);
      && (sent == [] <==> (forall i: nat | i < v.total :: !DueNow(v, i, t.checked)) && NoRoom(v))
      && (sent != [] && (exists i: nat :: i < v.total && DueNow(v, i, t.checked)) ==>
            exists q: nat :: q < Total(c) && DueNow(v, q, t.checked) && sent == [DataDatagram(c, q, true)])
      && (sent != [] && (forall i: nat | i < v.total :: !DueNow(v, i, t.checked)) ==>
            v.next < Total(c) && sent == [DataDatagram(c, v.next, false)])
  {
    hide Inv, Transmit, ProcessAck, Windows.CheckTimeouts, Drained, Awaited, DataDatagram, DueNow,
         NoRoom, ReadOnly;
    ghost var q := TurnSends(c, window.View(), t);
    DrainedRule(c.session, window.View(), t.before);
    ReadOnlyShape(window.View(), Drained(c.session, window.View(), t.before));
    DrainAcks(c.session, window, t.before);
    window.CheckTimeouts(t.checked, RTO);
    sent := SendOne(c, window, t.sentAt);
    if sent == [] {
      WaitForAck(c.session, window, t.after);
    } else {
      DrainAcks(c.session, window, t.after);
    }
  }

  /**
   * The transfer loop over the turns the environment supplies, until everything is
   * acknowledged. Whatever arrives, the loop is a run of the sender: so every bound proved of
   * such runs is a bound of the loop, and the log is what went out.
   */
  method TransferLoop(c: Config, window: SenderWindow, turns: seq<Turn>, ghost x: Sending)
    returns (sent: seq<Datagram>, used: nat, ghost actions: seq<Action>, ghost y: Sending)
    requires Runnable(c) && window.Valid() && window.totalChunks == Total(c)
    requires x.window == window.View() && TurnsInOrder(x.clock, turns)
    modifies window, window.chunks
    ensures window.Valid() && window.View() == y.window
    ensures RunsTo(x, actions, y) && Logs(c, x, y, sent)
    ensures (window.View(), sent) == Looped(c, old(window.View()), turns)
    ensures |turns| >= window.logicalWindowChunks ==>
      forall i: nat | turns != [] && DueNow(old(window.View()), i, turns[0].checked) ::
        && i < Total(c)
        && (i in AckedSet(window.chunks[..], 0, Total(c)) || DataDatagram(c, i, true) in sent)
    ensures SendingInv(x) ==> SendingInv(y)
    ensures used <= |turns| && (used < |turns| ==> AllAcked(window.View()))
  {
    hide Inv, Turned, Sized, Carries, DueNow, DataDatagram, Looped, RunsTo, Logs, Settles,
         LeftToDo;
    SizedByInv(window.View());
    ghost var w := window.View();
    sent, used, actions, y := [], 0, [], x;
    StillHere(c, x);
    LoopStarts(c, w, turns);
    assert turns[0..] == turns;
    ghost var time := x.clock;
    while used < |turns| && !window.IsAllAcked()
      invariant used <= |turns| && window.Valid() && window.View() == y.window
      invariant Sized(x.window) && Sized(y.window) && y.window.total == Total(c)
      invariant RunsTo(x, actions, y) && y.clock <= time && Logs(c, x, y, sent)
      invariant TurnsInOrder(time, turns[used..])
      invariant LeftToDo(c, w, turns, y.window, turns[used..], sent)
      decreases |turns| - used
    {
      var t := turns[used];
      LaterStart(y.clock, time, t);
      LoopGoesOn(c, w, turns, y.window, turns[used..], sent);
      ghost var more, z := TurnRuns(c, y, t);
      var out := TransferTurn(c, window, t);
      RunsJoin(x, actions, y, more, z);
      LogsJoin(c, x, y, z, sent, out);
      sent, actions, y := sent + out, actions + more, z;
      time := EndTime(t.sentAt, t.after);
      assert turns[used..][1..] == turns[used + 1..];
      used := used + 1;
    }
    LoopEnds(c, w, turns, y.window, turns[used..], sent);
    if SendingInv(x) {
      RunInv(x, actions, y);
    }
    if |turns| >= window.logicalWindowChunks && turns != [] {
      forall i: nat | DueNow(w, i, turns[0].checked)
        ensures i < Total(c)
        ensures i in AckedSet(window.chunks[..], 0, Total(c)) || DataDatagram(c, i, true) in sent
      {
        OverdueSettles(c, w, turns, i);
        SettledOutcome(c, w, turns, i);
      }
    }
  }

  // ---------------------------------------------------------------- sampling the window

  /** Pending chunks of [lo, hi). */
  function PendingIn(chunks: seq<Chunk>, lo: nat, hi: nat): set<nat> {
    set i: nat | lo <= i < hi && i < |chunks| && chunks[i].pending
  }

  /** Unacknowledged chunks of [lo, hi). */
  function UnackedIn(chunks: seq<Chunk>, lo: nat, hi: nat): set<nat> {
    set i: nat | lo <= i < hi && i < |chunks| && !chunks[i].IsAcked()
  }

  lemma {:induction false} UnackedPlusAcked(chunks: seq<Chunk>, lo: nat, hi: nat)
    requires lo <= hi <= |chunks|
    ensures |UnackedIn(chunks, lo, hi)| + AckedIn(chunks, lo, hi) == hi - lo
    decreases hi - lo
  {
    if lo < hi {
      UnackedPlusAcked(chunks, lo + 1, hi);
      var rest := UnackedIn(chunks, lo + 1, hi);
      assert UnackedIn(chunks, lo, hi) == if chunks[lo].IsAcked() then rest else rest + {lo};
    } else {
      assert UnackedIn(chunks, lo, hi) == {};
    }
  }

  /** The outstanding counter is what the sampler counts as unacknowledged. */
  lemma OutstandingIsUnacked(w: Window)
    requires Inv(w)
    ensures w.outstanding == (w.next - w.base) - AckedIn(w.chunks, w.base, w.next)
    ensures PendingCount(w) <= w.outstanding
  {
    UnackedPlusAcked(w.chunks, w.base, w.next);
    assert UnackedIn(w.chunks, w.base, w.next) == UnackedBelow(w.chunks, w.next);
    SubsetSize(PendingIn(w.chunks, w.base, w.next), UnackedBelow(w.chunks, w.next));
  }

  const U64_LIMIT: int := 0x1_0000_0000_0000_0000

  /** Unsigned 64-bit addition, which wraps. */
  function Add64(a: U64, b: int): U64 {
    (a + b) % U64_LIMIT
  }

  /** A total over this many samples of 32-bit values, which has not wrapped. */
  predicate TotalFits(total: nat, samples: nat) {
    samples < U32_LIMIT && total <= samples * (U32_LIMIT - 1)
  }

  /** For the first 2^32 - 1 samples (over thirteen years of them) no total wraps. */
  lemma TotalStaysExact(total: U64, samples: U64, value: U32)
    requires TotalFits(total, samples) && samples + 1 < U32_LIMIT
    ensures Add64(total, value) == total + value && TotalFits(total + value, samples + 1)
    ensures Add64(samples, 1) == samples + 1
  {
    MulLess(samples, U32_LIMIT - 1, U32_LIMIT - 1);
  }

  class WindowSampleStats {
    var samples: U64
    var spanTotal: U64
    var unackedTotal: U64
    var ackedBehindHoleTotal: U64
    var pendingTotal: U64
    var maxSpan: U32
    var maxUnacked: U32
    var maxAckedBehindHole: U32
    var maxPending: U32

    /** No total has wrapped so far. */
    predicate Fits()
      reads this
    {
      && TotalFits(spanTotal, samples) && TotalFits(unackedTotal, samples)
      && TotalFits(ackedBehindHoleTotal, samples) && TotalFits(pendingTotal, samples)
    }

    constructor ()
      ensures samples == spanTotal == unackedTotal == ackedBehindHoleTotal == pendingTotal == 0
      ensures maxSpan == maxUnacked == maxAckedBehindHole == maxPending == 0
      ensures Fits()
    {
      samples, spanTotal, unackedTotal, ackedBehindHoleTotal, pendingTotal := 0, 0, 0, 0, 0;
      maxSpan, maxUnacked, maxAckedBehindHole, maxPending := 0, 0, 0, 0;
    }

    /** Walks the window; the unacknowledged count is the window's own counter. */
    method Sample(window: SenderWindow)
      requires window.Valid()
      modifies this
      ensures samples == Add64(old(samples), 1)
      ensures spanTotal == Add64(old(spanTotal), window.nextSequence - window.base)
      ensures unackedTotal == Add64(old(unackedTotal), window.outstandingChunks)
      ensures ackedBehindHoleTotal ==
        Add64(old(ackedBehindHoleTotal), window.nextSequence - window.base - window.outstandingChunks)
      ensures pendingTotal == Add64(old(pendingTotal), PendingCount(window.View()))
      ensures maxSpan == Max(old(maxSpan), window.nextSequence - window.base)
      ensures maxUnacked == Max(old(maxUnacked), window.outstandingChunks)
      ensures maxAckedBehindHole ==
        Max(old(maxAckedBehindHole), window.nextSequence - window.base - window.outstandingChunks)
      ensures maxPending == Max(old(maxPending), PendingCount(window.View()))
      ensures old(Fits()) && old(samples) + 1 < U32_LIMIT ==>
        && Fits() && samples == old(samples) + 1
        && spanTotal == old(spanTotal) + (window.nextSequence - window.base)
        && unackedTotal == old(unackedTotal) + window.outstandingChunks
        && ackedBehindHoleTotal == old(ackedBehindHoleTotal) +
             (window.nextSequence - window.base - window.outstandingChunks)
        && pendingTotal == old(pendingTotal) + PendingCount(window.View())
    {
      hide Inv, Add64, TotalFits, AckedIn, PendingCount;
      var unacked, acked, pending := CountWindow(window);
      OutstandingIsUnacked(window.View());
      SampleInRange(window.View());
      var span: U32 := window.nextSequence - window.base;
      if samples + 1 < U32_LIMIT && Fits() {
        TotalStaysExact(spanTotal, samples, span);
        TotalStaysExact(unackedTotal, samples, unacked);
        TotalStaysExact(ackedBehindHoleTotal, samples, acked);
        TotalStaysExact(pendingTotal, samples, pending);
      }
      samples := Add64(samples, 1);
      spanTotal := Add64(spanTotal, span);
      unackedTotal := Add64(unackedTotal, unacked);
      ackedBehindHoleTotal := Add64(ackedBehindHoleTotal, acked);
      pendingTotal := Add64(pendingTotal, pending);
      maxSpan := Max(maxSpan, span);
      maxUnacked := Max(maxUnacked, unacked);
      maxAckedBehindHole := Max(maxAckedBehindHole, acked);
      maxPending := Max(maxPending, pending);
    }
  }

  function PendingCount(w: Window): nat {
    |PendingIn(w.chunks, w.base, w.next)|
  }

  lemma SampleInRange(w: Window)
    requires Inv(w)
    ensures w.base <= w.next < U32_LIMIT
    ensures w.outstanding <= w.next - w.base && PendingCount(w) < U32_LIMIT
  {
    hide Counted, Queued, Evidenced, AckedIn;
    OutstandingIsUnacked(w);
  }

  lemma CountsStart(chunks: seq<Chunk>, lo: nat)
    requires lo <= |chunks|
    ensures AckedIn(chunks, lo, lo) == 0 && |PendingIn(chunks, lo, lo)| == 0
  {
    assert PendingIn(chunks, lo, lo) == {};
  }

  /** How the counts grow by one more chunk. */
  lemma CountsStep(chunks: seq<Chunk>, lo: nat, k: nat)
    requires lo <= k < |chunks|
    ensures AckedIn(chunks, lo, k + 1) == AckedIn(chunks, lo, k) + if chunks[k].IsAcked() then 1 else 0
    ensures |PendingIn(chunks, lo, k + 1)| ==
            |PendingIn(chunks, lo, k)| + if chunks[k].pending then 1 else 0
  {
    AckedInSplit(chunks, lo, k, k + 1);
    assert AckedIn(chunks, k + 1, k + 1) == 0;
    var before := PendingIn(chunks, lo, k);
    assert PendingIn(chunks, lo, k + 1) == if chunks[k].pending then before + {k} else before;
  }

  /** The sampling loop: states between base and next, counted one by one. */
  method CountWindow(window: SenderWindow) returns (unacked: U32, acked: U32, pending: U32)
    requires window.Valid()
    ensures acked == AckedIn(window.chunks[..], window.base, window.nextSequence)
    ensures unacked + acked == window.nextSequence - window.base
    ensures pending == PendingCount(window.View())
  {
    hide Counted, Queued, Evidenced, AckedIn, PendingIn;
    unacked, acked, pending := 0, 0, 0;
    ghost var chunks := window.chunks[..];
    CountsStart(chunks, window.base);
    for sequence: int := window.base to window.nextSequence
      invariant acked == AckedIn(chunks, window.base, sequence)
      invariant unacked + acked == sequence - window.base
      invariant pending == |PendingIn(chunks, window.base, sequence)| <= sequence - window.base
    {
      CountsStep(chunks, window.base, sequence);
      if window.chunks[sequence].state.Acked? {
        acked := acked + 1;
      } else {
        unacked := unacked + 1;
      }
      if window.chunks[sequence].pending {
        pending := pending + 1;
      }
    }
  }
}
