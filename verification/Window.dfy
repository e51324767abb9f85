/**
 * The sender's sliding window as a value: chunk states, base, outstanding count and the
 * retransmission queue, with one function per operation. The functions say what each
 * operation computes (over whole chunk sequences); the loops that compute it are in
 * SenderWindow.dfy.
 */
module Windows {
  import opened Types

  datatype PacketState = Unsent | InFlight | Acked

  datatype Chunk = Chunk(
    state: PacketState, lastSent: int, pending: bool, fastPending: bool,
    fastRetransmitted: bool, latest: nat, evidence: nat)
  {
    predicate IsAcked() { state.Acked? }
  }

  const FRESH_CHUNK: Chunk := Chunk(Unsent, 0, false, false, false, 0, 0)

  datatype Stall = Stall(lastAdvance: int, events: nat, total: int, longest: int)

  datatype Window = Window(
    total: nat, logical: nat, coverage: nat, base: nat, next: nat, outstanding: nat,
    chunks: seq<Chunk>, queue: seq<nat>, stall: Stall)

  datatype Decision = Decision(sequence: nat, retransmission: bool, fast: bool)

  // ---------------------------------------------------------------- facts about chunks

  /** Sequences below `next` that are not yet acknowledged. */
  function UnackedBelow(chunks: seq<Chunk>, next: nat): set<nat> {
    set i: nat | i < next && i < |chunks| && !chunks[i].IsAcked()
  }

  /** How many chunks of [lo, hi) are acknowledged. */
  function AckedIn(chunks: seq<Chunk>, lo: nat, hi: nat): nat
    requires hi <= |chunks|
    decreases hi - lo
  {
    if lo >= hi then 0
    else (if chunks[lo].IsAcked() then 1 else 0) + AckedIn(chunks, lo + 1, hi)
  }

  /** The first unacknowledged sequence at or above `from`. */
  function FirstUnacked(chunks: seq<Chunk>, from: nat): (r: nat)
    requires from <= |chunks|
    ensures from <= r <= |chunks|
    ensures forall i: nat | from <= i < r :: chunks[i].IsAcked()
    ensures r < |chunks| ==> !chunks[r].IsAcked()
    decreases |chunks| - from
  {
    if from < |chunks| && chunks[from].IsAcked() then FirstUnacked(chunks, from + 1) else from
  }

  /** The members of `s` in [lo, hi), largest first: the order of a downward scan. */
  function Descending(s: set<nat>, lo: nat, hi: nat): seq<nat>
    decreases hi - lo
  {
    if lo >= hi then [] else Descending(s, lo + 1, hi) + (if lo in s then [lo] else [])
  }

  /** The members of `s` in [lo, hi), smallest first: the order of an upward scan. */
  function Ascending(s: set<nat>, lo: nat, hi: nat): seq<nat>
    decreases hi - lo
  {
    if lo >= hi then [] else Ascending(s, lo, hi - 1) + (if hi - 1 in s then [hi - 1] else [])
  }

  // ---------------------------------------------------------------- operations

  predicate ValidLimits(logical: nat, coverage: nat) {
    0 < logical <= coverage
  }

  function NewWindow(total: nat, logical: nat, coverage: nat, now: int): Window {
    Window(total, logical, coverage, 0, 0, 0,
           seq(total, i => FRESH_CHUNK), [], Stall(now, 0, 0, 0))
  }

  predicate CanSendNew(w: Window) {
    w.next < w.total && w.outstanding < w.logical && w.next < w.base + w.coverage
  }

  /** A queue entry that is still worth sending. */
  predicate Live(w: Window, sequence: nat) {
    && sequence < |w.chunks|
    && w.chunks[sequence].state.InFlight?
    && w.chunks[sequence].pending
  }

  /** The indices an operation relies on stay inside the chunk vector. */
  predicate Sized(w: Window) {
    |w.chunks| == w.total && w.base <= w.total && w.next <= w.total
  }

  /** What taking a pending chunk off the queue does to its record. */
  function TakeChunk(c: Chunk): Chunk {
    c.(pending := false, fastPending := false, fastRetransmitted := true, evidence := c.latest)
  }

  /** Pops dead entries, then returns the first live one, or issues a new chunk, or nothing. */
  function Select(w: Window): (r: (Window, Option<Decision>))
    ensures Sized(w) ==> Sized(r.0) && r.0.total == w.total
    decreases |w.queue|
  {
    if w.queue != [] then
      var q := w.queue[0];
      var popped := w.(queue := w.queue[1..]);
      if Live(w, q) then
        (popped.(chunks := w.chunks[q := TakeChunk(w.chunks[q])]),
         Some(Decision(q, true, w.chunks[q].fastPending)))
      else
        Select(popped)
    else if CanSendNew(w) then
      (w.(next := w.next + 1, outstanding := w.outstanding + 1),
       Some(Decision(w.next, false, false)))
    else
      (w, None)
  }

  /** `mark_sent` throws outside this condition. */
  predicate CanMarkSent(w: Window, sequence: nat) {
    sequence < w.next && sequence < |w.chunks| && !w.chunks[sequence].IsAcked()
  }

  function MarkSent(w: Window, sequence: nat, time: int): Window
    requires CanMarkSent(w, sequence)
  {
    w.(chunks := w.chunks[sequence :=
      w.chunks[sequence].(state := InFlight, lastSent := time)])
  }

  function AckChunk(c: Chunk): Chunk {
    if c.IsAcked() then c else c.(state := Acked, pending := false, fastPending := false)
  }

  /** Every issued chunk that the ACK reports becomes acknowledged; nothing else changes. */
  function Acknowledge(chunks: seq<Chunk>, next: nat, ack: AckPayload): (r: seq<Chunk>)
    ensures |r| == |chunks|
  {
    seq(|chunks|, i requires 0 <= i < |chunks| =>
      if i < next && Reports(ack, i) then AckChunk(chunks[i]) else chunks[i])
  }

  /** Whether the scan after an ACK queues this chunk, given the count of later ACKed chunks. */
  predicate IsDue(c: Chunk, later: nat, now: int) {
    && c.state.InFlight?
    && !c.pending
    && later > c.latest
    && later >= c.evidence + FAST_RETRANSMIT_THRESHOLD
    && (!c.fastRetransmitted || now - c.lastSent >= REPEAT_DELAY)
  }

  function RescanChunk(c: Chunk, later: nat, now: int): Chunk {
    if !c.state.InFlight? then c
    else if IsDue(c, later, now) then
      c.(latest := later, pending := true, fastPending := true, fastRetransmitted := true)
    else c.(latest := later)
  }

  /** The scan after an ACK, from the top of the window down to `base`. */
  function Rescan(chunks: seq<Chunk>, base: nat, next: nat, now: int): (r: seq<Chunk>)
    requires next <= |chunks|
    ensures |r| == |chunks|
    ensures forall i: nat | i < |chunks| :: r[i].state == chunks[i].state
    decreases next - base
  {
    if base >= next then chunks
    else Rescan(chunks, base + 1, next, now)[base :=
      RescanChunk(chunks[base], AckedIn(chunks, base + 1, next), now)]
  }

  predicate DueAt(chunks: seq<Chunk>, next: nat, now: int, i: nat)
    requires i < next <= |chunks|
  {
    IsDue(chunks[i], AckedIn(chunks, i + 1, next), now)
  }

  function DueFast(chunks: seq<Chunk>, base: nat, next: nat, now: int): set<nat>
    requires next <= |chunks|
  {
    set i: nat | base <= i < next && DueAt(chunks, next, now, i)
  }

  function AdvanceStall(stall: Stall, moved: bool, now: int): Stall {
    if !moved then stall
    else
      var gap := now - stall.lastAdvance;
      Stall(now, stall.events + 1, stall.total + gap, Max(stall.longest, gap))
  }

  function ProcessAck(w: Window, ack: AckPayload, now: int): (r: Window)
    requires Sized(w)
    ensures Sized(r)
  {
    var acked := Acknowledge(w.chunks, w.next, ack);
    var base := FirstUnacked(acked, w.base);
    w.(chunks := Rescan(acked, base, w.next, now),
       base := base,
       outstanding := |UnackedBelow(acked, w.next)|,
       queue := w.queue + Descending(DueFast(acked, base, w.next, now), base, w.next),
       stall := AdvanceStall(w.stall, base != w.base, now))
  }

  predicate Expired(c: Chunk, now: int, rto: int) {
    c.state.InFlight? && !c.pending && now - c.lastSent >= rto
  }

  function DueTimeout(w: Window, now: int, rto: int): set<nat> {
    set i: nat | w.base <= i < w.next && i < |w.chunks| && Expired(w.chunks[i], now, rto)
  }

  function CheckTimeouts(w: Window, now: int, rto: int): (r: Window)
    ensures Sized(w) ==> Sized(r)
  {
    var due := DueTimeout(w, now, rto);
    w.(chunks := seq(|w.chunks|, i requires 0 <= i < |w.chunks| =>
         if i in due then w.chunks[i].(pending := true, fastPending := false) else w.chunks[i]),
       queue := w.queue + Ascending(due, w.base, w.next))
  }

  predicate AllAcked(w: Window) {
    w.base == w.total
  }

  // ---------------------------------------------------------------- the invariant

  ghost predicate Shape(w: Window) {
    && |w.chunks| == w.total < U32_LIMIT
    && ValidLimits(w.logical, w.coverage)
    && w.base <= w.next <= w.total
    && w.next <= w.base + w.coverage
    && w.stall.events <= w.base
    && (forall i: nat | i < w.base :: w.chunks[i].IsAcked())
    && (forall i: nat | w.next <= i < w.total :: w.chunks[i] == FRESH_CHUNK)
    && (w.base < w.total ==> !w.chunks[w.base].IsAcked())
  }

  /** Window slots in use: unacknowledged chunks, and queue entries even when stale. */
  function Occupied(w: Window): set<nat> {
    UnackedBelow(w.chunks, w.next) + (set q | q in w.queue)
  }

  ghost predicate Counted(w: Window) {
    && w.outstanding == |UnackedBelow(w.chunks, w.next)|
    && |Occupied(w)| <= w.logical
  }

  /** The queue holds each sequence once, every pending chunk, and otherwise only ACKed ones. */
  ghost predicate Queued(w: Window) {
    && |w.chunks| == w.total
    && Distinct(w.queue)
    && (forall q: nat | q in w.queue ::
          q < w.next <= w.total && (w.chunks[q].IsAcked() || w.chunks[q].pending))
    && (forall i: nat | i < w.total && w.chunks[i].pending ::
          i in w.queue && w.chunks[i].state.InFlight?)
  }

  ghost predicate EvidenceOk(w: Window, i: nat)
    requires i < w.next <= |w.chunks|
  {
    var c := w.chunks[i];
    && c.evidence <= c.latest <= AckedIn(w.chunks, i + 1, w.next)
    && c.latest < w.coverage
    && (c.fastPending ==>
          && c.pending && c.fastRetransmitted
          && c.latest >= c.evidence + FAST_RETRANSMIT_THRESHOLD)
  }

  ghost predicate Evidenced(w: Window) {
    && w.next <= |w.chunks|
    && forall i: nat | i < w.next :: EvidenceOk(w, i)
  }

  ghost predicate Inv(w: Window) {
    Shape(w) && Counted(w) && Queued(w) && Evidenced(w)
  }

  ghost predicate CountRight(w: Window, i: nat)
    requires i < w.next <= |w.chunks|
  {
    w.chunks[i].state.InFlight? ==> w.chunks[i].latest == AckedIn(w.chunks, i + 1, w.next)
  }

  /** Everything issued was sent. */
  predicate AllSent(w: Window) {
    && w.next <= |w.chunks|
    && forall i: nat | w.base <= i < w.next :: !w.chunks[i].state.Unsent?
  }

  /**
   * What also holds whenever the client is between two of its steps: everything issued was
   * sent, and the cached counts of later ACKed chunks are the true ones.
   */
  ghost predicate Settled(w: Window) {
    && AllSent(w)
    && (forall i: nat | w.base <= i < w.next :: CountRight(w, i))
  }
}
