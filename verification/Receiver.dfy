/** The receiver's tracker as a value, and what its SACK snapshots say. */
module Receivers {
  import opened Types

  datatype Receiver = Receiver(received: seq<bool>, count: nat, cumulative: nat, largest: nat)

  function NewReceiver(total: nat): Receiver {
    Receiver(seq(total, i => false), 0, 0, 0)
  }

  predicate Has(r: Receiver, i: nat) {
    i < |r.received| && r.received[i]
  }

  function ReceivedSet(received: seq<bool>): set<nat> {
    set i: nat | i < |received| && received[i]
  }

  function FirstMissing(received: seq<bool>, from: nat): (r: nat)
    requires from <= |received|
    ensures from <= r <= |received|
    ensures forall i: nat | from <= i < r :: received[i]
    ensures r < |received| ==> !received[r]
    decreases |received| - from
  {
    if from < |received| && received[from] then FirstMissing(received, from + 1) else from
  }

  function MarkReceived(r: Receiver, i: nat): (Receiver, bool)
    requires r.cumulative <= |r.received|
  {
    if i >= |r.received| || r.received[i] then (r, false)
    else
      var received := r.received[i := true];
      (Receiver(received, r.count + 1, FirstMissing(received, r.cumulative), Max(r.largest, i + 1)),
       true)
  }

  predicate Complete(r: Receiver) {
    r.count == |r.received|
  }

  ghost predicate Tracks(r: Receiver) {
    && |r.received| < U32_LIMIT
    && r.count == |ReceivedSet(r.received)|
    && r.cumulative <= |r.received|
    && (forall i: nat | i < r.cumulative :: r.received[i])
    && (r.cumulative < |r.received| ==> !r.received[r.cumulative])
    && r.largest <= |r.received|
    && (forall i: nat | i < |r.received| && r.received[i] :: i < r.largest)
    && (r.largest > 0 ==> r.received[r.largest - 1])
  }

  lemma NewReceiverTracks(total: nat)
    requires total < U32_LIMIT
    ensures Tracks(NewReceiver(total))
  {
    assert ReceivedSet(NewReceiver(total).received) == {};
  }

  /** A chunk is new exactly once, and marking it adds that chunk and nothing else. */
  lemma MarkReceivedTracks(r: Receiver, i: nat)
    requires Tracks(r)
    ensures var (v, isNew) := MarkReceived(r, i);
      && Tracks(v)
      && |v.received| == |r.received|
      && (isNew <==> i < |r.received| && !Has(r, i))
      && (forall j: nat :: Has(v, j) <==> Has(r, j) || (j == i && i < |r.received|))
      && r.cumulative <= v.cumulative
  {
    hide FirstMissing;
    if i < |r.received| && !r.received[i] {
      assert ReceivedSet(r.received[i := true]) == ReceivedSet(r.received) + {i};
    }
  }

  /** The sequences below `n`. */
  function UpTo(n: nat): (r: set<nat>)
    ensures |r| == n
    ensures forall i: nat :: i in r <==> i < n
  {
    if n == 0 then {} else UpTo(n - 1) + {n - 1}
  }

  /** The counter, the prefix pointer and the received set agree on completion. */
  lemma CompleteMeansAll(r: Receiver)
    requires Tracks(r)
    ensures Complete(r) <==> r.cumulative == |r.received|
    ensures Complete(r) <==> forall i: nat | i < |r.received| :: Has(r, i)
  {
    var all := UpTo(|r.received|);
    var have := ReceivedSet(r.received);
    assert have <= all;
    if r.cumulative < |r.received| {
      assert have <= all - {r.cumulative};
      SubsetSize(have, all - {r.cumulative});
      assert !Has(r, r.cumulative);
    } else {
      assert have == all;
    }
  }

  // ---------------------------------------------------------------- snapshots

  function SetBit(bitmap: seq<Byte>, bit: nat): (r: seq<Byte>)
    requires bit < 8 * |bitmap|
    ensures |r| == |bitmap|
    ensures forall k: nat | k < 8 * |bitmap| :: TestBit(r, k) == (k == bit || TestBit(bitmap, k))
  {
    WithBitStaysByte(bitmap[bit / 8], bit % 8, 8);
    bitmap[bit / 8 := WithBit(bitmap[bit / 8], bit % 8)]
  }

  /** The first `n` bits of the bitmap, set where the chunk at `base + bit` was received. */
  function FillBits(empty: seq<Byte>, received: seq<bool>, base: nat, n: nat): (r: seq<Byte>)
    requires n <= 8 * |empty| && (n > 0 ==> base + n <= |received|)
    ensures |r| == |empty|
  {
    if n == 0 then empty
    else
      var prefix := FillBits(empty, received, base, n - 1);
      if received[base + n - 1] then SetBit(prefix, n - 1) else prefix
  }

  function BitsToScan(r: Receiver, bits: U16): nat {
    var limit := Min(r.largest, |r.received|);
    if r.cumulative < limit then Min(bits, limit - r.cumulative) else 0
  }

  function Zeros(n: nat): (r: seq<Byte>)
    ensures |r| == n && forall k: nat | k < n :: r[k] == 0
  {
    seq(n, i => 0)
  }

  function Snapshot(r: Receiver, bits: U16): AckPayload
    requires r.cumulative < U32_LIMIT && r.largest < U32_LIMIT
  {
    AckPayload(r.cumulative, r.largest, r.cumulative, bits,
               FillBits(Zeros((bits + 7) / 8), r.received, r.cumulative, BitsToScan(r, bits)))
  }

  lemma {:induction false} ZeroBits(k: nat)
    ensures !ByteBit(0, k)
  {
    if k > 0 {
      ZeroBits(k - 1);
    }
  }

  lemma {:induction false} FilledBits(bytes: nat, received: seq<bool>, base: nat, n: nat, k: nat)
    requires n <= 8 * bytes && (n > 0 ==> base + n <= |received|) && k < 8 * bytes
    ensures TestBit(FillBits(Zeros(bytes), received, base, n), k) <==> k < n && received[base + k]
  {
    if n == 0 {
      ZeroBits(k % 8);
    } else {
      FilledBits(bytes, received, base, n - 1, k);
    }
  }

  /** A snapshot reports the received chunks below its coverage, and nothing else. */
  lemma SnapshotReports(r: Receiver, bits: U16, i: nat)
    requires Tracks(r)
    ensures Reports(Snapshot(r, bits), i) <==> Has(r, i) && i < r.cumulative + bits
  {
    var ack := Snapshot(r, bits);
    if r.cumulative <= i < r.largest && i - r.cumulative < Min(bits, 8 * |ack.bitmap|) {
      FilledBits((bits + 7) / 8, r.received, r.cumulative, BitsToScan(r, bits), i - r.cumulative);
    }
  }

  /** The finite bitmap loses nothing exactly when no received chunk lies past its coverage. */
  lemma SnapshotExact(r: Receiver, bits: U16)
    requires Tracks(r)
    ensures (forall i: nat :: Reports(Snapshot(r, bits), i) <==> Has(r, i)) <==>
            r.largest <= r.cumulative + bits
  {
    forall i: nat
      ensures Reports(Snapshot(r, bits), i) <==> Has(r, i) && i < r.cumulative + bits
    {
      SnapshotReports(r, bits, i);
    }
    if r.largest > r.cumulative + bits {
      assert Has(r, r.largest - 1) && !Reports(Snapshot(r, bits), r.largest - 1);
    }
  }

  /**
   * The fields of a snapshot: the first missing chunk, one past the last received one, the same
   * first missing chunk again as bitmap base, and one bit per announced bit, set exactly for the
   * received chunks from there on.
   */
  lemma SnapshotFields(r: Receiver, bits: U16)
    requires Tracks(r)
    ensures var ack := Snapshot(r, bits);
      && (forall i: nat | i < ack.cumulativeAck :: Has(r, i)) && !Has(r, ack.cumulativeAck)
      && (forall i: nat | Has(r, i) :: i < ack.largestReceivedPlusOne)
      && (ack.largestReceivedPlusOne > 0 ==> Has(r, ack.largestReceivedPlusOne - 1))
      && ack.bitmapBase == ack.cumulativeAck && ack.bitmapBits == bits
      && |ack.bitmap| == (bits + 7) / 8
      && forall k: nat | k < 8 * |ack.bitmap| ::
           TestBit(ack.bitmap, k) <==> k < bits && Has(r, ack.bitmapBase + k)
  {
    var ack := Snapshot(r, bits);
    forall k: nat | k < 8 * |ack.bitmap|
      ensures TestBit(ack.bitmap, k) <==> k < bits && Has(r, ack.bitmapBase + k)
    {
      FilledBits((bits + 7) / 8, r.received, r.cumulative, BitsToScan(r, bits), k);
    }
  }

  /** A missing chunk leaves room in the 32-bit counter. */
  lemma CountHasRoom(r: Receiver, i: nat)
    requires Tracks(r) && i < |r.received| && !r.received[i]
    ensures r.count < |r.received|
  {
    SubsetSize(ReceivedSet(r.received), UpTo(|r.received|) - {i});
  }
}
