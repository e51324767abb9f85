/** Machine integers, protocol constants and payload records shared by both endpoints. */
module Types {

  // Subset types rather than plain integers: every assignment to a field or variable of one
  // of these types carries the obligation that the machine integer does not wrap.
  type Byte = x: int | 0 <= x < 0x100
  type U16 = x: int | 0 <= x < 0x1_0000
  type U32 = x: int | 0 <= x < 0x1_0000_0000
  type U64 = x: int | 0 <= x < 0x1_0000_0000_0000_0000

  const U32_LIMIT: int := 0x1_0000_0000

  /** What one UDP send puts on the wire. */
  type Datagram = seq<Byte>

  datatype Option<+T> = None | Some(value: T)

  const MAGIC: U32 := 0x46524654
  const VERSION: Byte := 1
  const HEADER_SIZE: nat := 24
  const IPV4_UDP_OVERHEAD: nat := 28
  const DEFAULT_WINDOW_BYTES: nat := 8 * 1024 * 1024
  const ACK_BITMAP_BITS: U16 := 8192
  const ACK_INTERVAL_MS: U16 := 10
  const FAST_RETRANSMIT_THRESHOLD: nat := 3

  // Times are integers counting nanoseconds of the monotonic clock.
  const NS_PER_MS: int := 1_000_000
  const RTO: int := 500_000_000
  const REPEAT_DELAY: int := 250_000_000

  datatype StartPayload = StartPayload(
    fileSize: U64, chunkSize: U32, totalChunks: U32, windowChunks: U32,
    ackBitmapBits: U16, ackIntervalMs: U16)

  // Status codes stay raw 16-bit values: the decoder accepts every one of them.
  const STATUS_OK: U16 := 0
  const STATUS_BUSY: U16 := 1
  const STATUS_INVALID_REQUEST: U16 := 2

  datatype StartAckPayload = StartAckPayload(
    status: U16, acceptedWindowChunks: U32, acceptedBitmapBits: U16, acceptedAckIntervalMs: U16)

  datatype AckPayload = AckPayload(
    cumulativeAck: U32, largestReceivedPlusOne: U32, bitmapBase: U32,
    bitmapBits: U16, bitmap: seq<Byte>)

  datatype CompleteAckPayload = CompleteAckPayload(
    status: U16, receivedChunks: U32, receivedBytes: U64, receiverTimeUs: U64)

  function Min(a: int, b: int): int {
    if a <= b then a else b
  }

  function Max(a: int, b: int): int {
    if a <= b then b else a
  }

  /** The value of `1U << k` for a bit position inside one byte, or one past it. */
  function BitValue(k: nat): int
    requires k <= 8
  {
    if k == 0 then 1 else if k == 1 then 2 else if k == 2 then 4 else if k == 3 then 8
    else if k == 4 then 16 else if k == 5 then 32 else if k == 6 then 64
    else if k == 7 then 128 else 256
  }

  /** Bit `k` of a byte, counted from the least significant one: `(b & (1U << k)) != 0`. */
  predicate ByteBit(b: nat, k: nat) {
    if k == 0 then b % 2 == 1 else ByteBit(b / 2, k - 1)
  }

  /** `b | (1U << k)` written with arithmetic. */
  function WithBit(b: nat, k: nat): (r: nat)
    ensures forall j: nat :: ByteBit(r, j) == (j == k || ByteBit(b, j))
  {
    if k == 0 then (if b % 2 == 1 then b else b + 1) else 2 * WithBit(b / 2, k - 1) + b % 2
  }

  lemma {:induction false} WithBitStaysByte(b: nat, k: nat, width: nat)
    requires k < width <= 8 && b < BitValue(width)
    ensures WithBit(b, k) < BitValue(width)
  {
    if k > 0 {
      WithBitStaysByte(b / 2, k - 1, width - 1);
    }
  }

  /** Bit zero is the least significant bit of the first byte. */
  predicate TestBit(bitmap: seq<Byte>, bit: nat)
    requires bit < 8 * |bitmap|
  {
    ByteBit(bitmap[bit / 8], bit % 8)
  }

  /**
   * The sequences an ACK vouches for: its cumulative prefix, and every bitmap bit that is
   * set, present in the payload and below the advertised limit.
   */
  predicate Reports(ack: AckPayload, i: nat) {
    || i < ack.cumulativeAck
    || (&& ack.bitmapBase <= i < ack.largestReceivedPlusOne
        && i - ack.bitmapBase < Min(ack.bitmapBits, 8 * |ack.bitmap|)
        && TestBit(ack.bitmap, i - ack.bitmapBase))
  }

  lemma SubsetSize<T>(a: set<T>, b: set<T>)
    requires a <= b
    ensures |a| <= |b|
  {
    assert b == a + (b - a);
  }

  ghost predicate Distinct<T(!new)>(s: seq<T>) {
    forall i, j :: 0 <= i < j < |s| ==> s[i] != s[j]
  }

  /** A duplicate-free sequence is no longer than any set holding its elements. */
  lemma {:induction false} DistinctSize<T(!new)>(s: seq<T>, bound: set<T>)
    requires Distinct(s)
    requires forall x :: x in s ==> x in bound
    ensures |s| <= |bound|
  {
    if |s| > 0 {
      var rest := s[..|s| - 1];
      var x := s[|s| - 1];
      assert x in s;
      forall y | y in rest ensures y in bound - {x} {
        assert y in s;
      }
      DistinctSize(rest, bound - {x});
    }
  }
}
