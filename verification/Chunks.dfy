/** How a file is cut into chunks, and put back together. */
module Chunks {
  import opened Types

  /** Nothing where the program throws. */
  function ChunkSizeForMtu(mtu: U32): (r: Option<U32>)
    ensures r.Some? <==> 53 <= mtu <= 65535
    ensures r.Some? ==> IPV4_UDP_OVERHEAD + HEADER_SIZE + r.value == mtu
  {
    var overhead := IPV4_UDP_OVERHEAD + HEADER_SIZE;
    if mtu <= overhead || mtu > 0xFFFF then None else Some(mtu - overhead)
  }

  function ChunkCount(fileSize: U64, chunkSize: U32): Option<U32> {
    if chunkSize == 0 then None
    else
      var count := fileSize / chunkSize + (if fileSize % chunkSize != 0 then 1 else 0);
      if count >= U32_LIMIT then None else Some(count)
  }

  function Offset(chunkSize: nat, i: nat): nat {
    i * chunkSize
  }

  /** The clamped length both endpoints compute for chunk `i`. */
  function Length(fileSize: nat, chunkSize: nat, i: nat): int {
    Min(chunkSize, fileSize - Offset(chunkSize, i))
  }

  lemma MulLess(a: nat, b: nat, c: nat)
    requires a <= b
    ensures a * c <= b * c
  {
  }

  /** The number of chunks is the rounded-up quotient, described without division. */
  lemma CountBrackets(fileSize: U64, chunkSize: U32, count: U32)
    requires ChunkCount(fileSize, chunkSize) == Some(count)
    ensures count > 0 ==> (count - 1) * chunkSize < fileSize
    ensures fileSize <= count * chunkSize
    ensures count == 0 <==> fileSize == 0
  {
    var q, m := fileSize / chunkSize, fileSize % chunkSize;
    assert fileSize == q * chunkSize + m;
    assert (q + 1) * chunkSize == q * chunkSize + chunkSize;
    assert q >= 1 ==> (q - 1) * chunkSize == q * chunkSize - chunkSize;
    assert q == 0 ==> q * chunkSize == 0;
    if q >= 1 {
      MulLess(1, q, chunkSize);
    }
  }

  /** A count exists exactly for the files that 2^32 - 1 chunks can hold. */
  lemma CountFits(fileSize: U64, chunkSize: U32)
    requires chunkSize > 0
    ensures ChunkCount(fileSize, chunkSize).Some? <==> fileSize <= (U32_LIMIT - 1) * chunkSize
  {
    var q, m := fileSize / chunkSize, fileSize % chunkSize;
    assert fileSize == q * chunkSize + m;
    if q >= U32_LIMIT - 1 {
      MulLess(U32_LIMIT - 1, q, chunkSize);
      if q >= U32_LIMIT {
        MulLess(U32_LIMIT, q, chunkSize);
      }
    } else {
      MulLess(q + 1, U32_LIMIT - 1, chunkSize);
      assert (q + 1) * chunkSize == q * chunkSize + chunkSize;
    }
  }

  /** Each range is non-empty, stays inside the file, and ends where the next one begins. */
  lemma RangesTile(fileSize: U64, chunkSize: U32, count: U32, i: nat)
    requires ChunkCount(fileSize, chunkSize) == Some(count) && i < count
    ensures 0 < Length(fileSize, chunkSize, i) <= chunkSize
    ensures Offset(chunkSize, i) + Length(fileSize, chunkSize, i) <= fileSize
    ensures Offset(chunkSize, i) + Length(fileSize, chunkSize, i) ==
            if i + 1 < count then Offset(chunkSize, i + 1) else fileSize
  {
    CountBrackets(fileSize, chunkSize, count);
    MulLess(i, count - 1, chunkSize);
    assert (i + 1) * chunkSize == i * chunkSize + chunkSize;
    if i + 1 < count {
      MulLess(i + 1, count - 1, chunkSize);
    }
  }

  predicate InRange(fileSize: nat, chunkSize: nat, i: nat, p: nat) {
    Offset(chunkSize, i) <= p < Offset(chunkSize, i) + Length(fileSize, chunkSize, i)
  }

  /** Ranges of different chunks do not meet. */
  lemma RangesDisjoint(fileSize: nat, chunkSize: nat, i: nat, j: nat, p: nat)
    requires InRange(fileSize, chunkSize, i, p) && InRange(fileSize, chunkSize, j, p)
    ensures i == j
  {
    assert (i + 1) * chunkSize == i * chunkSize + chunkSize;
    assert (j + 1) * chunkSize == j * chunkSize + chunkSize;
    if i < j {
      MulLess(i + 1, j, chunkSize);
    } else if j < i {
      MulLess(j + 1, i, chunkSize);
    }
  }

  /** Every byte of the file lies in the range of exactly one chunk. */
  lemma RangesCover(fileSize: U64, chunkSize: U32, count: U32, p: nat)
    requires ChunkCount(fileSize, chunkSize) == Some(count) && p < fileSize
    ensures p / chunkSize < count
    ensures forall i: nat :: i < count && InRange(fileSize, chunkSize, i, p) <==> i == p / chunkSize
  {
    var q := p / chunkSize;
    CountBrackets(fileSize, chunkSize, count);
    assert p == q * chunkSize + p % chunkSize;
    if q >= count {
      MulLess(count, q, chunkSize);
    }
    assert InRange(fileSize, chunkSize, q, p);
    forall i: nat | InRange(fileSize, chunkSize, i, p) ensures i == q {
      RangesDisjoint(fileSize, chunkSize, i, q, p);
    }
  }

  // ---------------------------------------------------------------- slices of a file

  /** The geometry of one transfer. */
  predicate Cut(fileSize: int, chunkSize: int, count: int) {
    && 0 <= fileSize < 0x1_0000_0000_0000_0000 && 0 <= chunkSize < U32_LIMIT
    && ChunkCount(fileSize, chunkSize) == Some(count)
  }

  /** The bytes of chunk `i`. */
  function Slice(file: seq<Byte>, chunkSize: nat, i: nat): seq<Byte>
    requires 0 <= Length(|file|, chunkSize, i)
  {
    file[Offset(chunkSize, i)..Offset(chunkSize, i) + Length(|file|, chunkSize, i)]
  }

  /** Copies bytes into the output at the offset of chunk `i`. */
  function Place(output: seq<Byte>, chunkSize: nat, i: nat, bytes: seq<Byte>): (r: seq<Byte>)
    requires Offset(chunkSize, i) + |bytes| <= |output|
    ensures |r| == |output|
  {
    output[..Offset(chunkSize, i)] + bytes + output[Offset(chunkSize, i) + |bytes|..]
  }

  /** Writing chunk `i` sets its slice and leaves every other slice alone. */
  lemma PlaceSlices(output: seq<Byte>, chunkSize: nat, count: nat, i: nat, j: nat, bytes: seq<Byte>)
    requires Cut(|output|, chunkSize, count) && i < count && j < count
    requires |bytes| == Length(|output|, chunkSize, i)
    ensures Offset(chunkSize, i) + |bytes| <= |output|
    ensures 0 < Length(|output|, chunkSize, i) && 0 < Length(|output|, chunkSize, j)
    ensures Slice(Place(output, chunkSize, i, bytes), chunkSize, j) ==
            if j == i then bytes else Slice(output, chunkSize, j)
  {
    RangesTile(|output|, chunkSize, count, i);
    RangesTile(|output|, chunkSize, count, j);
    var placed := Place(output, chunkSize, i, bytes);
    if j != i {
      forall p: nat | InRange(|output|, chunkSize, j, p) ensures placed[p] == output[p] {
        if InRange(|output|, chunkSize, i, p) {
          RangesDisjoint(|output|, chunkSize, i, j, p);
        }
      }
    }
  }

  ghost predicate SliceMatches(output: seq<Byte>, input: seq<Byte>, chunkSize: nat, i: nat) {
    && |output| == |input| && 0 <= Length(|input|, chunkSize, i)
    && Slice(output, chunkSize, i) == Slice(input, chunkSize, i)
  }

  /** Files that agree on every slice are equal. */
  lemma SlicesDecide(output: seq<Byte>, input: seq<Byte>, chunkSize: nat, count: nat)
    requires Cut(|input|, chunkSize, count) && |output| == |input|
    requires forall i: nat | i < count :: SliceMatches(output, input, chunkSize, i)
    ensures output == input
  {
    forall p: nat | p < |input| ensures output[p] == input[p] {
      RangesCover(|input|, chunkSize, count, p);
      var i := p / chunkSize;
      assert InRange(|input|, chunkSize, i, p);
      assert SliceMatches(output, input, chunkSize, i);
      var o := Offset(chunkSize, i);
      assert Slice(output, chunkSize, i)[p - o] == output[p];
      assert Slice(input, chunkSize, i)[p - o] == input[p];
    }
  }

  /** Writes the named chunks of `input` into `output`, one after the other. */
  function WriteAll(output: seq<Byte>, input: seq<Byte>, chunkSize: nat, count: nat, order: seq<nat>):
    (r: seq<Byte>)
    requires Cut(|input|, chunkSize, count) && |output| == |input|
    requires forall k: nat | k < |order| :: order[k] < count
    ensures |r| == |input|
  {
    if order == [] then output
    else
      var n := |order| - 1;
      RangesTile(|input|, chunkSize, count, order[n]);
      Place(WriteAll(output, input, chunkSize, count, order[..n]), chunkSize, order[n],
            Slice(input, chunkSize, order[n]))
  }

  lemma {:induction false} WriteAllSlice(
      output: seq<Byte>, input: seq<Byte>, chunkSize: nat, count: nat, order: seq<nat>, i: nat)
    requires Cut(|input|, chunkSize, count) && |output| == |input|
    requires forall k: nat | k < |order| :: order[k] < count
    requires i in order
    ensures SliceMatches(WriteAll(output, input, chunkSize, count, order), input, chunkSize, i)
  {
    hide ChunkCount;
    var n := |order| - 1;
    var before := WriteAll(output, input, chunkSize, count, order[..n]);
    RangesTile(|input|, chunkSize, count, order[n]);
    RangesTile(|input|, chunkSize, count, i);
    PlaceSlices(before, chunkSize, count, order[n], i, Slice(input, chunkSize, order[n]));
    if i != order[n] {
      assert i in order[..n];
      WriteAllSlice(output, input, chunkSize, count, order[..n], i);
    }
  }

  /** Writing every chunk at least once, in any order, over anything, rebuilds the file. */
  lemma RebuiltInAnyOrder(
      output: seq<Byte>, input: seq<Byte>, chunkSize: nat, count: nat, order: seq<nat>)
    requires Cut(|input|, chunkSize, count) && |output| == |input|
    requires forall k: nat | k < |order| :: order[k] < count
    requires forall i: nat | i < count :: i in order
    ensures WriteAll(output, input, chunkSize, count, order) == input
  {
    var r := WriteAll(output, input, chunkSize, count, order);
    forall i: nat | i < count ensures SliceMatches(r, input, chunkSize, i) {
      WriteAllSlice(output, input, chunkSize, count, order, i);
    }
    SlicesDecide(r, input, chunkSize, count);
  }
}
