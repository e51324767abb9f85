/** The receiver's tracker as the program keeps it: one flag per chunk and three counters. */
module ReceiverTrackers {
  import opened Types
  import opened Receivers

  class ReceiverTracker {
    const received: array<bool>
    var receivedCount: U32
    var cumulativeAck: U32
    var largestReceivedPlusOne: U32

    ghost function View(): Receiver
      reads this, received
    {
      Receiver(received[..], receivedCount, cumulativeAck, largestReceivedPlusOne)
    }

    ghost predicate Valid()
      reads this, received
    {
      Tracks(View())
    }

    constructor (total: U32)
      ensures Valid() && fresh(received)
      ensures View() == NewReceiver(total)
    {
      received := new bool[total](_ => false);
      receivedCount, cumulativeAck, largestReceivedPlusOne := 0, 0, 0;
      new;
      assert received[..] == seq(total, i => false);
      NewReceiverTracks(total);
    }

    method HasReceived(sequence: U32) returns (b: bool)
      requires Valid()
      ensures b == Has(View(), sequence)
    {
      b := sequence < received.Length && received[sequence];
    }

    method MarkReceived(sequence: U32) returns (isNew: bool)
      requires Valid()
      modifies this, received
      ensures Valid()
      ensures (View(), isNew) == Receivers.MarkReceived(old(View()), sequence)
    {
      MarkReceivedTracks(View(), sequence);
      if sequence >= received.Length || received[sequence] {
        return false;
      }
      CountHasRoom(View(), sequence);
      received[sequence] := true;
      receivedCount := receivedCount + 1;
      largestReceivedPlusOne := Max(largestReceivedPlusOne, sequence + 1);
      while cumulativeAck < received.Length && received[cumulativeAck]
        invariant old(cumulativeAck) <= cumulativeAck <= received.Length
        invariant received[..] == old(received[..])[sequence := true]
        invariant receivedCount == old(receivedCount) + 1
        invariant largestReceivedPlusOne == Max(old(largestReceivedPlusOne), sequence + 1)
        invariant FirstMissing(received[..], cumulativeAck) ==
                  FirstMissing(received[..], old(cumulativeAck))
      {
        cumulativeAck := cumulativeAck + 1;
      }
      return true;
    }

    method IsComplete() returns (b: bool)
      requires Valid()
      ensures b == Complete(View())
    {
      b := receivedCount == received.Length;
    }

    method MakeAckSnapshot(bits: U16) returns (ack: AckPayload)
      requires Valid()
      ensures ack == Snapshot(View(), bits)
    {
      hide SetBit, TestBit, ReceivedSet;
      ghost var r := View();
      var bitmap := Zeros((bits + 7) / 8);
      var limit := Min(largestReceivedPlusOne, received.Length);
      var scan := if cumulativeAck < limit then Min(bits, limit - cumulativeAck) else 0;
      for bit := 0 to scan
        invariant bitmap == FillBits(Zeros((bits + 7) / 8), r.received, r.cumulative, bit)
      {
        if received[cumulativeAck + bit] {
          bitmap := SetBit(bitmap, bit);
        }
      }
      ack := AckPayload(cumulativeAck, largestReceivedPlusOne, cumulativeAck, bits, bitmap);
    }
  }
}
