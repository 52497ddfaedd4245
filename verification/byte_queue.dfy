/**
 * The byte FIFO of the radio driver (CC1200_interface/CC1200_driver/easylink/
 * Queue.cpp and Queue.hpp): a fixed array of QUEUESIZE bytes filled from
 * the front, with `end` the number of bytes held. Reading takes the byte
 * at the front and moves the rest down by one.
 */
module ByteQueue {

  /** QUEUESIZE of Queue.hpp. */
  const QueueSize: nat := 128

  /** The indices the shift loop of `Queue::read` reads as written: array[i + 1] for every i < end. */
  function ReadIndicesAsWritten(end: nat): (idx: seq<nat>)
    ensures |idx| == end && forall i :: 0 <= i < end ==> idx[i] == i + 1
  {
    seq(end, i requires 0 <= i < end => i + 1)
  }

  /**
   * On a full queue the last pass of the shift loop reads array[QUEUESIZE],
   * one past the end of the array.
   */
  lemma FullReadOutOfBounds()
    ensures ReadIndicesAsWritten(QueueSize)[QueueSize - 1] == QueueSize
    ensures exists i :: 0 <= i < QueueSize && ReadIndicesAsWritten(QueueSize)[i] >= QueueSize
  {
    assert ReadIndicesAsWritten(QueueSize)[QueueSize - 1] == QueueSize;
  }

  class Queue {
    /** `array` of Queue.hpp. */
    const data: array<bv8>
    /** The number of bytes held; the next write goes to data[end]. */
    var end: nat

    ghost predicate Valid()
      reads this
    {
      data.Length == QueueSize && end <= QueueSize
    }

    /** The bytes held, oldest first. */
    function Contents(): (s: seq<bv8>)
      reads this, data
      requires Valid()
      ensures |s| == end
    {
      data[..end]
    }

    /** A new queue is empty. The array's initial bytes are never read before they are written. */
    constructor ()
      ensures Valid() && fresh(data)
      ensures Contents() == []
    {
      data := new bv8[QueueSize](_ => 0);
      end := 0;
    }

    /** `bytesAvailable`: the free room. */
    function BytesAvailable(): (n: nat)
      reads this
      requires Valid()
      ensures n + BytesEnd() == Capacity()
      ensures n == 0 <==> |Contents()| == QueueSize
    {
      QueueSize - end
    }

    /** `bytesEnd`: the number of bytes held. */
    function BytesEnd(): (n: nat)
      reads this
      requires Valid()
      ensures n == |Contents()| && n <= Capacity()
    {
      end
    }

    /** `capacity`. */
    function Capacity(): nat {
      QueueSize
    }

    /** `write`: false and no change when full, otherwise the byte goes to the back. */
    method Write(b: bv8) returns (ok: bool)
      requires Valid()
      modifies this, data
      ensures Valid()
      ensures ok <==> old(|Contents()|) < QueueSize
      ensures ok ==> Contents() == old(Contents()) + [b]
      ensures !ok ==> Contents() == old(Contents()) && end == old(end)
    {
      if BytesAvailable() < 1 {
        return false;
      }
      data[end] := b;
      end := end + 1;
      return true;
    }

    /** `clear`: the queue holds nothing. */
    method Clear()
      requires Valid()
      modifies this
      ensures Valid() && Contents() == []
    {
      end := 0;
    }

    /**
     * `read` with the shift loop stopping at end - 1, so that it never
     * reads past the array: -1 on an empty queue, otherwise the oldest byte,
     * and the queue keeps the rest in order.
     */
    method Read() returns (r: int)
      requires Valid()
      modifies this, data
      ensures Valid()
      ensures old(end) == 0 ==> r == -1 && Contents() == old(Contents())
      ensures old(end) > 0 ==> r == old(Contents())[0] as int && Contents() == old(Contents())[1..]
      ensures -1 <= r < 256
    {
      if end == 0 {
        return -1;
      }
      var next := data[0];
      ghost var before := data[..];
      var i := 0;
      while i < end - 1
        invariant end == old(end) && Valid() && |before| == QueueSize
        invariant 0 <= i <= end - 1
        invariant data[..i] == before[1..i + 1]
        invariant data[i..] == before[i..]
      {
        data[i] := data[i + 1];
        i := i + 1;
      }
      assert data[..end - 1] == before[1..end];
      end := end - 1;
      r := next as int;
    }
  }
}
