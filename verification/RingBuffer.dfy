/** The transmit ring: a circular byte array written and read in contiguous regions. */
module RingBuffer {
  import opened Common
  import Ring
  import opened WebSocketFrame

  class RingBuffer {
    const data: array<Byte>
    var readPos: nat
    var size: nat

    predicate Valid()
      reads this
    {
      readPos < data.Length && size <= data.Length
    }

    /** The unread bytes, oldest first. */
    function Queued(): seq<Byte>
      requires Valid()
      reads this, data
    {
      Ring.Contents(data[..], readPos, size)
    }

    constructor (capacity: nat)
      requires capacity > 0
      ensures Valid() && fresh(data) && data.Length == capacity
      ensures readPos == 0 && Queued() == []
    {
      data := new Byte[capacity];
      readPos, size := 0, 0;
    }

    /** Length of the readable region that starts at `readPos` and stops at the wrap point. */
    function ReadableLength(): nat
      requires Valid()
      reads this
    {
      Min(size, data.Length - readPos)
    }

    /** The readable region, byte for byte as it lies in memory, is the front of the queue. */
    lemma ReadableIsFront(n: nat)
      requires Valid() && n <= ReadableLength()
      ensures data[readPos..readPos + n] == Queued()[..n]
    {
      forall k | 0 <= k < n ensures data[readPos + k] == Queued()[k] {
        assert Queued()[k] == data[..][Ring.Wrap(readPos + k, data.Length)];
      }
    }

    /** Copies one region: as much as fits before the wrap point. */
    method WriteRegion(bytes: seq<Byte>) returns (n: nat)
      requires Valid() && |bytes| <= data.Length - size
      modifies this`size, data
      ensures Valid() && size == old(size) + n && n <= |bytes|
      ensures Queued() == old(Queued()) + bytes[..n]
      ensures bytes != [] ==> n > 0
      ensures n == |bytes| || Ring.Wrap(readPos + size, data.Length) == 0
      ensures Ring.Wrap(readPos + old(size), data.Length) == 0 ==> n == |bytes|
    {
      var writePos := Ring.Wrap(readPos + size, data.Length);
      n := Min(Min(data.Length - size, data.Length - writePos), |bytes|);
      ghost var before := data[..];
      forall i | 0 <= i < n {
        data[writePos + i] := bytes[i];
      }
      assert data[..] == before[..writePos] + bytes[..n] + before[writePos + n..];
      Ring.Append(before, data[..], readPos, size, bytes[..n]);
      size := size + n;
    }

    /** Queues all of `bytes` in at most two passes, or refuses them whole. */
    method Write(bytes: seq<Byte>) returns (ok: bool, ghost passes: nat)
      requires Valid()
      modifies this`size, data
      ensures Valid() && ok == (|bytes| <= data.Length - old(size)) && passes <= 2
      ensures Queued() == if ok then old(Queued()) + bytes else old(Queued())
    {
      passes := 0;
      if |bytes| > data.Length - size {
        return false, 0;
      }
      var offset := 0;
      while offset < |bytes|
        invariant Valid() && offset <= |bytes| && size == old(size) + offset
        invariant Queued() == old(Queued()) + bytes[..offset]
        invariant passes == 0
                  || (passes == 1 && (offset == |bytes| || Ring.Wrap(readPos + size, data.Length) == 0))
                  || (passes == 2 && offset == |bytes|)
        decreases |bytes| - offset
      {
        var n := WriteRegion(bytes[offset..]);
        assert bytes[..offset] + bytes[offset..][..n] == bytes[..offset + n];
        offset := offset + n;
        passes := passes + 1;
      }
      assert bytes[..offset] == bytes;
      ok := true;
    }

    method CommitRead(n: nat)
      requires Valid() && n <= size
      modifies this
      ensures Valid() && readPos == Ring.Wrap(old(readPos) + n, data.Length)
      ensures Queued() == old(Queued())[n..]
    {
      Ring.Drop(data[..], readPos, size, n);
      readPos := Ring.Wrap(readPos + n, data.Length);
      size := size - n;
    }

    method Reset()
      modifies this
      requires Valid()
      ensures Valid() && readPos == 0 && Queued() == []
    {
      readPos, size := 0, 0;
    }
  }
}
