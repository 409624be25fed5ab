/** The byte ring buffer of `RingBuffer.cpp`, in place over one array. */
module RingBuffers {
  import opened RingSpec

  const INT_MAX: int := 0x7FFF_FFFF

  /** `(index + size) % bufferSize` with a 64-bit unsigned index and a signed 32-bit size. */
  function MovedIndex(n: nat, index: nat, size: int): (i: nat)
    requires 0 < n
    ensures i < n
  {
    ((index + size) % SIZE_T) % n
  }

  /** A move below cell 0 goes round the 64-bit index before it goes round the ring. */
  lemma MovedBelowZero(n: nat, index: nat, size: int)
    requires index < n <= INT_MAX && -0x8000_0000 <= size && index + size < 0
    ensures MovedIndex(n, index, size) == (0x1_0000_0000_0000_0000 + index + size) % n
  {
  }

  lemma MovedIndexForward(n: nat, index: nat, size: nat)
    requires index < n <= INT_MAX && size <= n
    ensures MovedIndex(n, index, size) == At(n, index, size)
  {
    AtIsModulo(n, index, size);
  }

  class RingBuffer {
    var bufferSize: nat
    var inBuffer: array<Byte>
    var head: nat
    var tail: nat

    ghost predicate Sound()
      reads this, inBuffer
    {
      inBuffer.Length == bufferSize <= INT_MAX && head < bufferSize && tail < bufferSize
    }

    ghost function Snapshot(): (r: Ring)
      reads this, inBuffer
      requires Sound()
      ensures Valid(r) && |r.buf| == bufferSize
    {
      Ring(inBuffer[..], head, tail)
    }

    constructor (size: int)
      requires 0 < size <= 0x7FFF_FFFF
      ensures Sound() && bufferSize == size && fresh(inBuffer)
      ensures Snapshot() == Ring(inBuffer[..], 0, 0)
      ensures Contents(Snapshot()) == [] && DirectFree(Snapshot()) == Free(Snapshot()) == size - 1
    {
      bufferSize := size;
      inBuffer := new Byte[size];
      head, tail := 0, 0;
    }

    method GetBufferSize() returns (n: int)
      requires Sound()
      ensures n == |Snapshot().buf|
    {
      n := bufferSize;
    }

    method GetUseSize() returns (n: int)
      requires Sound()
      ensures n == |Contents(Snapshot())|
    {
      var heads, tails := head, tail;
      if tails >= heads {
        n := tails - heads;
      } else {
        n := bufferSize - (heads - tails);
      }
    }

    /** The two sizes always add up to one less than the allocation. */
    method GetFreeSize() returns (n: int)
      requires Sound()
      ensures n == bufferSize - 1 - |Contents(Snapshot())|
    {
      var heads, tails := head, tail;
      ModuloOnce(heads + bufferSize - tails - 1, bufferSize);
      n := (heads + bufferSize - tails - 1) % bufferSize;
    }

    /** Appends as many of the first `size` bytes as fit, and says how many. */
    method Enqueue(data: array<Byte>, size: int) returns (n: nat)
      requires Sound() && data != inBuffer
      requires Transfer(size, Free(Snapshot())) <= data.Length
      modifies this`tail, inBuffer
      ensures Sound()
      ensures n == Transfer(size, old(Free(Snapshot()))) && n <= data.Length
      ensures Snapshot() == Store(old(Snapshot()), data[..n])
      ensures Contents(Snapshot()) == old(Contents(Snapshot())) + data[..n]
    {
      ghost var was := Snapshot();
      ModuloOnce(tail + 1, bufferSize);
      if head == (tail + 1) % bufferSize {
        StoreNothing(was, data[..0]);
        return 0;
      }
      var enableSize := GetFreeSize();
      var index := 0;
      var targetSize;
      var temp := tail;
      if enableSize < size {
        targetSize := enableSize;
      } else {
        targetSize := size;
      }
      while index < targetSize
        invariant 0 <= index && index <= Transfer(size, Free(was))
        invariant tail == was.tail && temp == At(bufferSize, tail, index)
        invariant forall j :: 0 <= j < bufferSize ==>
          inBuffer[j] == if Behind(was, j) < index then data[Behind(was, j)] else was.buf[j]
      {
        assert Behind(was, temp) == index;
        assert forall j :: 0 <= j < bufferSize && j != temp ==> Behind(was, j) != index;
        inBuffer[temp] := data[index];
        temp, index := temp + 1, index + 1;
        if temp == bufferSize {
          temp := 0;
        }
      }
      tail := temp;
      assert inBuffer[..] == Store(was, data[..index]).buf;
      StoreAppends(was, data[..index]);
      return index;
    }

    /** Removes the oldest bytes, at most `size`, into `dest`, and says how many. */
    method Dequeue(dest: array<Byte>, size: int) returns (n: nat)
      requires Sound() && dest != inBuffer
      requires Transfer(size, Use(Snapshot())) <= dest.Length
      modifies this`head, dest
      ensures Sound()
      ensures n == Transfer(size, old(Use(Snapshot()))) && n <= dest.Length
      ensures Snapshot() == Drop(old(Snapshot()), n)
      ensures dest[..n] == old(Contents(Snapshot()))[..n] && Contents(Snapshot()) == old(Contents(Snapshot()))[n..]
      ensures dest[n..] == old(dest[..])[n..]
    {
      ghost var was, unread, before := Snapshot(), Contents(Snapshot()), dest[..];
      if head == tail {
        return 0;
      }
      var index := 0;
      var targetSize;
      var temp := head;
      var useSize := GetUseSize();
      if size < useSize {
        targetSize := size;
      } else {
        targetSize := GetUseSize();
      }
      while index < targetSize
        invariant 0 <= index && index <= Transfer(size, |unread|)
        invariant head == was.head && temp == At(bufferSize, head, index)
        invariant index <= dest.Length && dest[..index] == unread[..index]
        invariant forall k :: index <= k < dest.Length ==> dest[k] == before[k]
      {
        assert inBuffer[temp] == unread[index];
        dest[index] := inBuffer[temp];
        temp, index := temp + 1, index + 1;
        if temp == bufferSize {
          temp := 0;
        }
      }
      assert dest[index..] == before[index..];
      head := temp;
      DropRemoves(was, index);
      return index;
    }

    /** Copies the oldest bytes like Dequeue, and leaves the ring as it was. */
    method Peek(dest: array<Byte>, size: int) returns (n: nat)
      requires Sound() && dest != inBuffer
      requires Transfer(size, Use(Snapshot())) <= dest.Length
      modifies dest
      ensures Sound() && Snapshot() == old(Snapshot())
      ensures n == Transfer(size, Use(Snapshot())) && n <= dest.Length
      ensures dest[..n] == Contents(Snapshot())[..n]
      ensures dest[n..] == old(dest[..])[n..]
    {
      ghost var unread, before := Contents(Snapshot()), dest[..];
      if head == tail {
        return 0;
      }
      var index := 0;
      var peekIndex := head;
      var targetSize;
      var useSize := GetUseSize();
      if size < useSize {
        targetSize := size;
      } else {
        targetSize := GetUseSize();
      }
      while index < targetSize
        invariant 0 <= index && index <= Transfer(size, |unread|)
        invariant peekIndex == At(bufferSize, head, index)
        invariant forall k :: 0 <= k < index ==> dest[k] == unread[k]
        invariant forall k :: index <= k < dest.Length ==> dest[k] == before[k]
      {
        assert inBuffer[peekIndex] == unread[index];
        dest[index] := inBuffer[peekIndex];
        peekIndex, index := peekIndex + 1, index + 1;
        if peekIndex == bufferSize {
          peekIndex := 0;
        }
      }
      assert dest[..index] == unread[..index] && dest[index..] == before[index..];
      return index;
    }

    /** Throws the unread bytes away: the whole ring is free again, from cell 0 on. */
    method ClearBuffer()
      requires Sound()
      modifies this`head, this`tail
      ensures Sound() && Contents(Snapshot()) == [] && Free(Snapshot()) == bufferSize - 1
      ensures Snapshot() == Ring(old(Snapshot()).buf, 0, 0)
    {
      head := 0;
      tail := 0;
    }

    /** Bytes that can be written at the tail pointer in one block copy. */
    method DirectEnqueueSize() returns (n: int)
      requires Sound()
      ensures 0 <= n <= Free(Snapshot()) && tail + n <= bufferSize
      ensures n == Free(Snapshot()) || tail + n == bufferSize
    {
      var headVal, tailVal := head, tail;
      var freeSize := GetFreeSize();
      if freeSize == 0 {
        return 0;
      }
      if headVal > tailVal {
        return headVal - tailVal - 1;
      }
      if headVal == 0 {
        return bufferSize - tailVal - 1;
      }
      return bufferSize - tailVal;
    }

    /** Bytes that can be read at the head pointer in one block copy. */
    method DirectDequeueSize() returns (n: int)
      requires Sound()
      ensures 0 <= n <= Use(Snapshot()) && head + n <= bufferSize
      ensures n == Use(Snapshot()) || head + n == bufferSize
    {
      var headVal, tailVal := head, tail;
      if headVal > tailVal {
        return bufferSize - headVal;
      }
      return tailVal - headVal;
    }

    /** Consumes `size` bytes, or none if there are fewer. A negative size is not rejected. */
    method MoveHead(size: int) returns (r: int)
      requires Sound()
      modifies this`head
      ensures Sound()
      ensures r == if size > old(Use(Snapshot())) then 0 else size
      ensures head == if size > old(Use(Snapshot())) then old(head) else MovedIndex(bufferSize, old(head), size)
      ensures 0 <= r ==> Snapshot() == Drop(old(Snapshot()), r)
      ensures 0 <= r ==> Contents(Snapshot()) == old(Contents(Snapshot()))[r..]
    {
      ghost var was := Snapshot();
      var useSize := GetUseSize();
      var headVal := head;
      if size > useSize {
        DropRemoves(was, 0);
        return 0;
      }
      head := ((headVal + size) % SIZE_T) % bufferSize;
      if 0 <= size {
        MovedIndexForward(bufferSize, headVal, size);
        DropRemoves(was, size);
      }
      return size;
    }

    /** Accepts `size` bytes written at the tail pointer, or none if they do not fit. */
    method MoveTail(size: int) returns (r: int)
      requires Sound()
      modifies this`tail
      ensures Sound()
      ensures r == if size > old(Free(Snapshot())) then 0 else size
      ensures tail == if size > old(Free(Snapshot())) then old(tail) else MovedIndex(bufferSize, old(tail), size)
      ensures 0 <= r ==> Snapshot() == Expose(old(Snapshot()), r)
      ensures 0 <= r ==> Contents(Snapshot()) == old(Contents(Snapshot())) + Waiting(old(Snapshot()), r)
    {
      ghost var was := Snapshot();
      var freeSize := GetFreeSize();
      var tailVal := tail;
      if size > freeSize {
        ExposeAppends(was, 0);
        return 0;
      }
      tail := ((tailVal + size) % SIZE_T) % bufferSize;
      if 0 <= size {
        MovedIndexForward(bufferSize, tailVal, size);
        ExposeAppends(was, size);
      }
      return size;
    }
  }

  lemma StoreNothing(r: Ring, nothing: seq<Byte>)
    requires Valid(r) && nothing == []
    ensures Store(r, nothing) == r && Contents(r) + nothing == Contents(r)
  {
  }

  /** A negative MoveHead inside the buffer takes read bytes back: they come first again. */
  lemma NegativeMoveHeadUnreads(r: Ring, k: int)
    requires Valid(r) && |r.buf| <= INT_MAX && 0 < k <= r.head && k <= Free(r)
    ensures MovedIndex(|r.buf|, r.head, -k) == r.head - k
    ensures Contents(r.(head := r.head - k)) == r.buf[r.head - k..r.head] + Contents(r)
  {
    ModuloOnce(r.head - k, |r.buf|);
    var r' := r.(head := r.head - k);
    assert Use(r') == Use(r) + k;
    forall i | 0 <= i < Use(r') ensures Contents(r')[i] == (r.buf[r.head - k..r.head] + Contents(r))[i] {
      if k <= i { assert At(|r.buf|, r'.head, i) == At(|r.buf|, r.head, i - k); }
    }
  }

  /** Peek followed by MoveHead gives the same bytes and reaches the same state as Dequeue. */
  method PeekThenMoveHead(ring: RingBuffer, dest: array<Byte>, size: nat) returns (n: int)
    requires ring.Sound() && dest != ring.inBuffer && size <= Use(ring.Snapshot()) && size <= dest.Length
    modifies ring`head, dest
    ensures ring.Sound() && n == size
    ensures ring.Snapshot() == Drop(old(ring.Snapshot()), Transfer(size, old(Use(ring.Snapshot()))))
    ensures dest[..n] == old(Contents(ring.Snapshot()))[..n]
    ensures Contents(ring.Snapshot()) == old(Contents(ring.Snapshot()))[n..]
  {
    var peeked := ring.Peek(dest, size);
    n := ring.MoveHead(peeked);
  }
}
