/** The byte ring as a value: what its indices mean, and the plain byte sequence it stands for. */
module RingSpec {

  type Byte = bv8

  const SIZE_T: int := 0x1_0000_0000_0000_0000

  /** `buf` is the whole allocation, `head` the next byte to read, `tail` the next to write.
      One cell always stays unused, so that head == tail means empty. */
  datatype Ring = Ring(buf: seq<Byte>, head: nat, tail: nat)

  predicate Valid(r: Ring) {
    r.head < |r.buf| && r.tail < |r.buf|
  }

  /** The cell `k` steps after `start` on a circle of `n` cells. */
  function At(n: nat, start: nat, k: nat): (i: nat)
    requires start < n && k <= n
    ensures i < n
  {
    if start + k < n then start + k else start + k - n
  }

  /** The remainder the code computes is the step on the circle. */
  lemma AtIsModulo(n: nat, start: nat, k: nat)
    requires start < n && k <= n
    ensures At(n, start, k) == (start + k) % n
  {
  }

  lemma ModuloOnce(x: nat, n: nat)
    requires x < 2 * n
    ensures x % n == if x < n then x else x - n
  {
  }

  lemma TimesMonotone(n: nat, a: nat, b: nat)
    requires a <= b
    ensures n * a <= n * b
  {
  }

  function Use(r: Ring): (n: nat)
    requires Valid(r)
    ensures n < |r.buf|
  {
    if r.tail >= r.head then r.tail - r.head else |r.buf| - (r.head - r.tail)
  }

  function Free(r: Ring): (n: nat)
    requires Valid(r)
    ensures Use(r) + n == |r.buf| - 1
  {
    |r.buf| - 1 - Use(r)
  }

  /** The unread bytes, oldest first. */
  function Contents(r: Ring): (s: seq<Byte>)
    requires Valid(r)
    ensures |s| == Use(r) && forall i :: 0 <= i < |s| ==> s[i] == r.buf[At(|r.buf|, r.head, i)]
  {
    seq(Use(r), i requires 0 <= i < Use(r) => r.buf[At(|r.buf|, r.head, i)])
  }

  /** How many bytes a request for `size` moves when `available` can be moved. */
  function Transfer(size: int, available: nat): (n: nat)
    ensures n <= available && (size < 0 ==> n == 0) && (0 <= size ==> n == if size < available then size else available)
  {
    if size < 0 then 0 else if size < available then size else available
  }

  /** How far cell `j` lies behind tail. */
  function Behind(r: Ring, j: nat): (k: nat)
    requires Valid(r) && j < |r.buf|
    ensures k < |r.buf| && At(|r.buf|, r.tail, k) == j
  {
    if j >= r.tail then j - r.tail else j + |r.buf| - r.tail
  }

  /** The bytes are written from tail on, wrapping, and tail moves past them. */
  function Store(r: Ring, bytes: seq<Byte>): (r': Ring)
    requires Valid(r) && |bytes| <= Free(r)
    ensures Valid(r') && |r'.buf| == |r.buf|
  {
    Ring(seq(|r.buf|, j requires 0 <= j < |r.buf| => if Behind(r, j) < |bytes| then bytes[Behind(r, j)] else r.buf[j]),
         r.head, At(|r.buf|, r.tail, |bytes|))
  }

  /** Head moves past `n` bytes. */
  function Drop(r: Ring, n: nat): (r': Ring)
    requires Valid(r) && n <= Use(r)
    ensures Valid(r') && |r'.buf| == |r.buf|
  {
    r.(head := At(|r.buf|, r.head, n))
  }

  /** Tail moves past `n` bytes that lie there already. */
  function Expose(r: Ring, n: nat): (r': Ring)
    requires Valid(r) && n <= Free(r)
    ensures Valid(r') && |r'.buf| == |r.buf|
  {
    r.(tail := At(|r.buf|, r.tail, n))
  }

  /** The `n` bytes that lie behind tail. */
  function Waiting(r: Ring, n: nat): (s: seq<Byte>)
    requires Valid(r) && n <= Free(r)
    ensures |s| == n && forall i :: 0 <= i < n ==> s[i] == r.buf[At(|r.buf|, r.tail, i)]
  {
    seq(n, i requires 0 <= i < n => r.buf[At(|r.buf|, r.tail, i)])
  }

  // ---------- what the operations do to the byte sequence ----------

  /** Storing appends, whatever the wrap. */
  lemma StoreAppends(r: Ring, bytes: seq<Byte>)
    requires Valid(r) && |bytes| <= Free(r)
    ensures Contents(Store(r, bytes)) == Contents(r) + bytes
  {
  }

  /** Dropping removes the oldest bytes. */
  lemma DropRemoves(r: Ring, n: nat)
    requires Valid(r) && n <= Use(r)
    ensures Contents(Drop(r, n)) == Contents(r)[n..]
  {
  }

  /** Exposing appends the bytes that were written behind tail. */
  lemma ExposeAppends(r: Ring, n: nat)
    requires Valid(r) && n <= Free(r)
    ensures Contents(Expose(r, n)) == Contents(r) + Waiting(r, n)
  {
  }

  // ---------- direct segments ----------

  /** Bytes that can be written from tail on without wrapping: all that are free, or all up to the end
      of the allocation. */
  function DirectFree(r: Ring): (n: nat)
    requires Valid(r)
    ensures n <= Free(r) && r.tail + n <= |r.buf| && (n == Free(r) || r.tail + n == |r.buf|)
  {
    if Free(r) < |r.buf| - r.tail then Free(r) else |r.buf| - r.tail
  }

  /** Bytes that can be read from head on without wrapping. */
  function DirectUse(r: Ring): (n: nat)
    requires Valid(r)
    ensures n <= Use(r) && r.head + n <= |r.buf| && (n == Use(r) || r.head + n == |r.buf|)
  {
    if Use(r) < |r.buf| - r.head then Use(r) else |r.buf| - r.head
  }

  /** A block copy to the tail pointer, as a receive into the ring makes. */
  function CopyAtTail(r: Ring, bytes: seq<Byte>): (r': Ring)
    requires Valid(r) && r.tail + |bytes| <= |r.buf|
    ensures Valid(r') && |r'.buf| == |r.buf|
  {
    r.(buf := r.buf[..r.tail] + bytes + r.buf[r.tail + |bytes|..])
  }

  /** One block copy of a direct segment followed by MoveTail is one Enqueue of it. */
  lemma DirectCopyIsStore(r: Ring, bytes: seq<Byte>)
    requires Valid(r) && |bytes| <= DirectFree(r)
    ensures Expose(CopyAtTail(r, bytes), |bytes|) == Store(r, bytes)
  {
  }

  /** Storing two pieces one after the other is storing their concatenation. */
  lemma StoreInPieces(r: Ring, first: seq<Byte>, second: seq<Byte>)
    requires Valid(r) && |first| + |second| <= Free(r)
    ensures Free(Store(r, first)) == Free(r) - |first|
    ensures Store(Store(r, first), second) == Store(r, first + second)
  {
  }

  /** Zero copy: filling one or two direct segments, each followed by MoveTail, reaches the very
      state that one Enqueue of the concatenation reaches. */
  lemma TwoDirectCopiesAreOneEnqueue(r: Ring, first: seq<Byte>, second: seq<Byte>)
    requires Valid(r) && |first| <= DirectFree(r)
    requires |second| <= DirectFree(Expose(CopyAtTail(r, first), |first|))
    ensures |first| + |second| <= Free(r)
    ensures var r1 := Expose(CopyAtTail(r, first), |first|);
      Expose(CopyAtTail(r1, second), |second|) == Store(r, first + second)
  {
    DirectCopyIsStore(r, first);
    var r1 := Store(r, first);
    assert Free(r1) == Free(r) - |first|;
    DirectCopyIsStore(r1, second);
    StoreInPieces(r, first, second);
  }

  /** Two rounds of direct size and MoveTail fill the ring, whatever the wrap. */
  lemma TwoDirectWritesFill(r: Ring)
    requires Valid(r)
    ensures var r1 := Expose(r, DirectFree(r)); Free(Expose(r1, DirectFree(r1))) == 0
  {
  }

  /** Two rounds of direct size and MoveHead drain it. */
  lemma TwoDirectReadsDrain(r: Ring)
    requires Valid(r)
    ensures var r1 := Drop(r, DirectUse(r)); Contents(Drop(r1, DirectUse(r1))) == []
  {
  }
}
