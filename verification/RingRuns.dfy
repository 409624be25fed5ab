/** Whole runs of ring operations: no byte is lost, duplicated or reordered. */
module RingRuns {
  import opened RingSpec
  import opened RingBuffers

  datatype Op =
    | Enqueue(data: seq<Byte>, size: int)
    | Dequeue(size: int)
    | Peek(size: int)
    | MoveHead(size: int)
    | MoveTail(size: int)
    | Clear

  /** The caller's buffer is long enough for what Enqueue will read. */
  predicate Callable(r: Ring, op: Op)
    requires Valid(r)
  {
    op.Enqueue? ==> Transfer(op.size, Free(r)) <= |op.data|
  }

  /** The ring after an operation. */
  function Apply(r: Ring, op: Op): (r': Ring)
    requires Valid(r) && Callable(r, op)
    ensures Valid(r') && |r'.buf| == |r.buf|
  {
    match op
    case Enqueue(data, size) => Store(r, data[..Transfer(size, Free(r))])
    case Dequeue(size) => Drop(r, Transfer(size, Use(r)))
    case Peek(_) => r
    case MoveHead(size) => if size > Use(r) then r else r.(head := MovedIndex(|r.buf|, r.head, size))
    case MoveTail(size) => if size > Free(r) then r else r.(tail := MovedIndex(|r.buf|, r.tail, size))
    case Clear => r.(head := 0, tail := 0)
  }

  /** The bytes an operation puts in. */
  function Inserted(r: Ring, op: Op): seq<Byte>
    requires Valid(r) && Callable(r, op)
  {
    match op
    case Enqueue(data, size) => data[..Transfer(size, Free(r))]
    case MoveTail(size) => if 0 <= size <= Free(r) then Waiting(r, size) else []
    case _ => []
  }

  /** The bytes an operation takes out; Clear throws all of them away. */
  function Removed(r: Ring, op: Op): seq<Byte>
    requires Valid(r) && Callable(r, op)
  {
    match op
    case Dequeue(size) => Contents(r)[..Transfer(size, Use(r))]
    case MoveHead(size) => if 0 <= size <= Use(r) then Contents(r)[..size] else []
    case Clear => Contents(r)
    case _ => []
  }

  /** MoveHead and MoveTail are called with the count of bytes moved, not with a negative one. */
  predicate Forward(op: Op) {
    op.MoveHead? || op.MoveTail? ==> 0 <= op.size
  }

  lemma OpConserves(r: Ring, op: Op)
    requires Valid(r) && |r.buf| <= INT_MAX && Callable(r, op) && Forward(op)
    ensures Removed(r, op) + Contents(Apply(r, op)) == Contents(r) + Inserted(r, op)
  {
    match op
    case Enqueue(data, size) => StoreAppends(r, Inserted(r, op));
    case Dequeue(size) => DropRemoves(r, Transfer(size, Use(r)));
    case Peek(_) =>
    case MoveHead(size) => if size <= Use(r) { MoveHeadConserves(r, size); }
    case MoveTail(size) => if size <= Free(r) { MoveTailConserves(r, size); }
    case Clear => assert Contents(Apply(r, op)) == [];
  }

  /** A negative move goes below cell 0, round the 64-bit index, and lands where it started. */
  predicate ComesBack(n: nat, index: nat, size: int)
    requires 0 < n
  {
    index + size < 0 && (SIZE_T + size) % n == 0
  }

  /** The sizes for which a move loses or repeats no byte. */
  predicate KeepsBytes(r: Ring, op: Op)
    requires Valid(r)
  {
    match op
    case MoveHead(size) => 0 <= size || ComesBack(|r.buf|, r.head, size)
    case MoveTail(size) => 0 <= size || ComesBack(|r.buf|, r.tail, size)
    case _ => true
  }

  /** Bytes are conserved exactly when no move is negative, but for the moves that come back to
      the same cell. */
  lemma OpConservesExactly(r: Ring, op: Op)
    requires Valid(r) && |r.buf| <= INT_MAX && Callable(r, op)
    requires op.MoveHead? || op.MoveTail? ==> -INT_MAX - 1 <= op.size
    ensures Removed(r, op) + Contents(Apply(r, op)) == Contents(r) + Inserted(r, op) <==> KeepsBytes(r, op)
  {
    if Forward(op) {
      OpConserves(r, op);
    } else {
      var index := if op.MoveHead? then r.head else r.tail;
      ComesBackExactly(|r.buf|, index, op.size);
      assert Use(Apply(r, op)) == Use(r) <==> MovedIndex(|r.buf|, index, op.size) == index;
      assert Removed(r, op) + Contents(Apply(r, op)) == Contents(Apply(r, op));
      assert Contents(r) + Inserted(r, op) == Contents(r);
    }
  }

  lemma ComesBackExactly(n: nat, index: nat, size: int)
    requires index < n <= INT_MAX && -INT_MAX - 1 <= size < 0
    ensures MovedIndex(n, index, size) == index <==> ComesBack(n, index, size)
  {
    if index + size >= 0 {
      ModuloOnce(index + size, n);
    } else {
      var x := SIZE_T + size;
      assert (index + size) % SIZE_T == index + x;
      var q, p := x / n, x % n;
      assert index + x == n * q + (index + p);
      ShiftModulo(index + p, n, q);
      ModuloOnce(index + p, n);
    }
  }

  lemma ShiftModulo(x: nat, n: nat, q: nat)
    requires 0 < n
    ensures (n * q + x) % n == x % n
  {
    var k := x / n;
    assert x == n * k + x % n;
    assert n * q + x == n * (q + k) + x % n;
    RemainderIs(n * q + x, n, q + k, x % n);
  }

  lemma RemainderIs(x: nat, n: nat, q: nat, p: nat)
    requires 0 < n && x == n * q + p && p < n
    ensures x % n == p
  {
    var d := x / n - q;
    assert x == n * (x / n) + x % n;
    assert n * d == p - x % n;
    if d > 0 { TimesMonotone(n, 1, d); } else if d < 0 { TimesMonotone(n, 1, -d); }
  }

  lemma MoveHeadConserves(r: Ring, size: nat)
    requires Valid(r) && |r.buf| <= INT_MAX && size <= Use(r)
    ensures r.(head := MovedIndex(|r.buf|, r.head, size)) == Drop(r, size)
    ensures Contents(r)[..size] + Contents(Drop(r, size)) == Contents(r)
  {
    MovedIndexForward(|r.buf|, r.head, size);
    DropRemoves(r, size);
  }

  lemma MoveTailConserves(r: Ring, size: nat)
    requires Valid(r) && |r.buf| <= INT_MAX && size <= Free(r)
    ensures r.(tail := MovedIndex(|r.buf|, r.tail, size)) == Expose(r, size)
    ensures Contents(Expose(r, size)) == Contents(r) + Waiting(r, size)
  {
    MovedIndexForward(|r.buf|, r.tail, size);
    ExposeAppends(r, size);
  }

  predicate AllCallable(r: Ring, ops: seq<Op>)
    requires Valid(r)
    decreases |ops|
  {
    ops == [] || (Callable(r, ops[0]) && AllCallable(Apply(r, ops[0]), ops[1..]))
  }

  function Run(r: Ring, ops: seq<Op>): (r': Ring)
    requires Valid(r) && AllCallable(r, ops)
    ensures Valid(r') && |r'.buf| == |r.buf|
    decreases |ops|
  {
    if ops == [] then r else Run(Apply(r, ops[0]), ops[1..])
  }

  function AllInserted(r: Ring, ops: seq<Op>): seq<Byte>
    requires Valid(r) && AllCallable(r, ops)
    decreases |ops|
  {
    if ops == [] then [] else Inserted(r, ops[0]) + AllInserted(Apply(r, ops[0]), ops[1..])
  }

  function AllRemoved(r: Ring, ops: seq<Op>): seq<Byte>
    requires Valid(r) && AllCallable(r, ops)
    decreases |ops|
  {
    if ops == [] then [] else Removed(r, ops[0]) + AllRemoved(Apply(r, ops[0]), ops[1..])
  }

  /** No operation of the run loses or repeats a byte. */
  predicate AllKeep(r: Ring, ops: seq<Op>)
    requires Valid(r) && AllCallable(r, ops)
    decreases |ops|
  {
    ops == [] || (KeepsBytes(r, ops[0]) && AllKeep(Apply(r, ops[0]), ops[1..]))
  }

  /** The sizes are those of a C++ `int`. */
  predicate IntSized(op: Op) {
    op.MoveHead? || op.MoveTail? ==> -INT_MAX - 1 <= op.size
  }

  /** What came out, followed by what is left, is what was there and what went in, in order. */
  ghost predicate Conserved(r: Ring, ops: seq<Op>)
    requires Valid(r) && AllCallable(r, ops)
  {
    AllRemoved(r, ops) + Contents(Run(r, ops)) == Contents(r) + AllInserted(r, ops)
  }

  /** Conservation over whole runs. */
  lemma {:induction false} RunConserves(r: Ring, ops: seq<Op>)
    requires Valid(r) && |r.buf| <= INT_MAX && AllCallable(r, ops) && AllKeep(r, ops)
    requires forall op :: op in ops ==> IntSized(op)
    ensures Conserved(r, ops)
    decreases |ops|
  {
    if ops != [] {
      var r1 := Apply(r, ops[0]);
      var out, in_, outs, ins := Removed(r, ops[0]), Inserted(r, ops[0]), AllRemoved(r1, ops[1..]), AllInserted(r1, ops[1..]);
      assert IntSized(ops[0]);
      OpConservesExactly(r, ops[0]);
      RunConserves(r1, ops[1..]);
      Regroup(out, outs, Contents(Run(r, ops)), Contents(r1), Contents(r), in_, ins);
    }
  }

  lemma ForwardKeeps(r: Ring, ops: seq<Op>)
    requires Valid(r) && AllCallable(r, ops) && forall op :: op in ops ==> Forward(op)
    ensures AllKeep(r, ops)
    decreases |ops|
  {
    if ops != [] { assert Forward(ops[0]); ForwardKeeps(Apply(r, ops[0]), ops[1..]); }
  }

  lemma PrefixCallable(r: Ring, ops: seq<Op>, k: nat)
    requires Valid(r) && AllCallable(r, ops) && k <= |ops|
    ensures AllCallable(r, ops[..k])
    decreases |ops|
  {
    if k > 0 {
      PrefixCallable(Apply(r, ops[0]), ops[1..], k - 1);
      assert ops[..k][1..] == ops[1..][..k - 1];
    }
  }

  /** After every operation of the run the bytes add up. */
  ghost predicate ConservedThroughout(r: Ring, ops: seq<Op>)
    requires Valid(r) && AllCallable(r, ops)
  {
    forall k {:trigger ops[..k]} :: 0 <= k <= |ops| ==> AllCallable(r, ops[..k]) && Conserved(r, ops[..k])
  }

  /** Exactly when a run conserves bytes from beginning to end: no move in it is negative, but for
      those that come back to the same cell. */
  lemma {:induction false} RunConservesExactly(r: Ring, ops: seq<Op>)
    requires Valid(r) && |r.buf| <= INT_MAX && AllCallable(r, ops)
    requires forall op :: op in ops ==> IntSized(op)
    ensures ConservedThroughout(r, ops) <==> AllKeep(r, ops)
    decreases |ops|
  {
    if AllKeep(r, ops) {
      forall k | 0 <= k <= |ops| ensures AllCallable(r, ops[..k]) && Conserved(r, ops[..k]) {
        PrefixCallable(r, ops, k);
        PrefixKeeps(r, ops, k);
        RunConserves(r, ops[..k]);
      }
    } else {
      var r1 := Apply(r, ops[0]);
      assert IntSized(ops[0]);
      OpConservesExactly(r, ops[0]);
      OneIsConserved(r, ops);
      if KeepsBytes(r, ops[0]) {
        RunConservesExactly(r1, ops[1..]);
        var k :| 0 <= k <= |ops[1..]| && !(AllCallable(r1, ops[1..][..k]) && Conserved(r1, ops[1..][..k]));
        PrefixCallable(r1, ops[1..], k);
        BreakPersists(r, ops, k);
      }
    }
  }

  lemma {:induction false} PrefixKeeps(r: Ring, ops: seq<Op>, k: nat)
    requires Valid(r) && AllCallable(r, ops) && AllKeep(r, ops) && k <= |ops| && AllCallable(r, ops[..k])
    ensures AllKeep(r, ops[..k])
    decreases |ops|
  {
    if k > 0 {
      assert ops[..k][1..] == ops[1..][..k - 1];
      PrefixKeeps(Apply(r, ops[0]), ops[1..], k - 1);
    }
  }

  /** A run of one operation is conserved just when the operation is. */
  lemma OneIsConserved(r: Ring, ops: seq<Op>)
    requires Valid(r) && AllCallable(r, ops) && ops != []
    ensures AllCallable(r, ops[..1])
    ensures Conserved(r, ops[..1]) <==>
      Removed(r, ops[0]) + Contents(Apply(r, ops[0])) == Contents(r) + Inserted(r, ops[0])
  {
    PrefixCallable(r, ops, 1);
    assert ops[..1][1..] == [];
    assert AllRemoved(r, ops[..1]) == Removed(r, ops[0]) && AllInserted(r, ops[..1]) == Inserted(r, ops[0]);
    assert Run(r, ops[..1]) == Apply(r, ops[0]);
  }

  /** If the first operation conserves bytes and the rest of the run does not, the run does not. */
  lemma BreakPersists(r: Ring, ops: seq<Op>, k: nat)
    requires Valid(r) && AllCallable(r, ops) && 0 <= k < |ops|
    requires Removed(r, ops[0]) + Contents(Apply(r, ops[0])) == Contents(r) + Inserted(r, ops[0])
    requires AllCallable(Apply(r, ops[0]), ops[1..][..k]) && !Conserved(Apply(r, ops[0]), ops[1..][..k])
    ensures AllCallable(r, ops[..k + 1]) && !Conserved(r, ops[..k + 1])
  {
    PrefixCallable(r, ops, k + 1);
    assert ops[..k + 1][1..] == ops[1..][..k];
    var r1, rest := Apply(r, ops[0]), ops[1..][..k];
    if Conserved(r, ops[..k + 1]) {
      Unregroup(Removed(r, ops[0]), AllRemoved(r1, rest), Contents(Run(r1, rest)), Contents(r1), Contents(r),
                Inserted(r, ops[0]), AllInserted(r1, rest));
    }
  }

  lemma Unregroup(out: seq<Byte>, outs: seq<Byte>, rest: seq<Byte>, mid: seq<Byte>, first: seq<Byte>, in_: seq<Byte>, ins: seq<Byte>)
    requires out + mid == first + in_ && (out + outs) + rest == first + (in_ + ins)
    ensures outs + rest == mid + ins
  {
    assert out + (outs + rest) == (out + outs) + rest;
    assert out + (mid + ins) == (out + mid) + ins;
    assert (first + in_) + ins == first + (in_ + ins);
    assert outs + rest == (out + (outs + rest))[|out|..] && mid + ins == (out + (mid + ins))[|out|..];
  }

  lemma Regroup(out: seq<Byte>, outs: seq<Byte>, rest: seq<Byte>, mid: seq<Byte>, first: seq<Byte>, in_: seq<Byte>, ins: seq<Byte>)
    requires out + mid == first + in_ && outs + rest == mid + ins
    ensures (out + outs) + rest == first + (in_ + ins)
  {
    assert (out + outs) + rest == out + (outs + rest);
    assert out + (mid + ins) == (out + mid) + ins;
    assert (first + in_) + ins == first + (in_ + ins);
  }

  /** What an operation answers. */
  function Answer(r: Ring, op: Op): int
    requires Valid(r) && Callable(r, op)
  {
    match op
    case Enqueue(_, size) => Transfer(size, Free(r))
    case Dequeue(size) => Transfer(size, Use(r))
    case Peek(size) => Transfer(size, Use(r))
    case MoveHead(size) => if size > Use(r) then 0 else size
    case MoveTail(size) => if size > Free(r) then 0 else size
    case Clear => 0
  }

  /** The bytes that come into the caller's hands: those a Dequeue or a Peek copies out; before a
      MoveHead or a Clear the caller looks at the bytes about to go. */
  function Shown(r: Ring, op: Op): seq<Byte>
    requires Valid(r) && Callable(r, op)
  {
    if op.Peek? then Contents(r)[..Transfer(op.size, Use(r))] else Removed(r, op)
  }

  /** The object does what the value-level operation says, gives the caller these very bytes and
      answers with their number. */
  method Perform(ring: RingBuffer, op: Op) returns (bytes: seq<Byte>, answer: int)
    requires ring.Sound() && Callable(ring.Snapshot(), op)
    modifies ring`head, ring`tail, ring.inBuffer
    ensures ring.Sound() && ring.Snapshot() == Apply(old(ring.Snapshot()), op)
    ensures ring.inBuffer == old(ring.inBuffer)
    ensures bytes == Shown(old(ring.Snapshot()), op) && answer == Answer(old(ring.Snapshot()), op)
  {
    bytes, answer := [], 0;
    match op
    case Enqueue(data, size) => answer := PerformEnqueue(ring, data, size);
    case Dequeue(size) =>
      var use := ring.GetUseSize();
      var dest := new Byte[use];
      answer := ring.Dequeue(dest, size);
      bytes := dest[..answer];
    case Peek(size) => bytes, answer := LookAhead(ring, size);
    case MoveHead(size) =>
      var use := ring.GetUseSize();
      if 0 <= size <= use {
        var n;
        bytes, n := LookAhead(ring, size);
      }
      answer := ring.MoveHead(size);
    case MoveTail(size) => answer := ring.MoveTail(size);
    case Clear =>
      var use := ring.GetUseSize();
      bytes, answer := LookAhead(ring, use);
      answer := 0;
      ring.ClearBuffer();
  }

  method PerformEnqueue(ring: RingBuffer, data: seq<Byte>, size: int) returns (n: int)
    requires ring.Sound() && Callable(ring.Snapshot(), Enqueue(data, size))
    modifies ring`tail, ring.inBuffer
    ensures ring.Sound() && ring.Snapshot() == Apply(old(ring.Snapshot()), Enqueue(data, size))
    ensures n == Transfer(size, old(Free(ring.Snapshot())))
  {
    var source := new Byte[|data|](i requires 0 <= i < |data| => data[i]);
    assert source[..] == data;
    n := ring.Enqueue(source, size);
    assert source[..n] == data[..n];
  }

  method LookAhead(ring: RingBuffer, size: int) returns (bytes: seq<Byte>, n: int)
    requires ring.Sound()
    ensures n == Transfer(size, Use(ring.Snapshot())) && bytes == Contents(ring.Snapshot())[..n]
  {
    var use := ring.GetUseSize();
    var dest := new Byte[use];
    n := ring.Peek(dest, size);
    bytes := dest[..n];
  }

  lemma NextOperation(r: Ring, ops: seq<Op>, i: nat)
    requires Valid(r) && i < |ops| && AllCallable(r, ops[i..])
    ensures Callable(r, ops[i]) && AllCallable(Apply(r, ops[i]), ops[i + 1..])
    ensures Run(r, ops[i..]) == Run(Apply(r, ops[i]), ops[i + 1..])
    ensures AllRemoved(r, ops[i..]) == Removed(r, ops[i]) + AllRemoved(Apply(r, ops[i]), ops[i + 1..])
  {
    assert ops[i..][1..] == ops[i + 1..];
  }

  /** Any run on the object ends where the run on values ends, and hands out what that removes. */
  method PerformRun(ring: RingBuffer, ops: seq<Op>) returns (out: seq<Byte>)
    requires ring.Sound() && AllCallable(ring.Snapshot(), ops)
    modifies ring`head, ring`tail, ring.inBuffer
    ensures ring.Sound() && ring.Snapshot() == Run(old(ring.Snapshot()), ops)
    ensures out == AllRemoved(old(ring.Snapshot()), ops)
  {
    ghost var was := ring.Snapshot();
    out := [];
    assert ops[0..] == ops;
    for i := 0 to |ops|
      invariant ring.Sound() && ring.inBuffer == old(ring.inBuffer)
      invariant AllCallable(ring.Snapshot(), ops[i..])
      invariant Run(ring.Snapshot(), ops[i..]) == Run(was, ops)
      invariant out + AllRemoved(ring.Snapshot(), ops[i..]) == AllRemoved(was, ops)
    {
      ghost var r := ring.Snapshot();
      NextOperation(r, ops, i);
      var bytes, answer := Perform(ring, ops[i]);
      var taken := if ops[i].Peek? then [] else bytes;
      assert taken == Removed(r, ops[i]);
      Reassociate(out, taken, AllRemoved(Apply(r, ops[i]), ops[i + 1..]));
      out := out + taken;
    }
  }

  lemma Reassociate(a: seq<Byte>, b: seq<Byte>, c: seq<Byte>)
    ensures (a + b) + c == a + (b + c)
  {
  }

  /** So on the object, too: the bytes that were really handed out over any run, followed by what is
      left, are what was there and what went in, if no move loses or repeats a byte; in particular if
      no move is negative. And the sizes the object then answers still add up. */
  method PerformAll(ring: RingBuffer, ops: seq<Op>) returns (out: seq<Byte>, use: int, free: int)
    requires ring.Sound() && AllCallable(ring.Snapshot(), ops)
    modifies ring`head, ring`tail, ring.inBuffer
    ensures ring.Sound() && ring.Snapshot() == Run(old(ring.Snapshot()), ops)
    ensures AllKeep(old(ring.Snapshot()), ops) && (forall op :: op in ops ==> IntSized(op)) ==>
      out + Contents(ring.Snapshot()) == old(Contents(ring.Snapshot())) + AllInserted(old(ring.Snapshot()), ops)
    ensures (forall op :: op in ops ==> Forward(op)) ==>
      out + Contents(ring.Snapshot()) == old(Contents(ring.Snapshot())) + AllInserted(old(ring.Snapshot()), ops)
    ensures use == |Contents(ring.Snapshot())| && use + free == ring.bufferSize - 1
  {
    ghost var was := ring.Snapshot();
    if forall op :: op in ops ==> Forward(op) {
      ForwardKeeps(was, ops);
      assert forall op :: op in ops ==> Forward(op) && IntSized(op);
    }
    if AllKeep(was, ops) && forall op :: op in ops ==> IntSized(op) { RunConserves(was, ops); }
    out := PerformRun(ring, ops);
    use := ring.GetUseSize();
    free := ring.GetFreeSize();
  }
}
