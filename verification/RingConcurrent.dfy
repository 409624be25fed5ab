/** One thread in Enqueue and one in Dequeue on the same ring, one shared access per step: each
    index is published once, after the bytes. */
module RingConcurrent {
  import opened RingSpec

  /** Where the producer is in Enqueue. `data` is the caller's buffer, at least `size` bytes long. */
  datatype Producer =
    | PIdle
    | PFull(data: seq<Byte>, size: int)                                    // head == (tail + 1) % bufferSize ?
    | PFree(data: seq<Byte>, size: int)                                    // GetFreeSize reads head
    | PCopy(data: seq<Byte>, target: int, index: nat, temp: nat)           // inBuffer[temp++] = data[index++], or tail = temp

  /** Where the consumer is in Dequeue; `got` is what it has copied to the caller's buffer. */
  datatype Consumer =
    | CIdle(got: seq<Byte>)
    | CEmpty(size: int)                                                    // head == tail ?
    | CUse(size: int)                                                      // size < GetUseSize() ?
    | CUseAgain(size: int)                                                 // targetSize = GetUseSize()
    | CCopy(size: int, target: int, index: nat, temp: nat, got: seq<Byte>) // dest[index++] = inBuffer[temp++], or head = temp

  /** `accepted` and `delivered` record what was published by each side. */
  datatype Machine = Machine(ring: Ring, p: Producer, c: Consumer, accepted: seq<Byte>, delivered: seq<Byte>)

  datatype Action = BeginEnqueue(data: seq<Byte>, size: int) | BeginDequeue(size: int) | Produce | Consume

  predicate Enabled(m: Machine, act: Action) {
    Valid(m.ring) &&
    match act
    case BeginEnqueue(data, size) => m.p.PIdle? && size <= |data|
    case BeginDequeue(_) => m.c.CIdle?
    case Produce => !m.p.PIdle? && (m.p.PCopy? && m.p.index < m.p.target ==> m.p.temp < |m.ring.buf| && m.p.index < |m.p.data|)
    case Consume => !m.c.CIdle? && (m.c.CCopy? && m.c.index < m.c.target ==> m.c.temp < |m.ring.buf|)
  }

  function Next(n: nat, temp: nat): nat {
    if temp + 1 == n then 0 else temp + 1
  }

  function Step(m: Machine, act: Action): Machine
    requires Enabled(m, act)
  {
    match act
    case BeginEnqueue(data, size) => m.(p := PFull(data, size))
    case BeginDequeue(size) => m.(c := CEmpty(size))
    case Produce => StepProducer(m)
    case Consume => StepConsumer(m)
  }

  function StepProducer(m: Machine): Machine
    requires Enabled(m, Produce)
  {
    var r, n := m.ring, |m.ring.buf|;
    match m.p
    case PFull(data, size) => if r.head == (r.tail + 1) % n then m.(p := PIdle) else m.(p := PFree(data, size))
    case PFree(data, size) =>
      var free := (r.head + n - r.tail - 1) % n;
      m.(p := PCopy(data, if free < size then free else size, 0, r.tail))
    case PCopy(data, target, index, temp) =>
      if index < target
      then m.(ring := r.(buf := r.buf[temp := data[index]]), p := PCopy(data, target, index + 1, Next(n, temp)))
      else m.(ring := r.(tail := temp), p := PIdle, accepted := m.accepted + (if index <= |data| then data[..index] else data))
  }

  function StepConsumer(m: Machine): Machine
    requires Enabled(m, Consume)
  {
    var r, n := m.ring, |m.ring.buf|;
    match m.c
    case CEmpty(size) => if r.head == r.tail then m.(c := CIdle([])) else m.(c := CUse(size))
    case CUse(size) =>
      if size < Use(r) then m.(c := CCopy(size, size, 0, r.head, [])) else m.(c := CUseAgain(size))
    case CUseAgain(size) => m.(c := CCopy(size, Use(r), 0, r.head, []))
    case CCopy(size, target, index, temp, got) =>
      if index < target
      then m.(c := CCopy(size, target, index + 1, Next(n, temp), got + [r.buf[temp]]))
      else m.(ring := r.(head := temp), c := CIdle(got), delivered := m.delivered + got)
  }

  // ---------- the invariant ----------

  ghost predicate ProducerOk(r: Ring, p: Producer)
    requires Valid(r)
  {
    match p
    case PFull(data, size) => size <= |data|
    case PFree(data, size) => size <= |data|
    case PCopy(data, target, index, temp) =>
      && target <= |data| && target <= Free(r)
      && index <= Transfer(target, Free(r)) && temp == At(|r.buf|, r.tail, index)
      && (forall k :: 0 <= k < index ==> r.buf[At(|r.buf|, r.tail, k)] == data[k])
    case PIdle => true
  }

  ghost predicate ConsumerOk(r: Ring, c: Consumer)
    requires Valid(r)
  {
    match c
    case CCopy(size, target, index, temp, got) =>
      && target <= Use(r) && index <= Transfer(target, Use(r)) && temp == At(|r.buf|, r.head, index)
      && got == Contents(r)[..index]
    case _ => true
  }

  ghost predicate Inv(m: Machine) {
    && Valid(m.ring)
    && ProducerOk(m.ring, m.p) && ConsumerOk(m.ring, m.c)
    && m.accepted == m.delivered + Contents(m.ring)
  }

  /** A byte the producer copies lands behind the unread bytes, not on them. */
  lemma CopyDisturbsNothing(m: Machine)
    requires Inv(m) && m.p.PCopy? && m.p.index < m.p.target
    ensures Enabled(m, Produce)
    ensures Contents(StepProducer(m).ring) == Contents(m.ring)
    ensures ProducerOk(StepProducer(m).ring, StepProducer(m).p)
  {
  }

  lemma PublishAppends(m: Machine)
    requires Inv(m) && m.p.PCopy? && m.p.index >= m.p.target
    ensures Inv(StepProducer(m))
    ensures Contents(StepProducer(m).ring) == Contents(m.ring) + m.p.data[..m.p.index]
  {
    var r := m.ring;
    ExposeAppends(r, m.p.index);
    assert Waiting(r, m.p.index) == m.p.data[..m.p.index];
    assert StepProducer(m).ring == Expose(r, m.p.index);
  }

  lemma ProducerKeeps(m: Machine)
    requires Inv(m) && Enabled(m, Produce)
    ensures Inv(StepProducer(m))
  {
    var r, n := m.ring, |m.ring.buf|;
    match m.p
    case PFull(_, _) =>
    case PFree(_, _) => ModuloOnce(r.head + n - r.tail - 1, n);
    case PCopy(_, target, index, _) =>
      if index < target { CopyDisturbsNothing(m); } else { PublishAppends(m); }
  }

  /** Publishing head removes exactly the bytes that were copied out. */
  lemma ReleaseRemoves(m: Machine)
    requires Inv(m) && m.c.CCopy? && m.c.index >= m.c.target
    ensures Inv(StepConsumer(m))
    ensures Contents(m.ring) == m.c.got + Contents(StepConsumer(m).ring)
    ensures StepConsumer(m).delivered == m.delivered + m.c.got
  {
  }

  lemma ConsumerKeeps(m: Machine)
    requires Inv(m) && Enabled(m, Consume)
    ensures Inv(StepConsumer(m))
  {
    match m.c
    case CCopy(_, target, index, temp, got) =>
      if index >= target { ReleaseRemoves(m); }
      else { assert Contents(m.ring)[..index + 1] == Contents(m.ring)[..index] + [m.ring.buf[temp]]; }
    case _ =>
  }

  // ---------- runs ----------

  function After(m: Machine, act: Action): Machine {
    if Enabled(m, act) then Step(m, act) else m
  }

  function Exec(m: Machine, acts: seq<Action>): Machine {
    if acts == [] then m else After(Exec(m, acts[..|acts| - 1]), acts[|acts| - 1])
  }

  predicate Init(m: Machine) {
    && 0 < |m.ring.buf| && m.ring.head == 0 && m.ring.tail == 0
    && m.p == PIdle && m.c == CIdle([]) && m.accepted == [] && m.delivered == []
  }

  lemma StepKeepsInv(m: Machine, act: Action)
    requires Inv(m)
    ensures Inv(After(m, act))
  {
    if Enabled(m, act) {
      match act
      case BeginEnqueue(_, _) =>
      case BeginDequeue(_) =>
      case Produce => ProducerKeeps(m);
      case Consume => ConsumerKeeps(m);
    }
  }

  lemma {:induction false} RunKeepsInv(m: Machine, acts: seq<Action>)
    requires Inv(m)
    ensures Inv(Exec(m, acts))
  {
    if acts != [] {
      RunKeepsInv(m, acts[..|acts| - 1]);
      StepKeepsInv(Exec(m, acts[..|acts| - 1]), acts[|acts| - 1]);
    }
  }

  /** Whatever the interleaving of byte steps, the bytes delivered are a prefix of the bytes
      accepted, in order, and the unread rest lies in the ring. */
  lemma {:induction false} DeliveredIsPrefix(m0: Machine, acts: seq<Action>)
    requires Init(m0)
    ensures var m := Exec(m0, acts);
      && Valid(m.ring) && m.delivered <= m.accepted
      && m.accepted[|m.delivered|..] == Contents(m.ring)
      && |m.ring.buf| == |m0.ring.buf|
  {
    assert Contents(m0.ring) == [];
    RunKeepsInv(m0, acts);
    SizeNeverChanges(m0, acts);
  }

  lemma {:induction false} SizeNeverChanges(m0: Machine, acts: seq<Action>)
    ensures |Exec(m0, acts).ring.buf| == |m0.ring.buf|
  {
    if acts != [] { SizeNeverChanges(m0, acts[..|acts| - 1]); }
  }

  /** No step ever gets stuck: every index the copy loops use is in bounds. */
  lemma AlwaysInBounds(m: Machine)
    requires Inv(m)
    ensures !m.p.PIdle? ==> Enabled(m, Produce)
    ensures !m.c.CIdle? ==> Enabled(m, Consume)
  {
  }

  // ---------- the second GetUseSize ----------

  /** A Dequeue that asks for `size` bytes, and no other one after it. */
  ghost predicate OneDequeue(acts: seq<Action>, size: int) {
    && acts != [] && acts[0] == BeginDequeue(size)
    && forall i :: 1 <= i < |acts| ==> !acts[i].BeginDequeue?
  }

  /** Dequeue has returned with more bytes than it was asked for. */
  predicate Exceeds(c: Consumer, size: int) {
    c.CIdle? && c.got != [] && |c.got| > size
  }

  /** Some interleaving of one Dequeue with the producer does that. */
  ghost predicate CanExceed(m: Machine, size: int) {
    exists acts :: OneDequeue(acts, size) && Exceeds(Exec(m, acts).c, size)
  }

  /** How many bytes the Enqueue under way, if any, is going to publish. */
  function Pending(r: Ring, p: Producer): (n: nat)
    requires Valid(r)
  {
    match p
    case PIdle => 0
    case PFull(_, size) => Transfer(size, Free(r))
    case PFree(_, size) => Transfer(size, Free(r))
    case PCopy(_, target, _, _) => if target < 0 then 0 else target
  }

  /** What stands in the way of it: no request; a request for all the ring can hold; more bytes than
      requested already there; or none there and more than requested on their way. */
  predicate Modest(m: Machine, size: int)
    requires Valid(m.ring)
  {
    || size <= 0 || |m.ring.buf| - 1 <= size || size < Use(m.ring)
    || (Use(m.ring) == 0 && size < Pending(m.ring, m.p))
  }

  ghost predicate StaysModest(m: Machine, n: nat, size: int)
    requires Valid(m.ring)
  {
    && |m.ring.buf| == n
    && match m.c
       case CIdle(got) => !Exceeds(m.c, size)
       case CEmpty(s) => s == size && Modest(m, size)
       case CUse(s) => s == size && 0 < Use(m.ring) && (size < Use(m.ring) || n - 1 <= size)
       case CUseAgain(s) => s == size && n - 1 <= size
       case CCopy(_, target, _, _, _) => target <= size || target <= 0
  }

  /** A step of the producer publishes what was pending, or leaves that and the used size alone. */
  lemma ProducerOnlyAdds(m: Machine)
    requires Inv(m) && Enabled(m, Produce)
    ensures var m' := StepProducer(m);
      && m'.c == m.c && |m'.ring.buf| == |m.ring.buf| && Valid(m'.ring)
      && Use(m'.ring) + Pending(m'.ring, m'.p) == Use(m.ring) + Pending(m.ring, m.p)
      && (Use(m'.ring) == Use(m.ring) || m'.p.PIdle?)
  {
    ProducerKeeps(m);
    var r, n := m.ring, |m.ring.buf|;
    match m.p
    case PFull(_, _) => ModuloOnce(r.tail + 1, n);
    case PFree(_, _) => ModuloOnce(r.head + n - r.tail - 1, n);
    case PCopy(_, target, index, _) =>
      if index < target { CopyDisturbsNothing(m); } else { PublishAppends(m); }
      assert |Contents(StepProducer(m).ring)| == |Contents(m.ring)| + (if index < target then 0 else index);
  }

  lemma ModestStep(m: Machine, n: nat, act: Action, size: int)
    requires Inv(m) && StaysModest(m, n, size) && !act.BeginDequeue?
    ensures Inv(After(m, act)) && StaysModest(After(m, act), n, size)
  {
    StepKeepsInv(m, act);
    if Enabled(m, act) && act.Produce? { ProducerOnlyAdds(m); }
  }

  /** The safe direction. */
  lemma {:induction false} ModestNeverExceeds(m: Machine, acts: seq<Action>, size: int)
    requires Inv(m) && m.c.CIdle? && Modest(m, size) && OneDequeue(acts, size)
    ensures Inv(Exec(m, acts)) && StaysModest(Exec(m, acts), |m.ring.buf|, size) && !Exceeds(Exec(m, acts).c, size)
    decreases |acts|
  {
    var pre, act := acts[..|acts| - 1], acts[|acts| - 1];
    if pre == [] {
      assert Exec(m, acts) == m.(c := CEmpty(size));
    } else {
      ModestNeverExceeds(m, pre, size);
      ModestStep(Exec(m, pre), |m.ring.buf|, act, size);
    }
  }

  lemma Extend(m0: Machine, acts: seq<Action>, m: Machine, act: Action, size: int) returns (acts': seq<Action>, m': Machine)
    requires Exec(m0, acts) == m && OneDequeue(acts, size) && Inv(m) && Enabled(m, act) && !act.BeginDequeue?
    ensures Exec(m0, acts') == m' == Step(m, act) && OneDequeue(acts', size) && Inv(m')
  {
    acts', m' := acts + [act], Step(m, act);
    assert acts'[..|acts|] == acts;
    StepKeepsInv(m, act);
  }

  /** The Enqueue under way comes to its end, undisturbed. */
  lemma {:induction false} FinishPut(m0: Machine, acts: seq<Action>, m: Machine, size: int) returns (acts': seq<Action>, m': Machine)
    requires Exec(m0, acts) == m && OneDequeue(acts, size) && Inv(m)
    ensures Exec(m0, acts') == m' && OneDequeue(acts', size) && Inv(m') && m'.p.PIdle? && m'.c == m.c
    ensures |m'.ring.buf| == |m.ring.buf| && Use(m'.ring) == Use(m.ring) + Pending(m.ring, m.p)
    decreases StepsLeft(m.p, |m.ring.buf|)
  {
    acts', m' := acts, m;
    if !m.p.PIdle? {
      AlwaysInBounds(m);
      ProducerOnlyAdds(m);
      acts', m' := Extend(m0, acts, m, Produce, size);
      acts', m' := FinishPut(m0, acts', m', size);
    }
  }

  function StepsLeft(p: Producer, room: nat): nat {
    match p
    case PIdle => 0
    case PCopy(_, target, index, _) => if index < target then target - index + 1 else 1
    case PFree(_, _) => room + 2
    case PFull(_, _) => room + 3
  }

  /** A whole Enqueue of bytes that fit, undisturbed. */
  lemma PutAll(m0: Machine, acts: seq<Action>, m: Machine, data: seq<Byte>, size: int) returns (acts': seq<Action>, m': Machine)
    requires Exec(m0, acts) == m && OneDequeue(acts, size) && Inv(m) && m.p.PIdle? && |data| <= Free(m.ring)
    ensures Exec(m0, acts') == m' && OneDequeue(acts', size) && Inv(m') && m'.p.PIdle? && m'.c == m.c
    ensures |m'.ring.buf| == |m.ring.buf| && Use(m'.ring) == Use(m.ring) + |data|
  {
    acts', m' := Extend(m0, acts, m, BeginEnqueue(data, |data|), size);
    acts', m' := FinishPut(m0, acts', m', size);
  }

  /** The consumer's copy loop, undisturbed. */
  lemma {:induction false} TakeAll(m0: Machine, acts: seq<Action>, m: Machine, size: int) returns (acts': seq<Action>)
    requires Exec(m0, acts) == m && OneDequeue(acts, size) && Inv(m) && m.c.CCopy? && 0 <= m.c.target
    ensures OneDequeue(acts', size) && Exec(m0, acts').c.CIdle? && |Exec(m0, acts').c.got| == m.c.target
    decreases m.c.target - m.c.index
  {
    var m';
    acts', m' := Extend(m0, acts, m, Consume, size);
    if m.c.index < m.c.target { acts' := TakeAll(m0, acts', m', size); }
  }

  /** How it happens: both size checks see something, and between them the producer publishes. */
  lemma ExceedingRun(m: Machine, size: nat) returns (acts: seq<Action>)
    requires Inv(m) && m.c.CIdle? && !Modest(m, size)
    ensures OneDequeue(acts, size) && Exceeds(Exec(m, acts).c, size)
  {
    var m1 := m.(c := CEmpty(size));
    acts := [BeginDequeue(size)];
    assert Exec(m, acts) == m1;
    if Use(m1.ring) == 0 { acts, m1 := FinishPut(m, acts, m1, size); }
    if Use(m1.ring) == 0 { acts, m1 := PutAll(m, acts, m1, [0], size); }
    acts, m1 := Extend(m, acts, m1, Consume, size);
    acts, m1 := Extend(m, acts, m1, Consume, size);
    assert m1.c == CUseAgain(size);
    acts, m1 := FinishPut(m, acts, m1, size);
    if Use(m1.ring) <= size { acts, m1 := PutAll(m, acts, m1, seq(size + 1 - Use(m1.ring), _ => 0), size); }
    acts, m1 := Extend(m, acts, m1, Consume, size);
    acts := TakeAll(m, acts, m1, size);
  }

  /** Exactly when a Dequeue can hand out more bytes than it was asked for, whatever the producer is in
      the middle of: it asks for at least one byte, for less than the ring can hold, for no less than
      is there, and, if nothing is there, for no less than is on its way. */
  lemma DequeueExceedsExactly(m: Machine, size: int)
    requires Inv(m) && m.c.CIdle?
    ensures CanExceed(m, size) <==>
      && 1 <= size < |m.ring.buf| - 1 && Use(m.ring) <= size
      && (Use(m.ring) == 0 ==> Pending(m.ring, m.p) <= size)
  {
    if Modest(m, size) {
      forall acts | OneDequeue(acts, size) ensures !Exceeds(Exec(m, acts).c, size) { ModestNeverExceeds(m, acts, size); }
    } else {
      var acts := ExceedingRun(m, size);
    }
  }

  /** In particular from the cleared ring, for every request that leaves room for one byte more. */
  lemma DequeueMayExceedItsRequest(m0: Machine, size: nat)
    requires Init(m0) && 1 <= size < |m0.ring.buf| - 1
    ensures CanExceed(m0, size)
  {
    assert Contents(m0.ring) == [];
    DequeueExceedsExactly(m0, size);
  }
}
