/** What one Enqueue and one Dequeue are sure to do while the other side runs: how many bytes they move,
    which ones, and after how many of their own steps they return. */
module RingService {
  import opened RingSpec
  import opened RingConcurrent

  function Positive(n: int): (r: nat)
    ensures r >= n && (0 <= n ==> r == n) && (n < 0 ==> r == 0)
  {
    if n < 0 then 0 else n
  }

  /** How many of the actions are `act`. */
  function Count(acts: seq<Action>, act: Action): nat {
    if acts == [] then 0 else Count(acts[..|acts| - 1], act) + if acts[|acts| - 1] == act then 1 else 0
  }

  // ---------- Dequeue ----------

  /** Where a Dequeue of `size` bytes that began with `use0` unread and `given` delivered can be. */
  predicate Serves(m: Machine, use0: nat, size: int, given: seq<Byte>)
    requires Valid(m.ring)
  {
    match m.c
    case CIdle(got) =>
      && Transfer(size, use0) <= |got| && (size <= 0 ==> got == []) && (0 <= size < use0 ==> |got| == size)
      && m.delivered == given + got
    case CEmpty(s) => s == size && use0 <= Use(m.ring) && m.delivered == given
    case CUse(s) => s == size && use0 <= Use(m.ring) && 0 < Use(m.ring) && m.delivered == given
    case CUseAgain(s) => s == size && use0 <= Use(m.ring) && use0 <= size && 0 < size && m.delivered == given
    case CCopy(_, target, _, _, _) =>
      && Transfer(size, use0) <= Positive(target) && (size <= 0 ==> target <= 0) && (size < use0 ==> target == size)
      && m.delivered == given
  }

  lemma ConsumerServes(m: Machine, use0: nat, size: int, given: seq<Byte>)
    requires Inv(m) && Enabled(m, Consume) && Serves(m, use0, size, given)
    ensures Valid(StepConsumer(m).ring) && Serves(StepConsumer(m), use0, size, given)
  {
    ConsumerKeeps(m);
  }

  lemma ServesStep(m: Machine, act: Action, use0: nat, size: int, given: seq<Byte>)
    requires Inv(m) && Serves(m, use0, size, given) && !act.BeginDequeue?
    ensures Inv(After(m, act)) && Serves(After(m, act), use0, size, given)
  {
    StepKeepsInv(m, act);
    if Enabled(m, act) {
      if act.Produce? { ProducerOnlyAdds(m); }
      if act.Consume? { ConsumerServes(m, use0, size, given); }
    }
  }

  lemma {:induction false} RunServes(m: Machine, acts: seq<Action>, size: int)
    requires Inv(m) && m.c.CIdle? && OneDequeue(acts, size)
    ensures Inv(Exec(m, acts)) && Serves(Exec(m, acts), Use(m.ring), size, m.delivered)
    decreases |acts|
  {
    var pre, act := acts[..|acts| - 1], acts[|acts| - 1];
    if pre == [] {
      assert Exec(m, acts) == m.(c := CEmpty(size));
    } else {
      RunServes(m, pre, size);
      ServesStep(Exec(m, pre), act, Use(m.ring), size, m.delivered);
    }
  }

  /** A Dequeue that has returned, whatever the producer did meanwhile, has handed out at least as many
      bytes as it could have at its call, exactly the number asked for if more were there then, and
      none for a request that is not positive; and these are the next bytes delivered. */
  lemma DequeueServes(m: Machine, acts: seq<Action>, size: int)
    requires Inv(m) && m.c.CIdle? && OneDequeue(acts, size) && Exec(m, acts).c.CIdle?
    ensures var got := Exec(m, acts).c.got;
      && Transfer(size, Use(m.ring)) <= |got|
      && (0 <= size < Use(m.ring) ==> |got| == size)
      && (size <= 0 ==> got == [])
      && Exec(m, acts).delivered == m.delivered + got
  {
    RunServes(m, acts, size);
  }

  /** The same call with the producer at rest. */
  ghost predicate AloneIn(acts: seq<Action>, first: Action, own: Action) {
    acts != [] && acts[0] == first && forall i :: 1 <= i < |acts| ==> acts[i] == own
  }

  predicate ServesAlone(m: Machine, m0: Machine, size: int)
    requires Valid(m0.ring)
  {
    var n := Transfer(size, Use(m0.ring));
    && m.p == m0.p && m.accepted == m0.accepted
    && match m.c
       case CIdle(got) => m.ring == Drop(m0.ring, n) && got == Contents(m0.ring)[..n]
       case CEmpty(s) => s == size && m.ring == m0.ring
       case CUse(s) => s == size && m.ring == m0.ring && 0 < Use(m0.ring)
       case CUseAgain(s) => s == size && m.ring == m0.ring && Use(m0.ring) <= size
       case CCopy(_, target, _, _, _) => m.ring == m0.ring && Positive(target) == n
  }

  lemma ServesAloneStep(m: Machine, m0: Machine, size: int)
    requires Inv(m0) && Inv(m) && ServesAlone(m, m0, size)
    ensures Inv(After(m, Consume)) && ServesAlone(After(m, Consume), m0, size)
  {
    StepKeepsInv(m, Consume);
  }

  /** Alone, a Dequeue does on the ring what the sequential one does: it hands out the first bytes, as
      many as were asked for and are there, and head moves past them. */
  lemma {:induction false} DequeueAloneIsDrop(m: Machine, acts: seq<Action>, size: int)
    requires Inv(m) && m.c.CIdle? && AloneIn(acts, BeginDequeue(size), Consume)
    ensures Inv(Exec(m, acts)) && ServesAlone(Exec(m, acts), m, size)
    ensures var e, n := Exec(m, acts), Transfer(size, Use(m.ring));
      e.c.CIdle? ==> e.ring == Drop(m.ring, n) && e.c.got == Contents(m.ring)[..n]
    decreases |acts|
  {
    var pre := acts[..|acts| - 1];
    if pre == [] {
      assert Exec(m, acts) == m.(c := CEmpty(size));
    } else {
      DequeueAloneIsDrop(m, pre, size);
      ServesAloneStep(Exec(m, pre), m, size);
    }
  }

  function ConsumerLeft(c: Consumer, n: nat): nat {
    match c
    case CIdle(_) => 0
    case CEmpty(_) => n + 3
    case CUse(_) => n + 2
    case CUseAgain(_) => n + 1
    case CCopy(_, target, index, _, _) => Positive(target - index) + 1
  }

  lemma ConsumerGoesOn(m: Machine)
    requires Inv(m) && !m.c.CIdle?
    ensures Enabled(m, Consume) && |StepConsumer(m).ring.buf| == |m.ring.buf|
    ensures ConsumerLeft(StepConsumer(m).c, |m.ring.buf|) < ConsumerLeft(m.c, |m.ring.buf|)
  {
    AlwaysInBounds(m);
  }

  /** Wait-free: whatever the producer does, a Dequeue returns after at most bufferSize + 3 steps of its own. */
  lemma {:induction false} DequeueReturns(m: Machine, acts: seq<Action>, size: int)
    requires Inv(m) && m.c.CIdle? && OneDequeue(acts, size)
    ensures Inv(Exec(m, acts)) && |Exec(m, acts).ring.buf| == |m.ring.buf|
    ensures !Exec(m, acts).c.CIdle? ==> ConsumerLeft(Exec(m, acts).c, |m.ring.buf|) + Count(acts, Consume) <= |m.ring.buf| + 3
    ensures |m.ring.buf| + 3 <= Count(acts, Consume) ==> Exec(m, acts).c.CIdle?
    decreases |acts|
  {
    var pre, act := acts[..|acts| - 1], acts[|acts| - 1];
    if pre == [] {
      assert act == acts[0] && Exec(m, acts) == m.(c := CEmpty(size));
    } else {
      DequeueReturns(m, pre, size);
      var e := Exec(m, pre);
      StepKeepsInv(e, act);
      if act.Consume? && !e.c.CIdle? { ConsumerGoesOn(e); }
      if act.Produce? && Enabled(e, act) { ProducerOnlyAdds(e); }
    }
  }

  // ---------- Enqueue ----------

  ghost predicate OneEnqueue(acts: seq<Action>, data: seq<Byte>, size: int) {
    && acts != [] && acts[0] == BeginEnqueue(data, size)
    && forall i :: 1 <= i < |acts| ==> !acts[i].BeginEnqueue?
  }

  /** Where an Enqueue of `size` bytes that began with `free0` free and `before` accepted can be. */
  predicate Accepts(m: Machine, free0: nat, data: seq<Byte>, size: int, before: seq<Byte>)
    requires Valid(m.ring)
  {
    match m.p
    case PIdle =>
      var k := |m.accepted| - |before|;
      && Transfer(size, free0) <= k <= Transfer(size, |m.ring.buf| - 1) && k <= |data|
      && m.accepted == before + data[..k]
    case PFull(d, s) => d == data && s == size && free0 <= Free(m.ring) && m.accepted == before
    case PFree(d, s) => d == data && s == size && free0 <= Free(m.ring) && m.accepted == before
    case PCopy(d, target, _, _) =>
      && d == data && Transfer(size, free0) <= Positive(target) <= Transfer(size, |m.ring.buf| - 1)
      && m.accepted == before
  }

  /** What the two checks of Enqueue compute. */
  lemma ChecksMean(r: Ring)
    requires Valid(r)
    ensures r.head == (r.tail + 1) % |r.buf| <==> Free(r) == 0
    ensures (r.head + |r.buf| - r.tail - 1) % |r.buf| == Free(r)
  {
    ModuloOnce(r.tail + 1, |r.buf|);
    ModuloOnce(r.head + |r.buf| - r.tail - 1, |r.buf|);
  }

  lemma PublishAccepts(m: Machine, free0: nat, data: seq<Byte>, size: int, before: seq<Byte>)
    requires Inv(m) && m.p.PCopy? && m.p.index >= m.p.target && Accepts(m, free0, data, size, before)
    ensures Valid(StepProducer(m).ring) && Accepts(StepProducer(m), free0, data, size, before)
  {
    PublishAppends(m);
    assert m.p.index == Positive(m.p.target) && StepProducer(m).accepted == before + data[..m.p.index];
  }

  lemma ProducerAccepts(m: Machine, free0: nat, data: seq<Byte>, size: int, before: seq<Byte>)
    requires Inv(m) && Enabled(m, Produce) && Accepts(m, free0, data, size, before)
    ensures Valid(StepProducer(m).ring) && Accepts(StepProducer(m), free0, data, size, before)
  {
    ChecksMean(m.ring);
    match m.p
    case PFull(_, _) => assert m.accepted == before + data[..0];
    case PFree(_, _) =>
    case PCopy(_, target, index, _) => if index >= target { PublishAccepts(m, free0, data, size, before); }
  }

  lemma ConsumerOnlyFrees(m: Machine)
    requires Inv(m) && Enabled(m, Consume)
    ensures var m' := StepConsumer(m);
      && m'.p == m.p && m'.accepted == m.accepted && |m'.ring.buf| == |m.ring.buf|
      && Valid(m'.ring) && Free(m.ring) <= Free(m'.ring)
  {
    ConsumerKeeps(m);
    if m.c.CCopy? && m.c.index >= m.c.target { ReleaseRemoves(m); }
  }

  lemma AcceptsStep(m: Machine, act: Action, free0: nat, data: seq<Byte>, size: int, before: seq<Byte>)
    requires Inv(m) && Accepts(m, free0, data, size, before) && !act.BeginEnqueue?
    ensures Inv(After(m, act)) && Accepts(After(m, act), free0, data, size, before)
  {
    StepKeepsInv(m, act);
    if Enabled(m, act) {
      if act.Produce? { ProducerAccepts(m, free0, data, size, before); }
      if act.Consume? { ConsumerOnlyFrees(m); }
    }
  }

  lemma {:induction false} RunAccepts(m: Machine, acts: seq<Action>, data: seq<Byte>, size: int)
    requires Inv(m) && m.p.PIdle? && OneEnqueue(acts, data, size) && size <= |data|
    ensures Inv(Exec(m, acts)) && Accepts(Exec(m, acts), Free(m.ring), data, size, m.accepted)
    decreases |acts|
  {
    var pre, act := acts[..|acts| - 1], acts[|acts| - 1];
    if pre == [] {
      assert Exec(m, acts) == m.(p := PFull(data, size));
    } else {
      RunAccepts(m, pre, data, size);
      AcceptsStep(Exec(m, pre), act, Free(m.ring), data, size, m.accepted);
    }
  }

  /** An Enqueue that has returned, whatever the consumer did meanwhile, has published the first bytes of
      its data: at least as many as were free at its call, at most what was asked for and the ring can hold. */
  lemma EnqueueAccepts(m: Machine, acts: seq<Action>, data: seq<Byte>, size: int)
    requires Inv(m) && m.p.PIdle? && OneEnqueue(acts, data, size) && size <= |data| && Exec(m, acts).p.PIdle?
    ensures var k := |Exec(m, acts).accepted| - |m.accepted|;
      && Transfer(size, Free(m.ring)) <= k <= Transfer(size, |m.ring.buf| - 1) && k <= |data|
      && Exec(m, acts).accepted == m.accepted + data[..k]
  {
    RunAccepts(m, acts, data, size);
    SizeNeverChanges(m, acts);
  }

  predicate AcceptsAlone(m: Machine, m0: Machine, data: seq<Byte>, size: int)
    requires Valid(m0.ring) && Transfer(size, Free(m0.ring)) <= |data|
  {
    var r0, n := m0.ring, Transfer(size, Free(m0.ring));
    && m.c == m0.c && m.delivered == m0.delivered
    && match m.p
       case PIdle => m.ring == Store(r0, data[..n])
       case PFull(d, s) => d == data && s == size && m.ring == r0
       case PFree(d, s) => d == data && s == size && m.ring == r0
       case PCopy(d, target, index, _) =>
         && d == data && Positive(target) == n && index <= n
         && m.ring.head == r0.head && m.ring.tail == r0.tail && |m.ring.buf| == |r0.buf|
         && forall j :: 0 <= j < |r0.buf| ==>
              m.ring.buf[j] == if Behind(r0, j) < index then data[Behind(r0, j)] else r0.buf[j]
  }

  lemma CopiesAlone(m: Machine, m0: Machine, data: seq<Byte>, size: int)
    requires Inv(m0) && Inv(m) && size <= |data| && AcceptsAlone(m, m0, data, size) && m.p.PCopy?
    requires m.p.index < m.p.target && Enabled(m, Produce)
    ensures AcceptsAlone(StepProducer(m), m0, data, size)
  {
    var r0, n := m0.ring, |m0.ring.buf|;
    assert m.p.temp == At(n, r0.tail, m.p.index) && Behind(r0, m.p.temp) == m.p.index;
    assert forall j :: 0 <= j < n && j != m.p.temp ==> Behind(r0, j) != m.p.index;
  }

  lemma PublishesAlone(m: Machine, m0: Machine, data: seq<Byte>, size: int)
    requires Inv(m0) && Inv(m) && size <= |data| && AcceptsAlone(m, m0, data, size) && m.p.PCopy?
    requires m.p.index >= m.p.target && Enabled(m, Produce)
    ensures AcceptsAlone(StepProducer(m), m0, data, size)
  {
    assert m.ring.buf == Store(m0.ring, data[..m.p.index]).buf;
  }

  lemma AcceptsAloneStep(m: Machine, m0: Machine, data: seq<Byte>, size: int)
    requires Inv(m0) && Inv(m) && size <= |data| && AcceptsAlone(m, m0, data, size)
    ensures Inv(After(m, Produce)) && AcceptsAlone(After(m, Produce), m0, data, size)
  {
    StepKeepsInv(m, Produce);
    ChecksMean(m0.ring);
    if m.p.PCopy? {
      AlwaysInBounds(m);
      if m.p.index < m.p.target { CopiesAlone(m, m0, data, size); } else { PublishesAlone(m, m0, data, size); }
    } else if Free(m0.ring) == 0 {
      assert Store(m0.ring, []).buf == m0.ring.buf;
    }
  }

  /** Alone, an Enqueue does on the ring what the sequential one does: it stores the first bytes, as many
      as were asked for and fit. */
  lemma {:induction false} EnqueueAloneIsStore(m: Machine, acts: seq<Action>, data: seq<Byte>, size: int)
    requires Inv(m) && m.p.PIdle? && AloneIn(acts, BeginEnqueue(data, size), Produce) && size <= |data|
    ensures Inv(Exec(m, acts)) && AcceptsAlone(Exec(m, acts), m, data, size)
    ensures Exec(m, acts).p.PIdle? ==> Exec(m, acts).ring == Store(m.ring, data[..Transfer(size, Free(m.ring))])
    decreases |acts|
  {
    var pre := acts[..|acts| - 1];
    if pre == [] {
      assert Exec(m, acts) == m.(p := PFull(data, size));
    } else {
      EnqueueAloneIsStore(m, pre, data, size);
      AcceptsAloneStep(Exec(m, pre), m, data, size);
    }
  }

  lemma ProducerGoesOn(m: Machine)
    requires Inv(m) && !m.p.PIdle?
    ensures Enabled(m, Produce) && |StepProducer(m).ring.buf| == |m.ring.buf|
    ensures StepsLeft(StepProducer(m).p, |m.ring.buf|) < StepsLeft(m.p, |m.ring.buf|)
  {
    AlwaysInBounds(m);
    ProducerKeeps(m);
    ChecksMean(m.ring);
  }

  /** Wait-free as well: at most bufferSize + 3 steps of its own. */
  lemma {:induction false} EnqueueReturns(m: Machine, acts: seq<Action>, data: seq<Byte>, size: int)
    requires Inv(m) && m.p.PIdle? && OneEnqueue(acts, data, size) && size <= |data|
    ensures Inv(Exec(m, acts)) && |Exec(m, acts).ring.buf| == |m.ring.buf|
    ensures !Exec(m, acts).p.PIdle? ==> StepsLeft(Exec(m, acts).p, |m.ring.buf|) + Count(acts, Produce) <= |m.ring.buf| + 3
    ensures |m.ring.buf| + 3 <= Count(acts, Produce) ==> Exec(m, acts).p.PIdle?
    decreases |acts|
  {
    var pre, act := acts[..|acts| - 1], acts[|acts| - 1];
    if pre == [] {
      assert act == acts[0] && Exec(m, acts) == m.(p := PFull(data, size));
    } else {
      EnqueueReturns(m, pre, data, size);
      var e := Exec(m, pre);
      StepKeepsInv(e, act);
      if act.Produce? && !e.p.PIdle? { ProducerGoesOn(e); }
      if act.Consume? && Enabled(e, act) { ConsumerOnlyFrees(e); }
    }
  }
}
