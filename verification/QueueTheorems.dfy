/** What the two queues guarantee over whole runs. */
module QueueTheorems {
  import opened Words
  import opened QueueMachine
  import opened QueueInvariant
  import opened QueueSteps
  import opened QueueGuard
  import opened QueueMemory
  import opened Journals
  import opened QueueJournal

  datatype State = State(m: Machine, h: History, j: Journal)

  function Begin(m: Machine): State {
    State(m, Start(m), BLANK)
  }

  /** The events lead to what the queue holds; a quantifier, so that it is unfolded on request only. */
  ghost predicate InOrder(h: History, j: Journal) {
    forall vs {:trigger QueueLeadsTo(j.events, vs)} :: vs == Contents(h) ==> QueueLeadsTo(j.events, vs)
  }

  ghost predicate Good(s: State) {
    Inv(s.m, s.h) && JournalOk(s.m, s.h, s.j) && InOrder(s.h, s.j)
  }

  lemma GoodOrder(s: State)
    requires Good(s)
    ensures ReplayQueue(s.j.events) == Some(Contents(s.h))
  {
    assert QueueLeadsTo(s.j.events, Contents(s.h));
  }

  /** One scheduled action; an action the machine or the allocator guard forbids changes nothing. */
  function After(s: State, act: Action): State {
    if Enabled(s.m, act) then State(Step(s.m, act), Record(s.m, s.h, act), Write(s.m, s.j, act)) else s
  }

  function Exec(s: State, acts: seq<Action>): State {
    if acts == [] then s else After(Exec(s, acts[..|acts| - 1]), acts[|acts| - 1])
  }

  /** In the run every CAS of tail, and every CAS of head among many consumers, comes while the node
      its thread saw is still there, or before its tag can be in use again. */
  ghost predicate ReachHeld(s: State, acts: seq<Action>) {
    acts == [] ||
    var before := Exec(s, acts[..|acts| - 1]);
    ReachHeld(s, acts[..|acts| - 1]) && CasInReach(before.m, before.h, acts[|acts| - 1])
  }

  /** In the run the allocator respects the full guard: it leaves alone every node a thread is
      looking at. */
  ghost predicate GuardHeld(s: State, acts: seq<Action>) {
    acts == [] ||
    var before, act := Exec(s, acts[..|acts| - 1]), acts[|acts| - 1];
    GuardHeld(s, acts[..|acts| - 1]) && (Enabled(before.m, act) ==> Guarded(before.m, act))
  }

  /** In the run the allocator leads no dequeuer out of its nodes. */
  ghost predicate TidyHeld(s: State, acts: seq<Action>) {
    acts == [] ||
    var before, act := Exec(s, acts[..|acts| - 1]), acts[|acts| - 1];
    TidyHeld(s, acts[..|acts| - 1]) && (Enabled(before.m, act) ==> Tidy(before.m, act))
  }

  lemma StepKeepsGood(s: State, act: Action)
    requires Good(s) && Enabled(s.m, act) && CasInReach(s.m, s.h, act)
    ensures Good(After(s, act))
  {
    StepKeeps(s.m, s.h, act);
    StepKeepsJournal(s.m, s.h, s.j, act);
    GoodOrder(s);
    StepKeepsOrder(s.m, s.h, s.j, act);
  }

  lemma {:induction false} RunKeepsInv(s: State, acts: seq<Action>)
    requires Good(s) && ReachHeld(s, acts)
    ensures Good(Exec(s, acts))
  {
    if acts != [] {
      RunKeepsInv(s, acts[..|acts| - 1]);
      var before, act := Exec(s, acts[..|acts| - 1]), acts[|acts| - 1];
      if Enabled(before.m, act) { StepKeepsGood(before, act); }
    }
  }

  /** Under the full guard the tags are not needed: every CAS is in reach. */
  lemma {:induction false} GuardedRunIsInReach(s: State, acts: seq<Action>)
    requires Good(s) && AllIntact(s.m, s.h) && GuardHeld(s, acts)
    ensures ReachHeld(s, acts) && AllIntact(Exec(s, acts).m, Exec(s, acts).h)
  {
    if acts != [] {
      GuardedRunIsInReach(s, acts[..|acts| - 1]);
      RunKeepsInv(s, acts[..|acts| - 1]);
      var before, act := Exec(s, acts[..|acts| - 1]), acts[|acts| - 1];
      if Enabled(before.m, act) {
        IntactIsInReach(before.m, before.h, act);
        GuardKeepsIntact(before.m, before.h, act);
      } else {
        DisabledIsInReach(before, act);
      }
    }
  }

  /** Then every address a thread goes through, at any moment of the run, is that of a node. */
  lemma {:induction false} RunKeepsSane(s: State, acts: seq<Action>)
    requires Good(s) && ReachHeld(s, acts) && AllSane(s.m) && TidyHeld(s, acts)
    ensures AllSane(Exec(s, acts).m) && TouchesNodes(Exec(s, acts).m)
  {
    RunKeepsInv(s, acts);
    if acts != [] {
      RunKeepsSane(s, acts[..|acts| - 1]);
      RunKeepsInv(s, acts[..|acts| - 1]);
      var before, act := Exec(s, acts[..|acts| - 1]), acts[|acts| - 1];
      if Enabled(before.m, act) { StepKeepsSane(before.m, before.h, act); }
    }
    SaneTouchesNodes(Exec(s, acts).m, Exec(s, acts).h);
  }

  lemma {:induction false} GuardedRunIsTidy(s: State, acts: seq<Action>)
    requires GuardHeld(s, acts)
    ensures TidyHeld(s, acts)
  {
    if acts != [] {
      GuardedRunIsTidy(s, acts[..|acts| - 1]);
      var before, act := Exec(s, acts[..|acts| - 1]), acts[|acts| - 1];
      if Enabled(before.m, act) { GuardedIsTidy(before.m, act); }
    }
  }

  lemma {:induction false} SoloRunIsTidy(s: State, acts: seq<Action>)
    requires Good(s) && ReachHeld(s, acts) && s.m.variant.SingleConsumer?
    ensures TidyHeld(s, acts) && Exec(s, acts).m.variant == s.m.variant
  {
    if acts != [] {
      SoloRunIsTidy(s, acts[..|acts| - 1]);
      RunKeepsInv(s, acts[..|acts| - 1]);
      var before, act := Exec(s, acts[..|acts| - 1]), acts[|acts| - 1];
      if Enabled(before.m, act) {
        SoloIsTidy(before.m, before.h, act);
        VariantStays(before.m, act);
      }
    }
  }

  lemma DisabledIsInReach(s: State, act: Action)
    requires Inv(s.m, s.h) && !Enabled(s.m, act)
    ensures CasInReach(s.m, s.h, act)
  {
  }

  lemma BeginGood(m: Machine)
    requires Init(m)
    ensures Good(Begin(m)) && AllIntact(m, Start(m))
  {
    InitInv(m);
    InitJournal(m);
    assert Contents(Start(m)) == [];
  }

  // ---------- the chain in memory ----------

  function Walk(m: Machine, w: Word, fuel: nat): (seq<Word>, Word)
    decreases fuel
  {
    if fuel == 0 || w.addr == NULL then ([], w) else
    var (rest, last) := Walk(m, Load(m, w.addr).next, fuel - 1);
    ([w] + rest, last)
  }

  function WordsOf(cells: seq<Cell>): (r: seq<Word>)
    ensures |r| == |cells| && forall i :: 0 <= i < |cells| ==> r[i] == WordOf(cells[i])
  {
    if cells == [] then [] else [WordOf(cells[0])] + WordsOf(cells[1..])
  }

  lemma {:induction false} WalkFrom(m: Machine, h: History, i: nat)
    requires Inv(m, h) && h.headPos <= i < |h.chain|
    ensures Walk(m, WordOf(h.chain[i]), |h.chain| - i) == (WordsOf(h.chain[i..]), ZERO)
    decreases |h.chain| - i
  {
    assert PosOk(m, h, i);
    SuccessorInMemory(m, h, i);
    assert h.chain[i..][1..] == h.chain[i + 1..];
    assert Load(m, h.chain[i].addr).next == NextWord(h.chain, i) && h.chain[i].addr != NULL;
    if i + 1 < |h.chain| {
      WalkFrom(m, h, i + 1);
    } else {
      assert Walk(m, ZERO, 0) == ([], ZERO);
    }
  }

  /** From head, memory holds one acyclic chain: it ends in null, meets no node twice, has no
      self-loop and no released node, and carries the queue's values. Tail is its last node or the
      one before, and head is at most one node past tail. */
  lemma ChainInMemory(m: Machine, h: History)
    requires Inv(m, h)
    ensures Walk(m, m.head, |h.chain| - h.headPos) == (WordsOf(h.chain[h.headPos..]), ZERO)
    ensures forall i, j :: h.headPos <= i < j < |h.chain| ==> h.chain[i].addr != h.chain[j].addr
    ensures forall i :: h.headPos <= i < |h.chain| ==>
      var a := h.chain[i].addr;
      a in m.heap && a !in m.free && m.heap[a].next.addr != a && m.heap[a].data == h.chain[i].value
    ensures m.tail == WordOf(h.chain[h.tailPos]) && |h.chain| - 2 <= h.tailPos < |h.chain|
    ensures m.head == WordOf(h.chain[h.headPos]) && h.headPos <= h.tailPos + 1
    ensures Load(m, m.tail.addr).next == NextWord(h.chain, h.tailPos)
  {
    WalkFrom(m, h, h.headPos);
    forall i | h.headPos <= i < |h.chain|
      ensures var a := h.chain[i].addr;
        a in m.heap && a !in m.free && m.heap[a].next.addr != a && m.heap[a].data == h.chain[i].value
    {
      LiveNode(m, h, i);
    }
    forall i, j | h.headPos <= i < j < |h.chain| ensures h.chain[i].addr != h.chain[j].addr {
      NoAddressTwice(m, h, i, j);
    }
    TailNode(m, h);
  }

  lemma NoAddressTwice(m: Machine, h: History, i: nat, j: nat)
    requires Inv(m, h) && h.headPos <= i < j < |h.chain|
    ensures h.chain[i].addr != h.chain[j].addr
  {
    assert PosOk(m, h, i) && PosOk(m, h, j);
  }

  /** Tail always leads to an intact node, even when head has overtaken it. */
  lemma TailNode(m: Machine, h: History)
    requires Inv(m, h)
    ensures Load(m, m.tail.addr).next == NextWord(h.chain, h.tailPos)
  {
    assert PosOk(m, h, h.tailPos);
    SuccessorInMemory(m, h, h.tailPos);
  }

  lemma LiveNode(m: Machine, h: History, i: nat)
    requires Inv(m, h) && h.headPos <= i < |h.chain|
    ensures var a := h.chain[i].addr;
      a in m.heap && a !in m.free && m.heap[a].next.addr != a && m.heap[a].data == h.chain[i].value
  {
    assert PosOk(m, h, i);
    SuccessorInMemory(m, h, i);
    assert PlaceOk(m, h, h.chain[i].addr);
    if i + 1 < |h.chain| { assert PosOk(m, h, i + 1); }
  }

  predicate EnqueuesNow(m: Machine, act: Action) {
    act.Run? && Enabled(m, act) && LinksNow(m, act.t)
  }

  predicate DequeuesNow(m: Machine, act: Action) {
    act.Run? && Enabled(m, act) && UnlinksNow(m, act.t)
  }

  /** As long as a linked node is not overwritten by the allocator, which takes a released node that
      neither tail holds nor a producer is about to link behind, its value never changes, and its
      `next` field at most once: from null, by the winning link CAS, while it is the last node and
      tail points at it. This covers removed nodes that tail or a thread still holds. */
  lemma NextChangesOnce(m: Machine, h: History, act: Action, i: nat)
    requires Inv(m, h) && Enabled(m, act) && i < |h.chain| && Intact(h, i)
    ensures var a, m' := h.chain[i].addr, Step(m, act);
      && a in m.heap && a in m'.heap
      && (act.Recycle? && act.node == a ==> |h.fate| == |h.chain| && h.fate[i].Released? && i != h.tailPos && Unpinned(m, a))
      && (!(act.Recycle? && act.node == a) ==>
           && m'.heap[a].data == m.heap[a].data
           && (m.heap[a].next != ZERO ==> m'.heap[a].next == m.heap[a].next)
           && (m'.heap[a].next != m.heap[a].next ==> EnqueuesNow(m, act) && i == h.tailPos == |h.chain| - 1))
  {
    var a := h.chain[i].addr;
    SuccessorInMemory(m, h, i);
    assert PlaceOk(m, h, a);
    if act.Run? {
      if Enqueuing(m.threads[act.t]) {
        EnqueueWrites(m, act.t, a);
        LocalBasics(m, h, act.t);
        if LinksNow(m, act.t) { LinkIsAtTail(m, h, act.t); SuccessorInMemory(m, h, h.tailPos); }
      } else {
        DequeueWritesNothing(m, act.t);
      }
    }
  }

  // ---------- refinement of a FIFO queue ----------

  /** Memory holds the values `vs`, front first, behind the dummy that `w` leads to. */
  ghost predicate MemoryHolds(m: Machine, w: Word, vs: seq<Value>)
    decreases |vs|
  {
    && w.addr in m.heap
    && var next := m.heap[w.addr].next;
       if vs == [] then next == ZERO else
       next.addr != NULL && next.addr in m.heap && m.heap[next.addr].data == vs[0] && MemoryHolds(m, next, vs[1..])
  }

  /** A list in memory holds one sequence of values only. */
  lemma {:induction false} HoldsOne(m: Machine, w: Word, vs: seq<Value>, ws: seq<Value>)
    requires MemoryHolds(m, w, vs) && MemoryHolds(m, w, ws)
    ensures vs == ws
    decreases |vs|
  {
    if vs != [] && ws != [] {
      HoldsOne(m, m.heap[w.addr].next, vs[1..], ws[1..]);
      assert vs == [vs[0]] + vs[1..] && ws == [ws[0]] + ws[1..];
    }
  }

  lemma {:induction false} HoldsFrom(m: Machine, h: History, i: nat)
    requires Inv(m, h) && h.headPos <= i < |h.chain|
    ensures MemoryHolds(m, WordOf(h.chain[i]), Values(h.chain[i + 1..]))
    decreases |h.chain| - i
  {
    assert PosOk(m, h, i);
    SuccessorInMemory(m, h, i);
    if i + 1 < |h.chain| {
      HoldsFrom(m, h, i + 1);
      LiveNode(m, h, i + 1);
      assert Values(h.chain[i + 1..])[1..] == Values(h.chain[i + 2..]);
    }
  }

  /** What the list from head holds is the abstract queue, and nothing else. */
  lemma HoldsExactly(m: Machine, h: History, vs: seq<Value>)
    requires Inv(m, h)
    ensures MemoryHolds(m, m.head, vs) <==> vs == Contents(h)
  {
    HoldsFrom(m, h, h.headPos);
    if MemoryHolds(m, m.head, vs) { HoldsOne(m, m.head, vs, Contents(h)); }
  }

  /** What a winning head CAS leaves its thread to read, or has let it read before. */
  predicate Obtains(m: Machine, act: Action, v: Value)
    requires DequeuesNow(m, act)
  {
    if m.threads[act.t].ManyCas? then m.threads[act.t].value == v
    else Load(Step(m, act), m.threads[act.t].next.addr).data == v
  }

  /** Every action is an enqueue at the back, a dequeue of the front, or nothing at all to the queue
      in memory: an enqueue exactly at a winning link CAS, a dequeue exactly at a winning head CAS,
      and then of the value the thread has copied or is about to read. */
  lemma {:induction false} StepRefines(m: Machine, h: History, act: Action, vs: seq<Value>)
    requires Inv(m, h) && Enabled(m, act) && CasInReach(m, h, act) && MemoryHolds(m, m.head, vs)
    ensures var m' := Step(m, act);
      if EnqueuesNow(m, act) then MemoryHolds(m', m'.head, vs + [m.threads[act.t].value])
      else if DequeuesNow(m, act) then vs != [] && MemoryHolds(m', m'.head, vs[1..]) && Obtains(m, act, vs[0])
      else MemoryHolds(m', m'.head, vs)
  {
    var m', h' := Step(m, act), Record(m, h, act);
    StepKeeps(m, h, act);
    HoldsExactly(m, h, vs);
    HoldsExactly(m', h', Contents(h'));
    ContentsStep(m, h, act);
  }

  lemma ContentsStep(m: Machine, h: History, act: Action)
    requires Inv(m, h) && Enabled(m, act) && CasInReach(m, h, act)
    ensures var q, q' := Contents(h), Contents(Record(m, h, act));
      if EnqueuesNow(m, act) then q' == q + [m.threads[act.t].value]
      else if DequeuesNow(m, act) then q != [] && q' == q[1..] && Obtains(m, act, q[0])
      else q' == q
  {
    if act.Run? {
      EventFits(m, h, act.t, 0);
      EventKind(m, act.t, 0);
      if UnlinksNow(m, act.t) { DequeueWritesNothing(m, act.t); }
    }
  }

  /** The value a dequeuer holds when it releases the old dummy, and returns, is the one its head
      CAS took from the front: the value of the node that became the new dummy. */
  lemma DequeueReturnsTheFront(m: Machine, h: History, t: Tid)
    requires Inv(m, h) && t in m.threads && Releases(m.threads[t])
    ensures var i := Seen(h, t);
      && 0 <= i < h.headPos && h.fate[i] == Removing(t)
      && m.threads[t].value == h.chain[i + 1].value
      && RecordDequeue(m, h, t).delivered == h.delivered + [Delivery(i + 1, m.threads[t].value)]
  {
    ReleaseFacts(m, h, t);
  }

  /** In `LockFreeQueue` the value read before the head CAS is the front whenever the CAS wins. */
  lemma PeekedValueIsFront(m: Machine, h: History, t: Tid)
    requires Inv(m, h) && UnlinksNow(m, t) && m.threads[t].ManyCas? && CasInReach(m, h, Run(t))
    ensures Contents(h) != [] && Contents(h)[0] == m.threads[t].value
    ensures DequeueStep(m, t).threads[t] == ManyFree(m.threads[t].oldHead, Contents(h)[0])
  {
    UnlinkIsAtHead(m, h, t);
  }

  ghost predicate BeingRemoved(m: Machine, h: History, t: Tid, p: nat) {
    t in m.threads && IsRemoving(m.threads[t]) && Seen(h, t) + 1 == p
  }

  ghost predicate HandedOver(h: History, k: nat, p: nat) {
    k < |h.delivered| && h.delivered[k].position == p
  }

  /** Exactly once: each position head has passed is delivered once, with the value linked there,
      or still in the hands of one dequeuer; positions ahead of head are neither. */
  lemma DequeuedExactlyOnce(m: Machine, h: History, p: nat)
    requires Inv(m, h) && 0 < p < |h.chain|
    ensures p <= h.headPos <==> (exists t :: BeingRemoved(m, h, t, p)) || (exists k: nat :: HandedOver(h, k, p))
    ensures forall t, u :: BeingRemoved(m, h, t, p) && BeingRemoved(m, h, u, p) ==> t == u
    ensures forall k: nat, l: nat :: HandedOver(h, k, p) && HandedOver(h, l, p) ==> k == l
    ensures forall t, k: nat :: !(BeingRemoved(m, h, t, p) && HandedOver(h, k, p))
    ensures forall k: nat :: HandedOver(h, k, p) ==> h.delivered[k].value == h.chain[p].value
  {
    assert PosOk(m, h, p - 1);
    var f := h.fate[p - 1];
    match f {
      case Live =>
      case Removing(t) => assert BeingRemoved(m, h, t, p);
      case Released(k) => assert HandedOver(h, k, p);
    }
    forall t | BeingRemoved(m, h, t, p) ensures f == Removing(t) { LocalBasics(m, h, t); }
    forall k: nat | HandedOver(h, k, p) ensures f == Released(k) && h.delivered[k].value == h.chain[p].value {
      assert DeliveredOk(h, k);
    }
  }

  /** A linearizable FIFO queue, with memory as the evidence: every call that has returned took
      effect once, at one event of its own between its start and its end, and answered with that
      event's value; the events in order are a legal history of a sequential queue, so that the
      values taken are a prefix of the values put; and memory holds exactly the rest. A Dequeue of
      `MPSCQueue` that returned -1 has such an event too, at which the queue was empty. */
  ghost predicate IsFifo(s: State) {
    && Linearized(s.j) && ReplayQueue(s.j.events).Some?
    && TookValues(s.j.events) <= PutValues(s.j.events)
    && MemoryHolds(s.m, s.m.head, PutValues(s.j.events)[|TookValues(s.j.events)|..])
  }

  lemma GoodIsFifo(s: State)
    requires Good(s)
    ensures IsFifo(s)
  {
    RightIsLinearized(s.j, Statuses(s.m, s.h));
    GoodOrder(s);
    ReplayIsFifo(s.j.events);
    HoldsExactly(s.m, s.h, Contents(s.h));
  }

  /** For any number of threads and any schedule, with the allocator under the small guard: only the
      node tail holds, and those a producer is about to link behind, are not reissued. The tags take
      care of all other points, and no thread goes through an address that is no node, as long as
      the allocator leads no dequeuer out of its nodes. */
  lemma {:induction false} RunIsFifo(m0: Machine, acts: seq<Action>)
    requires Init(m0) && ReachHeld(Begin(m0), acts) && TidyHeld(Begin(m0), acts)
    ensures IsFifo(Exec(Begin(m0), acts)) && TouchesNodes(Exec(Begin(m0), acts).m)
  {
    BeginGood(m0);
    BeginSane(m0);
    RunKeepsInv(Begin(m0), acts);
    RunKeepsSane(Begin(m0), acts);
    GoodIsFifo(Exec(Begin(m0), acts));
  }

  lemma BeginSane(m: Machine)
    requires Init(m)
    ensures AllSane(m)
  {
  }

  /** In `MPSCQueue` the allocator need not be asked for that: the one consumer reads only nodes that
      are not released. */
  lemma {:induction false} SoloRunIsFifo(m0: Machine, acts: seq<Action>)
    requires Init(m0) && m0.variant.SingleConsumer? && ReachHeld(Begin(m0), acts)
    ensures IsFifo(Exec(Begin(m0), acts)) && TouchesNodes(Exec(Begin(m0), acts).m)
  {
    BeginGood(m0);
    SoloRunIsTidy(Begin(m0), acts);
    RunIsFifo(m0, acts);
  }

  /** With the allocator under the full guard, whatever the tags: any number of increments, and no
      dequeuer with a reservation ever reads a null successor. */
  lemma {:induction false} GuardedRunIsFifo(m0: Machine, acts: seq<Action>)
    requires Init(m0) && GuardHeld(Begin(m0), acts)
    ensures IsFifo(Exec(Begin(m0), acts)) && TouchesNodes(Exec(Begin(m0), acts).m)
    ensures var m := Exec(Begin(m0), acts).m;
      m.variant.ManyConsumers? ==> forall t :: t in m.threads && m.threads[t].DeqNext? ==>
        Load(m, m.threads[t].oldHead.addr).next.addr != NULL
  {
    BeginGood(m0);
    GuardedRunIsInReach(Begin(m0), acts);
    GuardedRunIsTidy(Begin(m0), acts);
    RunIsFifo(m0, acts);
    RunKeepsInv(Begin(m0), acts);
    var s := Exec(Begin(m0), acts);
    forall t | t in s.m.threads && s.m.threads[t].DeqNext? && s.m.variant.ManyConsumers?
      ensures Load(s.m, s.m.threads[t].oldHead.addr).next.addr != NULL
    {
      assert HoldsIntact(s.m, s.h, t);
      ReservedSeesSuccessor(s.m, s.h, t);
    }
  }

  // ---------- what -1 means in LockFreeQueue ----------

  /** The successful reservations so far equal the completed count increments, as far as the sign of
      a 32-bit difference tells. */
  ghost predicate AllReserved(h: History) {
    (h.counted - h.reservations) % TWO32 == 0 || (h.counted - h.reservations) % TWO32 >= TWO31
  }

  /** `LockFreeQueue::Dequeue` returns -1 exactly when the completed count increments exceed the
      successful reservations by 0, modulo the 32-bit sign; below 2^31 elements, when they are equal. */
  lemma RefusedMeansAllReserved(m: Machine, h: History, t: Tid)
    requires Inv(m, h) && t in m.threads && m.threads[t].ManyCheck?
    ensures h.reservations <= h.counted
    ensures DequeueStep(m, t).threads[t] == Idle(Refused) <==> AllReserved(h)
    ensures h.counted < h.reservations + TWO31 ==>
      (DequeueStep(m, t).threads[t] == Idle(Refused) <==> h.counted == h.reservations)
  {
    assert LocalOk(m, h, t);
  }

  /** When a -1 means empty: the queue is empty at that moment exactly if no producer has linked
      without counting yet and no consumer has reserved without removing yet. */
  lemma RefusedMeansEmptyExactly(m: Machine, h: History, t: Tid)
    requires Inv(m, h) && t in m.threads && m.threads[t].ManyCheck? && Length(h) < TWO31
    requires DequeueStep(m, t).threads[t] == Idle(Refused)
    ensures Contents(h) == [] <==> h.linked == {} && h.reserved == {}
    ensures Contents(h) == [] <==>
      forall u :: u in m.threads ==> !AccountOf(m, m.threads[u]).Owes? && !AccountOf(m, m.threads[u]).Reserves?
  {
    assert LocalOk(m, h, t);
    ReservationsAreCovered(m, h);
    assert Contents(h) == [] <==> h.linked == {} && h.reserved == {};
    forall u | u in m.threads
      ensures (u in h.linked <==> AccountOf(m, m.threads[u]).Owes?) && (u in h.reserved <==> AccountOf(m, m.threads[u]).Reserves?)
    {
      assert LocalOk(m, h, u);
    }
    if forall u :: u in m.threads ==> !AccountOf(m, m.threads[u]).Owes? && !AccountOf(m, m.threads[u]).Reserves? {
      assert h.linked == {} && h.reserved == {};
    }
  }

  // ---------- counting ----------

  /** `LockFreeQueue`: count, reservations and uncounted links add up to the length, and the
      reservations never outrun the nodes after head. */
  lemma ReservationsAreCovered(m: Machine, h: History)
    requires Inv(m, h) && m.variant.ManyConsumers?
    ensures |h.reserved| + |h.linked| <= Length(h)
    ensures (m.count + |h.reserved| + |h.linked|) % TWO32 == Length(h) % TWO32
    ensures Length(h) < TWO31 ==> Signed32(m.count) == Length(h) - |h.reserved| - |h.linked|
  {
  }

  /** `MPSCQueue`: the signed view of count lies between the length minus the producers that have
      linked but not counted, and the length plus one; it is exact when nothing is in flight. */
  lemma SizeIsWithinWindow(m: Machine, h: History)
    requires Inv(m, h) && m.variant.SingleConsumer? && Length(h) < TWO31 - 1 && |h.linked| < TWO31
    ensures Signed32(m.count) == Length(h) - |h.linked| + |h.removed| && |h.removed| <= 1
    ensures Length(h) - |h.linked| <= Signed32(m.count) <= Length(h) + 1
  {
    SubsetOfOne(h.removed, m.variant.consumer);
    assert -TWO31 <= Balance(h) < TWO31;
  }

  /** With no call in flight nothing is uncounted, in either queue. */
  lemma QuietBooks(m: Machine, h: History)
    requires Inv(m, h) && forall t :: t in m.threads ==> m.threads[t].Idle?
    ensures h.linked == {} && h.reserved == {} && h.removed == {}
    ensures Length(h) < TWO31 - 1 ==> Signed32(m.count) == Length(h)
  {
    forall t | t in m.threads ensures t !in h.linked && t !in h.reserved && t !in h.removed { assert LocalOk(m, h, t); }
  }

  /** What the signed view of count says in any state: the length corrected by the calls in flight,
      modulo 2^32, and exactly that below 2^31 elements. */
  lemma SizeMeans(m: Machine, h: History)
    requires Inv(m, h)
    ensures var n, length := Signed32(m.count), |Contents(h)|;
      && -0x8000_0000 <= n < 0x8000_0000
      && (n - (length - |h.reserved| - |h.linked| + |h.removed|)) % 0x1_0000_0000 == 0
      && (m.variant.ManyConsumers? && length < TWO31 ==> n == length - |h.reserved| - |h.linked|)
      && (m.variant.SingleConsumer? && length < TWO31 - 1 && |h.linked| < TWO31 ==>
           n == length - |h.linked| + |h.removed| && |h.removed| <= 1)
      && ((forall t :: t in m.threads ==> m.threads[t].Idle?) && length < TWO31 - 1 ==> n == length)
    ensures forall t :: t in m.threads ==>
      && (t in h.linked <==> AccountOf(m, m.threads[t]).Owes?)
      && (t in h.reserved <==> AccountOf(m, m.threads[t]).Reserves?)
      && (t in h.removed <==> AccountOf(m, m.threads[t]).Overdraws?)
  {
    SignedOfWrapped(Balance(h));
    if m.variant.ManyConsumers? {
      ReservationsAreCovered(m, h);
    } else if Length(h) < TWO31 - 1 && |h.linked| < TWO31 {
      SizeIsWithinWindow(m, h);
    }
    if forall t :: t in m.threads ==> m.threads[t].Idle? { QuietBooks(m, h); }
    forall t | t in m.threads ensures LocalOk(m, h, t) { assert LocalOk(m, h, t); }
  }

  lemma SubsetOfOne(s: set<Tid>, t: Tid)
    requires s <= {t}
    ensures |s| <= 1
  {
    if t in s { assert s == {t}; } else { assert s == {}; }
  }
}
