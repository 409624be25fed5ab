/** What happens to the queues outside the allocator guard, and one surprise inside it. */
module QueueScenarios {
  import opened Words
  import opened QueueMachine
  import opened QueueInvariant
  import opened QueueSteps
  import opened QueueMemory
  import opened QueueTheorems

  /** `acts` leads from `s0` to `s`, under the allocator guard, with every CAS in reach and a tidy
      allocator. */
  ghost predicate Leads(s0: State, acts: seq<Action>, s: State) {
    ReachHeld(s0, acts) && TidyHeld(s0, acts) && Exec(s0, acts) == s
  }

  lemma Extend(s0: State, acts: seq<Action>, s: State, act: Action) returns (acts': seq<Action>, s': State)
    requires Leads(s0, acts, s) && Enabled(s.m, act) && CasInReach(s.m, s.h, act) && !act.Recycle?
    ensures Leads(s0, acts', s') && s'.m == Step(s.m, act) && s'.h == Record(s.m, s.h, act)
  {
    acts', s' := acts + [act], After(s, act);
    assert acts'[..|acts|] == acts;
  }

  /** `n` steps of thread `t`, alone. */
  function Alone(m: Machine, t: Tid, n: nat): Machine
    requires t in m.threads && !m.threads[t].Idle?
    decreases n
  {
    if n == 0 then m else
    var m' := Step(m, Run(t));
    if t in m'.threads && !m'.threads[t].Idle? then Alone(m', t, n - 1) else m'
  }

  /** Reissuing the node that `tail` still holds is exactly what ties a node to itself: in every
      reachable state and whatever the guard says, an Enqueue that is handed the released node `a`
      and runs alone to the end of its first loop pass makes `a` its own successor if and only if
      `a` is the node `tail` points at. */
  lemma SelfLoopExactlyWhenTailIsReissued(m: Machine, h: History, t: Tid, v: Value, a: Addr)
    requires Inv(m, h) && Callable(m, BeginEnqueue(t, v, a))
    ensures Load(Alone(Step(m, BeginEnqueue(t, v, a)), t, 6), a).next.addr == a <==> a == m.tail.addr
    ensures a == m.tail.addr ==> Alone(Step(m, BeginEnqueue(t, v, a)), t, 6).tail == m.tail
  {
    var m0 := Step(m, BeginEnqueue(t, v, a));
    var m1 := Step(m0, Run(t));
    var m2 := Step(m1, Run(t));
    var m3 := Step(m2, Run(t));
    var m4 := Step(m3, Run(t));
    var m5 := Step(m4, Run(t));
    var m6 := Step(m5, Run(t));
    assert m3.threads[t].EnqTail? && m3.heap[a] == Node(ZERO, v);
    assert m4.threads[t].EnqNext? && m4.threads[t].oldTail == m.tail;
    assert Alone(m3, t, 3) == m6 by {
      assert Alone(m5, t, 1) == m6;
      assert Alone(m4, t, 2) == m6;
    }
    assert Alone(m0, t, 6) == m6 by {
      assert Alone(m2, t, 4) == m6;
      assert Alone(m1, t, 5) == m6;
    }
    if a == m.tail.addr {
      assert m5.threads[t].EnqLink?;
    } else {
      assert m6.heap[a] == Node(ZERO, v);
    }
  }

  // ---------- calls, alone ----------

  /** The start of an Enqueue by `t`, up to its read of tail. */
  lemma EnqueueUpToLook(s0: State, acts: seq<Action>, s: State, t: Tid, v: Value, a: Addr)
    returns (acts': seq<Action>, s': State)
    requires Leads(s0, acts, s) && Enabled(s.m, BeginEnqueue(t, v, a)) && a in s.m.heap
    ensures Leads(s0, acts', s')
    ensures var index := (s.m.index + 1) % TWO64;
      s'.m == s.m.(index := index, free := s.m.free - {a}, heap := s.m.heap[a := Node(ZERO, v)],
                   threads := s.m.threads[t := EnqNext(a, v, Word(Tag(index), a), s.m.tail)])
    ensures s'.h == Look(TakeStamp(s.h.(place := s.h.place[a := Hand(t)]), t, a), t, s.h.tailPos)
  {
    acts', s' := Extend(s0, acts, s, BeginEnqueue(t, v, a));
    acts', s' := Extend(s0, acts', s', Run(t));
    acts', s' := Extend(s0, acts', s', Run(t));
    acts', s' := Extend(s0, acts', s', Run(t));
    acts', s' := Extend(s0, acts', s', Run(t));
  }

  /** The pass of its loop that links. */
  lemma LinkAlone(s0: State, acts: seq<Action>, s: State, t: Tid)
    returns (acts': seq<Action>, s': State)
    requires Leads(s0, acts, s) && t in s.m.threads && s.m.threads[t].EnqNext?
    requires Load(s.m, s.m.threads[t].oldTail.addr).next == ZERO
    ensures Leads(s0, acts', s')
    ensures var l := s.m.threads[t]; var b := l.oldTail.addr;
      && s'.m == s.m.(heap := s.m.heap[b := Load(s.m, b).(next := l.word)], threads := s.m.threads[t := EnqSwing(l.word, l.oldTail)])
      && s'.h == RecordLink(s.h, t, Cell(l.node, MyStamp(s.h, t), l.value))
  {
    acts', s' := Extend(s0, acts, s, Run(t));
    acts', s' := Extend(s0, acts', s', Run(t));
  }

  /** The end of an Enqueue, with tail still where it was read. */
  lemma SwingAlone(s0: State, acts: seq<Action>, s: State, t: Tid)
    returns (acts': seq<Action>, s': State)
    requires Leads(s0, acts, s) && t in s.m.threads && s.m.threads[t].EnqSwing? && s.m.tail == s.m.threads[t].oldTail
    requires InReach(s.h, Seen(s.h, t))
    ensures Leads(s0, acts', s')
    ensures s'.m == s.m.(tail := s.m.threads[t].word, count := (s.m.count + 1) % TWO32, threads := s.m.threads[t := Idle(Enqueued)])
    ensures s'.h.chain == s.h.chain && s'.h.headPos == s.h.headPos && s'.h.stamps == s.h.stamps
    ensures s'.h.tailPos == s.h.tailPos + 1 && s'.h.seen == s.h.seen && s'.h.place == s.h.place
  {
    acts', s' := Extend(s0, acts, s, Run(t));
    acts', s' := Extend(s0, acts', s', Run(t));
  }

  /** A whole Enqueue by `t`, alone, with tail on the last node. */
  lemma EnqueueAlone(s0: State, acts: seq<Action>, s: State, t: Tid, v: Value, a: Addr)
    returns (acts': seq<Action>, s': State)
    requires Leads(s0, acts, s) && Enabled(s.m, BeginEnqueue(t, v, a)) && a in s.m.heap
    requires s.m.tail.addr in s.m.heap && s.m.heap[s.m.tail.addr].next == ZERO
    requires s.h.tailPos < |s.h.chain| && |s.h.stamps| < s.h.chain[s.h.tailPos].stamp + TAGS
    ensures Leads(s0, acts', s')
    ensures var index := (s.m.index + 1) % TWO64;
      var w := Word(Tag(index), a);
      s'.m == s.m.(index := index, tail := w, count := (s.m.count + 1) % TWO32, free := s.m.free - {a},
                   heap := s.m.heap[a := Node(ZERO, v)][s.m.tail.addr := s.m.heap[s.m.tail.addr].(next := w)],
                   threads := s.m.threads[t := Idle(Enqueued)])
    ensures s'.h.chain == s.h.chain + [Cell(a, |s.h.stamps|, v)] && |s'.h.stamps| == |s.h.stamps| + 1
    ensures s'.h.headPos == s.h.headPos && s'.h.tailPos == s.h.tailPos + 1
    ensures s'.h.seen == s.h.seen[t := s.h.tailPos] && s'.h.place == s.h.place[a := At(|s.h.chain|)]
  {
    acts', s' := EnqueueUpToLook(s0, acts, s, t, v, a);
    acts', s' := LinkAlone(s0, acts', s', t);
    acts', s' := SwingAlone(s0, acts', s', t);
  }

  /** A Dequeue by the one consumer, up to its head CAS. */
  lemma UnlinkAlone(s0: State, acts: seq<Action>, s: State, t: Tid)
    returns (acts': seq<Action>, s': State)
    requires Leads(s0, acts, s) && Enabled(s.m, BeginDequeue(t)) && s.m.variant.SingleConsumer?
    requires Load(s.m, s.m.head.addr).next.addr != NULL
    ensures Leads(s0, acts', s')
    ensures var next := Load(s.m, s.m.head.addr).next;
      s'.m == s.m.(head := next, threads := s.m.threads[t := SoloData(s.m.head, next)])
    ensures s'.h.chain == s.h.chain && s'.h.tailPos == s.h.tailPos && s'.h.stamps == s.h.stamps
    ensures s'.h.seen == s.h.seen[t := s.h.headPos]
  {
    acts', s' := Extend(s0, acts, s, BeginDequeue(t));
    acts', s' := Extend(s0, acts', s', Run(t));
    acts', s' := Extend(s0, acts', s', Run(t));
    acts', s' := Extend(s0, acts', s', Run(t));
  }

  /** The end of that Dequeue. */
  lemma ReleaseAlone(s0: State, acts: seq<Action>, s: State, t: Tid)
    returns (acts': seq<Action>, s': State)
    requires Leads(s0, acts, s) && t in s.m.threads && s.m.threads[t].SoloData?
    ensures Leads(s0, acts', s')
    ensures var l := s.m.threads[t];
      s'.m == s.m.(free := s.m.free + {l.oldHead.addr}, count := (s.m.count - 1) % TWO32,
                   threads := s.m.threads[t := Idle(Got(Load(s.m, l.next.addr).data))])
    ensures s'.h.chain == s.h.chain && s'.h.tailPos == s.h.tailPos && s'.h.stamps == s.h.stamps && s'.h.seen == s.h.seen
  {
    acts', s' := Extend(s0, acts, s, Run(t));
    acts', s' := Extend(s0, acts', s', Run(t));
    acts', s' := Extend(s0, acts', s', Run(t));
  }

  // ---------- head past tail, and the self-loop ----------

  const PRODUCER: Tid := 0
  const CONSUMER: Tid := 1

  /** A dummy node 1 and a spare node 2; a producer, a consumer and an idle third thread. */
  function Opening(variant: Variant): Machine {
    var blank := Node(ZERO, 0);
    Machine(variant, Word(0, 1), Word(0, 1), 0, 0, map[1 := blank, 2 := blank], {2},
            map[PRODUCER := Idle(Ready), CONSUMER := Idle(Ready), 2 := Idle(Ready)])
  }

  /** The producer links node 2 and is about to swing tail. */
  lemma LinkedNotSwung(variant: Variant, v: Value) returns (acts: seq<Action>, s: State)
    ensures Init(Opening(variant))
    ensures Leads(Begin(Opening(variant)), acts, s)
    ensures s.m == Opening(variant).(
      index := 1, free := {}, heap := map[1 := Node(Word(1, 2), 0), 2 := Node(ZERO, v)],
      threads := Opening(variant).threads[PRODUCER := EnqSwing(Word(1, 2), Word(0, 1))])
    ensures s.h.chain == [Cell(1, 0, 0), Cell(2, 1, v)] && s.h.headPos == 0 && s.h.tailPos == 0
  {
    var s0 := Begin(Opening(variant));
    acts, s := [], s0;
    acts, s := EnqueueUpToLook(s0, acts, s, PRODUCER, v, 2);
    acts, s := LinkAlone(s0, acts, s, PRODUCER);
  }

  /** The consumer moves head past the producer's unswung tail ... */
  lemma HeadOvertakesTail(v: Value) returns (acts: seq<Action>, s: State)
    ensures Init(Opening(SingleConsumer(CONSUMER))) && Leads(Begin(Opening(SingleConsumer(CONSUMER))), acts, s)
    ensures s.m.tail == Word(0, 1) && s.m.head == Word(1, 2) && s.m.free == {} && s.m.heap.Keys == {1, 2}
    ensures s.m.threads == map[PRODUCER := EnqSwing(Word(1, 2), Word(0, 1)),
                               CONSUMER := SoloData(Word(0, 1), Word(1, 2)), 2 := Idle(Ready)]
  {
    acts, s := LinkedNotSwung(SingleConsumer(CONSUMER), v);
    acts, s := UnlinkAlone(Begin(Opening(SingleConsumer(CONSUMER))), acts, s, CONSUMER);
  }

  /** ... and releases the node tail still points at. So the guard is needed: the third thread's
      Enqueue, handed that node, would end the list in a self-loop. */
  lemma {:induction false} SelfLoopWithoutGuard(v: Value, w: Value) returns (acts: seq<Action>, s: State)
    ensures Leads(Begin(Opening(SingleConsumer(CONSUMER))), acts, s)
    ensures Inv(s.m, s.h) && s.m.tail.addr in s.m.free
    ensures Callable(s.m, BeginEnqueue(2, w, s.m.tail.addr)) && !Enabled(s.m, BeginEnqueue(2, w, s.m.tail.addr))
    ensures var m' := Alone(Step(s.m, BeginEnqueue(2, w, s.m.tail.addr)), 2, 6);
      Load(m', m'.tail.addr).next.addr == m'.tail.addr
  {
    var s0 := Begin(Opening(SingleConsumer(CONSUMER)));
    acts, s := HeadOvertakesTail(v);
    acts, s := ReleaseAlone(s0, acts, s, CONSUMER);
    BeginGood(s0.m);
    RunKeepsInv(s0, acts);
    SelfLoopExactlyWhenTailIsReissued(s.m, s.h, 2, w, 1);
  }

  /** `LockFreeQueue::Dequeue` may return -1 while the queue holds an element: the link is done,
      the count is not. So -1 is not a linearizable "empty" there. */
  lemma RefusedWhileNotEmpty(v: Value) returns (acts: seq<Action>, s: State)
    ensures Leads(Begin(Opening(ManyConsumers)), acts, s)
    ensures Inv(s.m, s.h) && MemoryHolds(s.m, s.m.head, [v])
    ensures CONSUMER in s.m.threads && s.m.threads[CONSUMER] == Idle(Refused)
  {
    var s0 := Begin(Opening(ManyConsumers));
    acts, s := LinkedNotSwung(ManyConsumers, v);
    acts, s := Extend(s0, acts, s, BeginDequeue(CONSUMER));
    acts, s := Extend(s0, acts, s, Run(CONSUMER));
    BeginGood(s0.m);
    RunKeepsInv(s0, acts);
  }

  // ---------- why a node must not be reissued under a producer that links behind it ----------

  const VICTIM: Tid := 2
  const OTHER: Tid := 3

  /** A dummy node 1 and two spare ones; two more producers. */
  function Wide(): Machine {
    var blank := Node(ZERO, 0);
    Machine(SingleConsumer(CONSUMER), Word(0, 1), Word(0, 1), 0, 0, map[1 := blank, 2 := blank, 3 := blank], {2, 3},
            map[PRODUCER := Idle(Ready), CONSUMER := Idle(Ready), VICTIM := Idle(Ready), OTHER := Idle(Ready)])
  }

  lemma WideIsInit()
    ensures Init(Wide())
  {
  }

  /** The point the victim has reached: about to read the successor of node 1, or just past that. */
  function VictimAt(v: Value, atLink: bool): Local {
    if atLink then EnqLink(3, v, Word(1, 3), Word(0, 1), ZERO) else EnqNext(3, v, Word(1, 3), Word(0, 1))
  }

  /** The victim has read tail, and perhaps the null successor of the node it found there. */
  lemma VictimLooks(v: Value, atLink: bool) returns (acts: seq<Action>, s: State)
    ensures Leads(Begin(Wide()), acts, s)
    ensures s.m == Wide().(index := 1, free := {2}, heap := Wide().heap[3 := Node(ZERO, v)],
                           threads := Wide().threads[VICTIM := VictimAt(v, atLink)])
    ensures s.h.tailPos == 0 && |s.h.stamps| == 2 && |s.h.chain| == 1
  {
    WideIsInit();
    acts, s := [], Begin(Wide());
    acts, s := EnqueueUpToLook(Begin(Wide()), acts, s, VICTIM, v, 3);
    if atLink { acts, s := Extend(Begin(Wide()), acts, s, Run(VICTIM)); }
  }

  lemma NodeTwoIsReady(v: Value, w: Value, atLink: bool) returns (acts: seq<Action>, s: State)
    ensures Leads(Begin(Wide()), acts, s)
    ensures s.m == Wide().(index := 2, free := {}, heap := Wide().heap[3 := Node(ZERO, v)][2 := Node(ZERO, w)],
      threads := Wide().threads[VICTIM := VictimAt(v, atLink)][PRODUCER := EnqNext(2, w, Word(2, 2), Word(0, 1))])
    ensures |s.h.stamps| == 3 && Seen(s.h, PRODUCER) == 0 < |s.h.chain|
  {
    acts, s := VictimLooks(v, atLink);
    acts, s := EnqueueUpToLook(Begin(Wide()), acts, s, PRODUCER, w, 2);
  }

  lemma NodeTwoIsBehind(v: Value, w: Value, atLink: bool) returns (acts: seq<Action>, s: State)
    ensures Leads(Begin(Wide()), acts, s)
    ensures s.m.variant == SingleConsumer(CONSUMER) && s.m.head == s.m.tail == Word(0, 1)
    ensures s.m.free == {} && s.m.count == 0
    ensures s.m.heap == map[1 := Node(Word(2, 2), 0), 2 := Node(ZERO, w), 3 := Node(ZERO, v)]
    ensures s.m.threads == map[PRODUCER := EnqSwing(Word(2, 2), Word(0, 1)), CONSUMER := Idle(Ready),
                               VICTIM := VictimAt(v, atLink), OTHER := Idle(Ready)]
    ensures |s.h.stamps| == 3 && Seen(s.h, PRODUCER) == 0 < |s.h.chain|
  {
    acts, s := NodeTwoIsReady(v, w, atLink);
    acts, s := LinkAlone(Begin(Wide()), acts, s, PRODUCER);
  }

  /** Another producer enqueues node 2 ... */
  lemma NodeTwoIsLinked(v: Value, w: Value, atLink: bool) returns (acts: seq<Action>, s: State)
    ensures Leads(Begin(Wide()), acts, s)
    ensures s.m.variant == SingleConsumer(CONSUMER) && s.m.head == Word(0, 1) && s.m.tail == Word(2, 2)
    ensures s.m.free == {} && s.m.count == 1
    ensures s.m.heap == map[1 := Node(Word(2, 2), 0), 2 := Node(ZERO, w), 3 := Node(ZERO, v)]
    ensures s.m.threads == map[PRODUCER := Idle(Enqueued), CONSUMER := Idle(Ready),
                               VICTIM := VictimAt(v, atLink), OTHER := Idle(Ready)]
  {
    acts, s := NodeTwoIsBehind(v, w, atLink);
    acts, s := SwingAlone(Begin(Wide()), acts, s, PRODUCER);
  }

  /** ... and the consumer takes it, releasing node 1. */
  lemma NodeOneIsReleased(v: Value, w: Value, atLink: bool) returns (acts: seq<Action>, s: State)
    ensures Leads(Begin(Wide()), acts, s)
    ensures s.m.head == s.m.tail == Word(2, 2) && s.m.free == {1} && s.m.count == 0
    ensures s.m.heap == map[1 := Node(Word(2, 2), 0), 2 := Node(ZERO, w), 3 := Node(ZERO, v)]
    ensures s.m.threads == map[PRODUCER := Idle(Enqueued), CONSUMER := Idle(Got(w)),
                               VICTIM := VictimAt(v, atLink), OTHER := Idle(Ready)]
  {
    acts, s := NodeTwoIsLinked(v, w, atLink);
    acts, s := UnlinkAlone(Begin(Wide()), acts, s, CONSUMER);
    acts, s := ReleaseAlone(Begin(Wide()), acts, s, CONSUMER);
  }

  /** Now tail is on node 2, so node 1 is not the tail's; but if it is handed to another Enqueue that
      nulls its successor, the victim links behind it. Its Enqueue returns, nobody took its value, and
      the queue in memory is empty: the value is lost. So the guard needs both program points,
      between the read of tail and the read of the successor and between that and the link CAS. */
  lemma LostWithoutPin(v: Value, w: Value, x: Value, atLink: bool)
    returns (acts: seq<Action>, s: State, m1: Machine, m2: Machine)
    ensures Init(Wide()) && Leads(Begin(Wide()), acts, s)
    ensures VICTIM in s.m.threads && s.m.threads[VICTIM] == VictimAt(v, atLink)
    ensures Callable(s.m, BeginEnqueue(OTHER, x, 1)) && s.m.tail.addr != 1 && !Unpinned(s.m, 1)
    ensures m1 == Alone(Step(s.m, BeginEnqueue(OTHER, x, 1)), OTHER, 2)
    ensures VICTIM in m1.threads && !m1.threads[VICTIM].Idle?
    ensures m2 == Alone(m1, VICTIM, if atLink then 3 else 4)
    ensures m2.threads == map[PRODUCER := Idle(Enqueued), CONSUMER := Idle(Got(w)),
                              VICTIM := Idle(Enqueued), OTHER := EnqTag(1, x)]
    ensures MemoryHolds(m2, m2.head, [])
  {
    WideIsInit();
    acts, s := NodeOneIsReleased(v, w, atLink);
    m1, m2 := ReissueLoses(s.m, v, w, x, atLink);
  }

  lemma ReissueLoses(m: Machine, v: Value, w: Value, x: Value, atLink: bool) returns (m1: Machine, m2: Machine)
    requires m.head == m.tail == Word(2, 2) && m.free == {1}
    requires m.heap == map[1 := Node(Word(2, 2), 0), 2 := Node(ZERO, w), 3 := Node(ZERO, v)]
    requires m.threads == map[PRODUCER := Idle(Enqueued), CONSUMER := Idle(Got(w)),
                              VICTIM := VictimAt(v, atLink), OTHER := Idle(Ready)]
    ensures Callable(m, BeginEnqueue(OTHER, x, 1)) && !Unpinned(m, 1)
    ensures m1 == Alone(Step(m, BeginEnqueue(OTHER, x, 1)), OTHER, 2)
    ensures VICTIM in m1.threads && !m1.threads[VICTIM].Idle?
    ensures m2 == Alone(m1, VICTIM, if atLink then 3 else 4)
    ensures m2.threads == map[PRODUCER := Idle(Enqueued), CONSUMER := Idle(Got(w)),
                              VICTIM := Idle(Enqueued), OTHER := EnqTag(1, x)]
    ensures MemoryHolds(m2, m2.head, [])
  {
    assert Pinning(m.threads[VICTIM]) == Some(Word(0, 1));
    m1 := Reissued(m, x);
    m2 := VictimLosesItsNode(m1, v, w, x, atLink);
  }

  /** Node 1 in the hands of the other producer, with its successor nulled. */
  lemma Reissued(m: Machine, x: Value) returns (m1: Machine)
    requires 1 in m.free && 1 in m.heap && OTHER in m.threads && m.threads[OTHER].Idle?
    ensures m1 == Alone(Step(m, BeginEnqueue(OTHER, x, 1)), OTHER, 2)
    ensures m1 == m.(free := m.free - {1}, heap := m.heap[1 := Node(ZERO, x)], threads := m.threads[OTHER := EnqTag(1, x)])
  {
    var a := Step(m, BeginEnqueue(OTHER, x, 1));
    var b := Step(a, Run(OTHER));
    m1 := Step(b, Run(OTHER));
    assert Alone(b, OTHER, 1) == m1;
  }

  lemma VictimLosesItsNode(m: Machine, v: Value, w: Value, x: Value, atLink: bool) returns (m4: Machine)
    requires m.head == m.tail == Word(2, 2) && VICTIM in m.threads && m.threads[VICTIM] == VictimAt(v, atLink)
    requires m.heap == map[1 := Node(ZERO, x), 2 := Node(ZERO, w), 3 := Node(ZERO, v)]
    ensures m4 == Alone(m, VICTIM, if atLink then 3 else 4)
    ensures m4.threads == m.threads[VICTIM := Idle(Enqueued)] && MemoryHolds(m4, m4.head, [])
  {
    var m1 := if atLink then m else Step(m, Run(VICTIM));
    var m2 := Step(m1, Run(VICTIM));
    var m3 := Step(m2, Run(VICTIM));
    m4 := Step(m3, Run(VICTIM));
    assert m1.threads[VICTIM] == VictimAt(v, true);
    assert m2.threads[VICTIM] == EnqSwing(Word(1, 3), Word(0, 1));
    assert Alone(m2, VICTIM, 2) == m4 by { assert Alone(m3, VICTIM, 1) == m4; }
    assert Alone(m1, VICTIM, 3) == m4;
  }

  /** And that is a moment at which a thread goes through a node that is released: in the state before,
      the victim's next step reads or compares the successor of node 1. Where releasing means
      giving the memory up for good, as `delete` does, that step is undefined. */
  lemma VictimTouchesReleased(v: Value, w: Value, atLink: bool) returns (acts: seq<Action>, s: State)
    ensures Init(Wide()) && Leads(Begin(Wide()), acts, s)
    ensures VICTIM in s.m.threads && Touches(s.m.threads[VICTIM]) == Some(1) && 1 in s.m.free
  {
    WideIsInit();
    acts, s := NodeOneIsReleased(v, w, atLink);
  }

  // ---------- why the allocator must be tidy ----------

  /** The start of a Dequeue of `LockFreeQueue`, up to its read of head. */
  lemma ReserveAndLook(s0: State, acts: seq<Action>, s: State, t: Tid)
    returns (acts': seq<Action>, s': State)
    requires Leads(s0, acts, s) && Enabled(s.m, BeginDequeue(t)) && s.m.variant.ManyConsumers? && 0 < s.m.count < TWO31
    ensures Leads(s0, acts', s')
    ensures s'.m == s.m.(count := s.m.count - 1, threads := s.m.threads[t := DeqNext(s.m.head)])
    ensures s'.h == Look(RecordReserve(s.h, t), t, s.h.headPos)
  {
    acts', s' := ReserveAlone(s0, acts, s, t);
    acts', s' := Extend(s0, acts', s', Run(t));
  }

  lemma ReserveAlone(s0: State, acts: seq<Action>, s: State, t: Tid)
    returns (acts': seq<Action>, s': State)
    requires Leads(s0, acts, s) && Enabled(s.m, BeginDequeue(t)) && s.m.variant.ManyConsumers? && 0 < s.m.count < TWO31
    ensures Leads(s0, acts', s') && s'.h == RecordReserve(s.h, t)
    ensures s'.m == s.m.(count := s.m.count - 1, threads := s.m.threads[t := DeqHead])
  {
    acts', s' := Extend(s0, acts, s, BeginDequeue(t));
    acts', s' := Extend(s0, acts', s', Run(t));
    acts', s' := Extend(s0, acts', s', Run(t));
  }

  /** The rest of it, with head still where it was read. */
  lemma TakeAlone(s0: State, acts: seq<Action>, s: State, t: Tid)
    returns (acts': seq<Action>, s': State)
    requires Leads(s0, acts, s) && t in s.m.threads && s.m.threads[t] == DeqNext(s.m.head) && s.m.variant.ManyConsumers?
    requires Load(s.m, s.m.head.addr).next.addr != NULL && InReach(s.h, Seen(s.h, t))
    ensures Leads(s0, acts', s')
    ensures var next := Load(s.m, s.m.head.addr).next;
      s'.m == s.m.(head := next, free := s.m.free + {s.m.head.addr},
                   threads := s.m.threads[t := Idle(Got(Load(s.m, next.addr).data))])
  {
    acts', s' := PeekAlone(s0, acts, s, t);
    acts', s' := Extend(s0, acts', s', Run(t));
    acts', s' := Extend(s0, acts', s', Run(t));
  }

  /** Its two reads. */
  lemma PeekAlone(s0: State, acts: seq<Action>, s: State, t: Tid)
    returns (acts': seq<Action>, s': State)
    requires Leads(s0, acts, s) && t in s.m.threads && s.m.threads[t] == DeqNext(s.m.head) && s.m.variant.ManyConsumers?
    requires Load(s.m, s.m.head.addr).next.addr != NULL
    ensures Leads(s0, acts', s') && s'.h == s.h
    ensures var next := Load(s.m, s.m.head.addr).next;
      s'.m == s.m.(threads := s.m.threads[t := ManyCas(s.m.head, next, Load(s.m, next.addr).data)])
  {
    acts', s' := Extend(s0, acts, s, Run(t));
    acts', s' := Extend(s0, acts', s', Run(t));
  }

  /** A dummy node 1 and two spare ones; a producer, a consumer and a second consumer. */
  function Shared(): Machine {
    var blank := Node(ZERO, 0);
    Machine(ManyConsumers, Word(0, 1), Word(0, 1), 0, 0, map[1 := blank, 2 := blank, 3 := blank], {2, 3},
            map[PRODUCER := Idle(Ready), CONSUMER := Idle(Ready), VICTIM := Idle(Ready)])
  }

  lemma SharedIsInit()
    ensures Init(Shared())
  {
  }

  lemma OneValue(v: Value) returns (acts: seq<Action>, s: State)
    ensures Leads(Begin(Shared()), acts, s)
    ensures s.m.variant.ManyConsumers? && s.m.head == Word(0, 1) && s.m.tail == Word(1, 2) && s.m.count == 1 && s.m.free == {3}
    ensures s.m.heap == map[1 := Node(Word(1, 2), 0), 2 := Node(ZERO, v), 3 := Node(ZERO, 0)] && s.m.index == 1
    ensures s.m.threads == map[PRODUCER := Idle(Enqueued), CONSUMER := Idle(Ready), VICTIM := Idle(Ready)]
    ensures s.h.headPos == 0 && s.h.tailPos == 1 && |s.h.stamps| == 2 && s.h.chain == [Cell(1, 0, 0), Cell(2, 1, v)]
  {
    SharedIsInit();
    acts, s := [], Begin(Shared());
    acts, s := EnqueueAlone(Begin(Shared()), acts, s, PRODUCER, v, 2);
  }

  /** Two values are enqueued. */
  lemma TwoValues(v: Value, w: Value) returns (acts: seq<Action>, s: State)
    ensures Leads(Begin(Shared()), acts, s)
    ensures s.m.variant.ManyConsumers? && s.m.head == Word(0, 1) && s.m.tail == Word(2, 3) && s.m.count == 2 && s.m.free == {}
    ensures s.m.heap == map[1 := Node(Word(1, 2), 0), 2 := Node(Word(2, 3), v), 3 := Node(ZERO, w)]
    ensures s.m.threads == map[PRODUCER := Idle(Enqueued), CONSUMER := Idle(Ready), VICTIM := Idle(Ready)]
    ensures s.h.headPos == 0 && |s.h.stamps| == 3 && |s.h.chain| == 3
  {
    acts, s := OneValue(v);
    acts, s := EnqueueAlone(Begin(Shared()), acts, s, PRODUCER, w, 3);
  }

  /** The victim has reserved and read head; the other consumer takes the front and releases node 1. */
  lemma VictimSeesOldHead(v: Value, w: Value) returns (acts: seq<Action>, s: State)
    ensures Leads(Begin(Shared()), acts, s)
    ensures s.m.variant.ManyConsumers? && s.m.head == Word(1, 2) && s.m.tail == Word(2, 3) && s.m.free == {1}
    ensures s.m.heap.Keys == {1, 2, 3}
    ensures s.m.threads == map[PRODUCER := Idle(Enqueued), CONSUMER := Idle(Got(v)), VICTIM := DeqNext(Word(0, 1))]
  {
    acts, s := TwoValues(v, w);
    acts, s := ReserveAndLook(Begin(Shared()), acts, s, VICTIM);
    acts, s := ReserveAndLook(Begin(Shared()), acts, s, CONSUMER);
    acts, s := TakeAlone(Begin(Shared()), acts, s, CONSUMER);
  }

  /** Now the allocator overwrites node 1, which the guard allows, with a word that leads to no node.
      The victim reads it before any CAS could reject it, and goes through address 999 next. */
  lemma FollowsNoNode(v: Value, w: Value) returns (acts: seq<Action>, s: State, m: Machine)
    ensures Init(Shared()) && Leads(Begin(Shared()), acts, s)
    ensures var junk := Recycle(1, Node(Word(0, 999), 0));
      Enabled(s.m, junk) && !Tidy(s.m, junk) && m == After(After(s, junk), Run(VICTIM)).m
    ensures VICTIM in m.threads && m.threads[VICTIM] == ManyPeek(Word(0, 1), Word(0, 999))
    ensures Touches(m.threads[VICTIM]) == Some(999) && 999 !in m.heap
  {
    SharedIsInit();
    acts, s := VictimSeesOldHead(v, w);
    var junk := Recycle(1, Node(Word(0, 999), 0));
    assert AboutToFollow(s.m, VICTIM, 1);
    m := After(After(s, junk), Run(VICTIM)).m;
  }
}
