/** The tag window of the queues cannot be widened: under the small allocator guard and with every other
    CAS in reach, a tail CAS one increment out of reach takes tail off the list, to a released node. */
module QueueWindow {
  import opened Words
  import opened QueueMachine
  import opened QueueInvariant
  import opened QueueSteps
  import opened QueueTheorems
  import opened QueueScenarios

  /** A dummy node 1 and three spare ones; a producer, a consumer and the victim, a second producer. */
  function FourNodes(): Machine {
    var blank := Node(ZERO, 0);
    Machine(SingleConsumer(CONSUMER), Word(0, 1), Word(0, 1), 0, 0,
            map[1 := blank, 2 := blank, 3 := blank, 4 := blank], {2, 3, 4},
            map[PRODUCER := Idle(Ready), CONSUMER := Idle(Ready), VICTIM := Idle(Ready)])
  }

  lemma FourNodesIsInit()
    ensures Init(FourNodes())
  {
  }

  const SWING: Local := EnqSwing(Word(1, 2), Word(0, 1))

  /** The victim has linked node 2 behind node 1 and is about to swing tail. */
  lemma VictimLinks(v: Value) returns (acts: seq<Action>, s: State)
    ensures Leads(Begin(FourNodes()), acts, s)
    ensures s.m == FourNodes().(index := 1, free := {3, 4},
      heap := FourNodes().heap[1 := Node(Word(1, 2), 0)][2 := Node(ZERO, v)], threads := FourNodes().threads[VICTIM := SWING])
    ensures s.h.chain == [Cell(1, 0, 0), Cell(2, 1, v)] && s.h.headPos == s.h.tailPos == 0 && |s.h.stamps| == 2
    ensures Seen(s.h, VICTIM) == 0
  {
    FourNodesIsInit();
    acts, s := [], Begin(FourNodes());
    acts, s := EnqueueUpToLook(Begin(FourNodes()), acts, s, VICTIM, v, 2);
    acts, s := LinkAlone(Begin(FourNodes()), acts, s, VICTIM);
  }

  /** The producer begins to enqueue node 3, helps tail on to node 2 and looks there. */
  lemma ProducerHelps(v: Value) returns (acts: seq<Action>, s: State)
    ensures Leads(Begin(FourNodes()), acts, s)
    ensures s.m == FourNodes().(index := 2, free := {4}, tail := Word(1, 2),
      heap := FourNodes().heap[1 := Node(Word(1, 2), 0)][2 := Node(ZERO, v)][3 := Node(ZERO, 0)],
      threads := FourNodes().threads[VICTIM := SWING][PRODUCER := EnqNext(3, 0, Word(2, 3), Word(1, 2))])
    ensures s.h.chain == [Cell(1, 0, 0), Cell(2, 1, v)] && s.h.headPos == 0 && s.h.tailPos == 1 && |s.h.stamps| == 3
    ensures Seen(s.h, VICTIM) == 0 && Seen(s.h, PRODUCER) == 1 && MyStamp(s.h, PRODUCER) == 2
  {
    acts, s := VictimLinks(v);
    acts, s := EnqueueUpToLook(Begin(FourNodes()), acts, s, PRODUCER, 0, 3);
    acts, s := HelpAlone(Begin(FourNodes()), acts, s, PRODUCER);
  }

  /** A pass of the Enqueue loop that helps, and the next read of tail. */
  lemma HelpAlone(s0: State, acts: seq<Action>, s: State, t: Tid)
    returns (acts': seq<Action>, s': State)
    requires Leads(s0, acts, s) && t in s.m.threads && s.m.threads[t].EnqNext? && s.m.threads[t].oldTail == s.m.tail
    requires Load(s.m, s.m.tail.addr).next.addr != NULL && InReach(s.h, Seen(s.h, t))
    ensures Leads(s0, acts', s')
    ensures var l, next := s.m.threads[t], Load(s.m, s.m.tail.addr).next;
      s'.m == s.m.(tail := next, threads := s.m.threads[t := EnqNext(l.node, l.value, l.word, next)])
    ensures s'.h == Look(s.h.(tailPos := s.h.tailPos + 1), t, s.h.tailPos + 1)
  {
    acts', s' := Extend(s0, acts, s, Run(t));
    acts', s' := Extend(s0, acts', s', Run(t));
    acts', s' := Extend(s0, acts', s', Run(t));
  }

  /** A whole Dequeue by the one consumer, alone. */
  lemma DequeueAlone(s0: State, acts: seq<Action>, s: State, t: Tid)
    returns (acts': seq<Action>, s': State)
    requires Leads(s0, acts, s) && Enabled(s.m, BeginDequeue(t)) && s.m.variant.SingleConsumer?
    requires Load(s.m, s.m.head.addr).next.addr != NULL
    ensures Leads(s0, acts', s')
    ensures var next := Load(s.m, s.m.head.addr).next;
      s'.m == s.m.(head := next, free := s.m.free + {s.m.head.addr}, count := (s.m.count - 1) % TWO32,
                   threads := s.m.threads[t := Idle(Got(Load(s.m, next.addr).data))])
    ensures s'.h.chain == s.h.chain && s'.h.tailPos == s.h.tailPos && s'.h.stamps == s.h.stamps
    ensures s'.h.seen == s.h.seen[t := s.h.headPos]
  {
    acts', s' := UnlinkAlone(s0, acts, s, t);
    acts', s' := ReleaseAlone(s0, acts', s', t);
  }

  /** Node 3 is in, nodes 1 and 2 are out; the victim has not moved. */
  lemma VictimIsLeftBehind(v: Value) returns (acts: seq<Action>, s: State)
    ensures Leads(Begin(FourNodes()), acts, s) && Spinning(s) && |s.h.stamps| == 3
  {
    acts, s := ProducerHelps(v);
    acts, s := LinkAlone(Begin(FourNodes()), acts, s, PRODUCER);
    acts, s := SwingAlone(Begin(FourNodes()), acts, s, PRODUCER);
    assert s.m.heap == map[1 := Node(Word(1, 2), 0), 2 := Node(Word(2, 3), v), 3 := Node(ZERO, 0), 4 := Node(ZERO, 0)];
    acts, s := DequeueAlone(Begin(FourNodes()), acts, s, CONSUMER);
    assert s.m.head == Word(1, 2);
    acts, s := DequeueAlone(Begin(FourNodes()), acts, s, CONSUMER);
  }

  // ---------- the tags come round ----------

  /** An empty queue on node 3 or 4, with nodes 1 and 2 released and the victim still at its swing. */
  ghost predicate Spinning(s: State) {
    && s.m.variant == SingleConsumer(CONSUMER) && s.m.head == s.m.tail && (s.m.tail.addr == 3 || s.m.tail.addr == 4)
    && s.m.free == {1, 2, 7 - s.m.tail.addr} && s.m.heap.Keys == {1, 2, 3, 4} && s.m.heap[s.m.tail.addr].next == ZERO
    && s.m.threads.Keys == {PRODUCER, CONSUMER, VICTIM}
    && s.m.threads[PRODUCER].Idle? && s.m.threads[CONSUMER].Idle? && s.m.threads[VICTIM] == SWING
    && s.h.tailPos == |s.h.chain| - 1 && s.h.chain[0] == Cell(1, 0, 0) && Seen(s.h, VICTIM) == 0
    && s.h.chain[s.h.tailPos].stamp == |s.h.stamps| - 1 && s.m.index == (|s.h.stamps| - 1) % TWO64
  }

  /** The node that is not in the queue is enqueued and the other one taken out. */
  lemma SpinOnce(s0: State, acts: seq<Action>, s: State) returns (acts': seq<Action>, s': State)
    requires Leads(s0, acts, s) && Spinning(s)
    ensures Leads(s0, acts', s') && Spinning(s') && |s'.h.stamps| == |s.h.stamps| + 1
  {
    acts', s' := EnqueueAlone(s0, acts, s, PRODUCER, 0, 7 - s.m.tail.addr);
    WrapIndex(|s.h.stamps| - 1);
    acts', s' := DequeueAlone(s0, acts', s', CONSUMER);
  }

  lemma {:induction false} Spin(s0: State, acts: seq<Action>, s: State, k: nat) returns (acts': seq<Action>, s': State)
    requires Leads(s0, acts, s) && Spinning(s)
    ensures Leads(s0, acts', s') && Spinning(s') && |s'.h.stamps| == |s.h.stamps| + k
  {
    acts', s' := acts, s;
    if k > 0 {
      acts', s' := Spin(s0, acts, s, k - 1);
      acts', s' := SpinOnce(s0, acts', s');
    }
  }

  /** With a tidy allocator under its guard, every other CAS in reach and this one exactly one increment
      out of it, the victim's swing wins and takes tail from the last node to a released one. */
  lemma TailWindowIsTight(v: Value, w: Value) returns (acts: seq<Action>, s: State)
    ensures Init(FourNodes()) && Leads(Begin(FourNodes()), acts, s)
    ensures VICTIM in s.m.threads && s.m.threads[VICTIM] == SWING && s.m.tail == Word(0, 1)
    ensures Seen(s.h, VICTIM) < |s.h.chain| && |s.h.stamps| == s.h.chain[Seen(s.h, VICTIM)].stamp + TAGS + 1
    ensures !InReach(s.h, Seen(s.h, VICTIM))
    ensures MemoryHolds(s.m, s.m.head, [w]) && 1 in s.m.heap && s.m.heap[1].next == ZERO
    ensures Step(s.m, Run(VICTIM)).tail == Word(1, 2) && 2 in Step(s.m, Run(VICTIM)).free
  {
    FourNodesIsInit();
    acts, s := VictimIsLeftBehind(v);
    acts, s := Spin(Begin(FourNodes()), acts, s, TAGS - 3);
    acts, s := NodeOneReturns(Begin(FourNodes()), acts, s, w);
  }

  /** Node 1 is enqueued with its first tag again. */
  lemma NodeOneReturns(s0: State, acts: seq<Action>, s: State, w: Value) returns (acts': seq<Action>, s': State)
    requires Leads(s0, acts, s) && Spinning(s) && |s.h.stamps| == TAGS
    ensures Leads(s0, acts', s')
    ensures VICTIM in s'.m.threads && s'.m.threads[VICTIM] == SWING && s'.m.tail == Word(0, 1) && 2 in s'.m.free
    ensures Seen(s'.h, VICTIM) == 0 < |s'.h.chain| && s'.h.chain[0] == Cell(1, 0, 0) && |s'.h.stamps| == TAGS + 1
    ensures !Intact(s'.h, 0)
    ensures MemoryHolds(s'.m, s'.m.head, [w]) && 1 in s'.m.heap && s'.m.heap[1].next == ZERO
  {
    acts', s' := EnqueueAlone(s0, acts, s, PRODUCER, w, 1);
    var next := s'.m.heap[s'.m.head.addr].next;
    assert next == Word(0, 1) && s'.m.heap[1] == Node(ZERO, w);
    assert [w][1..] == [] && MemoryHolds(s'.m, next, []);
  }
}
