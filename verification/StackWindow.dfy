/** The tag window cannot be widened: one increment more, and Pop puts a pooled node on Top. And a
    surprise inside it: a Pop that returns 0 while the stack holds a value. */
module StackWindow {
  import opened Words
  import opened StackMachine
  import opened StackInvariant
  import opened StackSteps
  import opened Journals
  import opened StackJournal
  import opened StackTheorems

  /** `acts` leads from `s0` to `s` with every Pop CAS inside the window. */
  ghost predicate Leads(s0: State, acts: seq<Action>, s: State) {
    WindowHeld(s0, acts) && Exec(s0, acts) == s
  }

  lemma Extend(s0: State, acts: seq<Action>, s: State, act: Action) returns (acts': seq<Action>, s': State)
    requires Leads(s0, acts, s) && Enabled(s.m, act) && InWindow(s.m, s.h, act)
    ensures Leads(s0, acts', s') && s'.m == Step(s.m, act) && s'.h == Record(s.m, s.h, act)
  {
    acts', s' := acts + [act], After(s, act);
    assert acts'[..|acts|] == acts;
  }

  /** A Push by `t`, alone, up to its Top CAS. */
  lemma PushUpToCas(s0: State, acts: seq<Action>, s: State, t: Tid, v: Value, a: Addr)
    returns (acts': seq<Action>, s': State)
    requires Leads(s0, acts, s) && Enabled(s.m, BeginPush(t, v, a)) && a in s.m.heap
    ensures Leads(s0, acts', s')
    ensures var index := (s.m.index + 1) % TWO32;
      s'.m == s.m.(index := index, heap := s.m.heap[a := Node(s.m.top, v)], free := s.m.free - {a},
                   threads := s.m.threads[t := PushCas(a, v, Word(Tag(index), a), s.m.top)])
    ensures s'.h.chain == s.h.chain && s'.h.born == s.h.born + [Cell(a, |s.h.born| + 1, v)]
    ensures s'.h.cells == s.h.cells[t := Cell(a, |s.h.born| + 1, v)]
  {
    acts', s' := Extend(s0, acts, s, BeginPush(t, v, a));
    acts', s' := Extend(s0, acts', s', Run(t));
    acts', s' := Extend(s0, acts', s', Run(t));
    acts', s' := Extend(s0, acts', s', Run(t));
    acts', s' := Extend(s0, acts', s', Run(t));
  }

  /** A whole Push by `t`, alone. */
  lemma PushAlone(s0: State, acts: seq<Action>, s: State, t: Tid, v: Value, a: Addr)
    returns (acts': seq<Action>, s': State)
    requires Leads(s0, acts, s) && Enabled(s.m, BeginPush(t, v, a)) && a in s.m.heap
    ensures Leads(s0, acts', s')
    ensures s'.m.index == (s.m.index + 1) % TWO32 && s'.m.top == Word(Tag(s'.m.index), a)
    ensures s'.m.count == (s.m.count + 1) % TWO32 && s'.m.heap == s.m.heap[a := Node(s.m.top, v)]
    ensures s'.m.free == s.m.free - {a} && s'.m.threads == s.m.threads[t := Idle(Stored)]
    ensures s'.h.chain == s.h.chain + [Cell(a, |s.h.born| + 1, v)]
    ensures s'.h.born == s.h.born + [Cell(a, |s.h.born| + 1, v)]
    ensures s'.h.cells == s.h.cells[t := Cell(a, |s.h.born| + 1, v)]
  {
    acts', s' := PushUpToCas(s0, acts, s, t, v, a);
    acts', s' := Extend(s0, acts', s', Run(t));
    acts', s' := Extend(s0, acts', s', Run(t));
  }

  /** The reservation part of Pop, by `t` alone. */
  lemma ReserveAlone(s0: State, acts: seq<Action>, s: State, t: Tid)
    returns (acts': seq<Action>, s': State)
    requires Leads(s0, acts, s) && Enabled(s.m, BeginPop(t)) && 0 < s.m.count < TWO31
    ensures Leads(s0, acts', s')
    ensures s'.m == s.m.(count := s.m.count - 1, threads := s.m.threads[t := PopTop])
    ensures s'.h == s.h.(reserved := s.h.reserved + {t})
  {
    acts', s' := Extend(s0, acts, s, BeginPop(t));
    acts', s' := Extend(s0, acts', s', Run(t));
    acts', s' := Extend(s0, acts', s', Run(t));
  }

  /** The part of Pop up to its Top CAS, by `t` alone. */
  lemma PopUpToCas(s0: State, acts: seq<Action>, s: State, t: Tid)
    returns (acts': seq<Action>, s': State)
    requires Leads(s0, acts, s) && Enabled(s.m, BeginPop(t))
    requires s.m.top.addr != NULL && s.h.chain != [] && 0 < s.m.count < TWO31
    ensures Leads(s0, acts', s')
    ensures s'.m == s.m.(count := s.m.count - 1,
      threads := s.m.threads[t := PopCas(s.m.top, Load(s.m, s.m.top.addr).next)])
    ensures s'.h.chain == s.h.chain && s'.h.born == s.h.born
    ensures s'.h.cells == s.h.cells[t := s.h.chain[|s.h.chain| - 1]]
  {
    acts', s' := ReserveAlone(s0, acts, s, t);
    acts', s' := Extend(s0, acts', s', Run(t));
    acts', s' := Extend(s0, acts', s', Run(t));
  }

  /** A whole Pop by `t`, alone. */
  lemma PopAlone(s0: State, acts: seq<Action>, s: State, t: Tid)
    returns (acts': seq<Action>, s': State)
    requires Leads(s0, acts, s) && Enabled(s.m, BeginPop(t))
    requires s.m.top.addr != NULL && s.h.chain != [] && 0 < s.m.count < TWO31
    requires |s.h.born| < s.h.chain[|s.h.chain| - 1].stamp + TAGS
    ensures Leads(s0, acts', s')
    ensures var n := Load(s.m, s.m.top.addr);
      s'.m == s.m.(top := n.next, count := s.m.count - 1, free := s.m.free + {s.m.top.addr},
                   threads := s.m.threads[t := Idle(Popped(n.data))])
    ensures s'.h.chain == s.h.chain[..|s.h.chain| - 1] && s'.h.born == s.h.born
    ensures s'.h.cells == s.h.cells[t := s.h.chain[|s.h.chain| - 1]]
  {
    acts', s' := PopUpToCas(s0, acts, s, t);
    acts', s' := Extend(s0, acts', s', Run(t));
    acts', s' := Extend(s0, acts', s', Run(t));
    acts', s' := Extend(s0, acts', s', Run(t));
  }

  /** Nothing moved but `index`, the contents of the spare node `a` and what `t` remembers. */
  ghost predicate OnlyIndexMoved(s: State, s': State, t: Tid, a: Addr, k: nat) {
    && s'.m.top == s.m.top && s'.m.count == s.m.count && s'.m.free == s.m.free
    && s'.m.heap.Keys == s.m.heap.Keys && a in s.m.heap && (k > 0 ==> s'.m.heap[a].data == 0)
    && (forall b :: b in s.m.heap && b != a ==> s'.m.heap[b] == s.m.heap[b])
    && s'.m.index == (s.m.index + k) % TWO32 && |s'.h.born| == |s.h.born| + k
    && s'.h.chain == s.h.chain
    && t in s'.m.threads && s'.m.threads[t].Idle?
    && s'.m.threads - {t} == s.m.threads - {t} && s'.h.cells - {t} == s.h.cells - {t}
  }

  /** `k` rounds of pushing and popping one spare node cost `k` increments and nothing else. */
  lemma {:induction false} SpinIndex(s0: State, acts: seq<Action>, s: State, t: Tid, a: Addr, k: nat)
    returns (acts': seq<Action>, s': State)
    requires Leads(s0, acts, s) && t in s.m.threads && s.m.threads[t].Idle?
    requires a in s.m.free && a in s.m.heap && a != NULL
    requires s.m.count < TWO31 - 1 && s.m.index < TWO32
    ensures Leads(s0, acts', s') && OnlyIndexMoved(s, s', t, a, k)
    decreases k
  {
    if k == 0 {
      return acts, s;
    }
    var acts1, s1 := SpinIndex(s0, acts, s, t, a, k - 1);
    var acts2, s2 := PushAlone(s0, acts1, s1, t, 0, a);
    assert s2.h.chain[..|s1.h.chain|] == s1.h.chain;
    acts', s' := PopAlone(s0, acts2, s2, t);
    WrapStep(s.m.index + k - 1, 1);
    assert s'.m.free == s1.m.free;
    assert s'.m.threads - {t} == s1.m.threads - {t};
    assert s'.h.cells - {t} == s1.h.cells - {t};
  }

  const VICTIM: Tid := 0
  const OTHER: Tid := 1

  /** Three nodes in the pool, two threads, an empty stack. */
  function Opening(): Machine {
    var blank := Node(ZERO, 0);
    Machine(ZERO, 0, 0, map[1 := blank, 2 := blank, 3 := blank], {1, 2, 3},
            map[VICTIM := Idle(Stored), OTHER := Idle(Stored)])
  }

  /** Three pushes. */
  lemma ThreePushes() returns (acts: seq<Action>, s: State)
    ensures Leads(Begin(Opening()), acts, s)
    ensures s.m.top == Word(3, 2) && s.m.index == 3 && s.m.count == 3 && s.m.free == {}
    ensures s.m.heap == map[1 := Node(Word(1, 3), 10), 2 := Node(Word(2, 1), 20), 3 := Node(ZERO, 30)]
    ensures s.m.threads == map[VICTIM := Idle(Stored), OTHER := Idle(Stored)]
    ensures s.h.chain == [Cell(3, 1, 30), Cell(1, 2, 10), Cell(2, 3, 20)] && |s.h.born| == 3
  {
    var s0 := Begin(Opening());
    acts, s := [], s0;
    acts, s := PushAlone(s0, acts, s, OTHER, 30, 3);
    acts, s := PushAlone(s0, acts, s, OTHER, 10, 1);
    acts, s := PushAlone(s0, acts, s, OTHER, 20, 2);
  }

  /** The victim reads the top node 2 and its successor 1; both are popped. */
  lemma VictimIsLeftBehind() returns (acts: seq<Action>, s: State)
    ensures Leads(Begin(Opening()), acts, s)
    ensures s.m.top == Word(1, 3) && s.m.index == 3 && s.m.count == 0 && s.m.free == {1, 2}
    ensures s.m.heap.Keys == {1, 2, 3} && s.m.threads.Keys == {VICTIM, OTHER}
    ensures s.m.threads[OTHER].Idle? && s.m.threads[VICTIM] == PopCas(Word(3, 2), Word(2, 1))
    ensures s.h.chain == [Cell(3, 1, 30)] && |s.h.born| == 3
    ensures VICTIM in s.h.cells && s.h.cells[VICTIM].addr == 2 && s.h.cells[VICTIM].stamp == 3
  {
    var s0 := Begin(Opening());
    acts, s := ThreePushes();
    acts, s := PopUpToCas(s0, acts, s, VICTIM);
    acts, s := PopAlone(s0, acts, s, OTHER);
    acts, s := PopAlone(s0, acts, s, OTHER);
  }

  /** Then the spare node is pushed and popped until the tags come round. */
  lemma TagsComeRound() returns (acts: seq<Action>, s: State)
    ensures Leads(Begin(Opening()), acts, s)
    ensures s.m.top == Word(1, 3) && s.m.index == TAGS + 2 && s.m.count == 0 && s.m.free == {1, 2}
    ensures s.m.heap.Keys == {1, 2, 3} && OTHER in s.m.threads && s.m.threads[OTHER].Idle?
    ensures VICTIM in s.m.threads && s.m.threads[VICTIM] == PopCas(Word(3, 2), Word(2, 1))
    ensures s.h.chain == [Cell(3, 1, 30)] && s.m.heap[1].data == 0
    ensures |s.h.born| == TAGS + 2 && CellFor(s.h, VICTIM).stamp == 3
  {
    var s0 := Begin(Opening());
    acts, s := VictimIsLeftBehind();
    var s1 := s;
    acts, s := SpinIndex(s0, acts, s, OTHER, 1, TAGS - 1);
    assert VICTIM in s.m.threads - {OTHER} && (s.m.threads - {OTHER})[VICTIM] == (s1.m.threads - {OTHER})[VICTIM];
    assert VICTIM in s.h.cells - {OTHER} && (s.h.cells - {OTHER})[VICTIM] == (s1.h.cells - {OTHER})[VICTIM];
  }

  /** With every other compare-exchange inside the window and this one exactly one increment
      outside it, the run below makes Top point at a node that lies in the pool. */
  lemma WindowIsTight() returns (acts: seq<Action>, s: State)
    ensures Init(Opening()) && Leads(Begin(Opening()), acts, s)
    ensures RemovesNow(s.m, Run(VICTIM))
    ensures |s.h.born| == CellFor(s.h, VICTIM).stamp + TAGS
    ensures Step(s.m, Run(VICTIM)).top.addr in Step(s.m, Run(VICTIM)).free
    ensures Step(s.m, Run(VICTIM)).threads[VICTIM] == PopData(2) && 2 !in s.m.free
    ensures s.m.threads[VICTIM] == PopCas(Word(3, 2), Word(2, 1)) && OTHER in s.m.threads && s.m.threads[OTHER].Idle?
    ensures 1 in s.m.heap && s.m.heap[1].data == 0 && 2 in s.m.heap && s.m.heap[2].data == 0
    ensures s.m.count == 1 && s.h.chain == [Cell(3, 1, 30), Cell(2, TAGS + 3, 0)]
  {
    acts, s := TagsComeRound();
    acts, s := PushAlone(Begin(Opening()), acts, s, OTHER, 0, 2);
    assert s.m.top == Word(3, 2);
  }

  lemma Go(s0: State, acts: seq<Action>, s: State, act: Action) returns (acts': seq<Action>, s': State)
    requires Exec(s0, acts) == s
    ensures Exec(s0, acts') == s' && s' == After(s, act)
  {
    acts', s' := acts + [act], After(s, act);
    assert acts'[..|acts|] == acts;
  }

  /** A step without an event leaves the events alone. */
  lemma GoUnseen(s0: State, acts: seq<Action>, s: State, t: Tid) returns (acts': seq<Action>, s': State)
    requires Exec(s0, acts) == s && Enabled(s.m, Run(t)) && Current(s.j, t) < |s.j.calls|
    requires EventOf(s.m, t, Current(s.j, t)).None?
    ensures Exec(s0, acts') == s' && s'.m == RunStep(s.m, t)
    ensures s'.j.events == s.j.events && Current(s'.j, t) < |s'.j.calls|
  {
    acts', s' := Go(s0, acts, s, Run(t));
    WriteAppends(s.m, s.j, t);
  }

  /** A Pop by `t`, alone, up to its winning CAS, from any state at all. */
  lemma PopLogged(s0: State, t: Tid) returns (acts: seq<Action>, k: nat)
    requires Enabled(s0.m, BeginPop(t)) && 0 < s0.m.count < TWO31 && s0.m.top.addr != NULL
    ensures Exec(s0, acts).j.events == s0.j.events + [Took(k, Load(s0.m, s0.m.top.addr).data)]
  {
    var s;
    acts, s := Go(s0, [], s0, BeginPop(t));
    acts, s := GoUnseen(s0, acts, s, t);
    acts, s := GoUnseen(s0, acts, s, t);
    acts, s := GoUnseen(s0, acts, s, t);
    acts, s := GoUnseen(s0, acts, s, t);
    assert s.m.threads[t] == PopCas(s0.m.top, Load(s0.m, s0.m.top.addr).next);
    k := Current(s.j, t);
    WriteAppends(s.m, s.j, t);
    acts, s := Go(s0, acts, s, Run(t));
  }

  /** What the victim's CAS adds to the events. */
  lemma VictimTakes(s: State)
    requires Good(s) && VICTIM in s.m.threads && s.m.threads[VICTIM] == PopCas(Word(3, 2), Word(2, 1)) && s.m.top == Word(3, 2)
    requires 2 in s.m.heap && s.m.heap[2].data == 0 && s.h.chain == [Cell(3, 1, 30), Cell(2, TAGS + 3, 0)]
    ensures ReplayStack(After(s, Run(VICTIM)).j.events) == Some([30])
    ensures After(s, Run(VICTIM)).m == s.m.(top := Word(2, 1), threads := s.m.threads[VICTIM := PopData(2)])
  {
    var k := Current(s.j, VICTIM);
    assert VICTIM in Statuses(s.m, s.h) && ThreadFits(s.j, VICTIM, Statuses(s.m, s.h)[VICTIM]);
    WriteAppends(s.m, s.j, VICTIM);
    GoodOrder(s);
    assert Contents(s.h) == [30, 0] && [30, 0][..1] == [30];
    assert After(s, Run(VICTIM)).j.events == s.j.events + [Took(k, 0)];
    ReplayStackNext(s.j.events, Took(k, 0));
  }

  /** And then the stack is no stack any more: one step outside the window and one more Pop give a
      sequence of events that no sequential stack can produce. */
  lemma NoStackOutsideTheWindow() returns (acts: seq<Action>, s: State, more: seq<Action>)
    ensures Leads(Begin(Opening()), acts, s)
    ensures |s.h.born| == CellFor(s.h, VICTIM).stamp + TAGS
    ensures ReplayStack(s.j.events).Some?
    ensures ReplayStack(Exec(After(s, Run(VICTIM)), more).j.events).None?
  {
    acts, s := WindowIsTight();
    BeginGood(Opening());
    RunKeepsInv(Begin(Opening()), acts);
    GoodOrder(s);
    VictimTakes(s);
    var s1 := After(s, Run(VICTIM));
    var k;
    more, k := PopLogged(s1, OTHER);
    ReplayStackNext(s1.j.events, Took(k, 0));
  }

  /** A Push has linked its node and is about to count it. */
  lemma LinkedNotCounted(v: Value) returns (acts: seq<Action>, s: State)
    ensures Leads(Begin(Opening()), acts, s)
    ensures s.m.top == Word(1, 3) && s.m.count == 0 && s.m.heap == Opening().heap[3 := Node(ZERO, v)]
    ensures s.m.threads == map[VICTIM := Idle(Stored), OTHER := PushCount]
  {
    var s0 := Begin(Opening());
    acts, s := [], s0;
    acts, s := Extend(s0, acts, s, BeginPush(OTHER, v, 3));
    acts, s := Extend(s0, acts, s, Run(OTHER));
    acts, s := Extend(s0, acts, s, Run(OTHER));
    acts, s := Extend(s0, acts, s, Run(OTHER));
    acts, s := Extend(s0, acts, s, Run(OTHER));
    acts, s := Extend(s0, acts, s, Run(OTHER));
  }

  /** A Pop that runs now returns 0. */
  lemma NoCountWhileNotEmpty(v: Value) returns (acts: seq<Action>, s: State)
    ensures Init(Opening()) && Leads(Begin(Opening()), acts, s)
    ensures VICTIM in s.m.threads && s.m.threads[VICTIM] == Idle(NoCount) && MemoryHolds(s.m, s.m.top, [v])
  {
    acts, s := LinkedNotCounted(v);
    acts, s := Extend(Begin(Opening()), acts, s, BeginPop(VICTIM));
    acts, s := Extend(Begin(Opening()), acts, s, Run(VICTIM));
  }
}
