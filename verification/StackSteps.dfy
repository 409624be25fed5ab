/** Every step of the stack machine keeps the invariant, as long as the tag window holds. */
module StackSteps {
  import opened Words
  import opened StackMachine
  import opened StackInvariant

  /** The tag window: a thread about to compare-exchange Top in Pop read a node that was
      stamped fewer than 2^17 increments ago. */
  ghost predicate InWindow(m: Machine, h: History, act: Action) {
    act.Run? && act.t in m.threads && m.threads[act.t].PopCas? ==>
      |h.born| < CellFor(h, act.t).stamp + TAGS
  }

  function Start(m: Machine): History {
    History([], [], [], map a | a in m.heap :: Pool, map a | a in m.heap :: 0, map[], [], {}, {})
  }

  lemma InitInv(m: Machine)
    requires Init(m)
    ensures Inv(m, Start(m))
  {
  }

  // ---------- what a step must leave alone for the other threads ----------

  /** The part of the state that thread `u` relies on is undisturbed between two states. */
  ghost predicate Undisturbed(m: Machine, h: History, m': Machine, h': History, u: Tid)
    requires u in m.threads
  {
    var l, p, c := m.threads[u], PhaseOf(m.threads[u]), CellFor(h, u);
    && u in m'.threads && m'.threads[u] == l && CellFor(h', u) == c
    && (u in h'.reserved <==> u in h.reserved) && (u in h'.linked <==> u in h.linked)
    && h.born <= h'.born && |h'.fate| == |h'.born|
    && (p.Holds? || p.Waits? || p.Takes? ==>
         p.node in m.heap && p.node in m'.heap && m'.heap[p.node] == m.heap[p.node]
         && p.node in h'.place && h'.place[p.node] == Hand(u))
    && (p.Waits? || p.Takes? ==>
         1 <= c.stamp <= |h.fate| <= |h'.fate| && h'.fate[c.stamp - 1] == h.fate[c.stamp - 1])
    && (p.Waits? ==> p.node in h.last && p.node in h'.last && h'.last[p.node] == h.last[p.node])
    && (l.PopNext? || l.PopCas? ==>
         && 1 <= c.stamp <= |h.fate| <= |h'.fate| && !h'.fate[c.stamp - 1].Pending?
         && c.addr in m.heap && c.addr in m'.heap && c.addr in h.last && c.addr in h'.last && h.last[c.addr] <= h'.last[c.addr]
         && (h'.fate[c.stamp - 1].Stacked? ==>
              h.fate[c.stamp - 1].Stacked? && m'.heap[c.addr].next == m.heap[c.addr].next))
  }

  lemma LocalFrame(m: Machine, h: History, m': Machine, h': History, u: Tid)
    requires u in m.threads && LocalOk(m, h, u) && Undisturbed(m, h, m', h', u)
    ensures LocalOk(m', h', u)
  {
  }

  /** What the invariant says about any thread, without the details of its program counter. */
  lemma LocalBasics(m: Machine, h: History, u: Tid)
    requires Inv(m, h) && u in m.threads
    ensures LocalOk(m, h, u)
    ensures var l, p, c := m.threads[u], PhaseOf(m.threads[u]), CellFor(h, u);
      && (p.Holds? || p.Waits? || p.Takes? ==> Mine(m, h, u, p.node))
      && (p.Waits? ==> IsBorn(h, c, Pending(u)) && p.node == c.addr && c.addr in h.last && h.last[c.addr] == c.stamp)
      && (p.Takes? ==> IsBorn(h, c, Taken(u)) && p.node == c.addr)
      && (l.PopNext? || l.PopCas? ==>
           && 1 <= c.stamp <= |h.born| == |h.fate| && h.born[c.stamp - 1] == c && !h.fate[c.stamp - 1].Pending?
           && c.addr in m.heap && c.addr in h.last
           && (h.fate[c.stamp - 1].Stacked? ==> c.addr in h.place && h.place[c.addr] == Stack))
  {
    assert LocalOk(m, h, u);
    if m.threads[u].PopNext? || m.threads[u].PopCas? { StackedPlace(m, h, CellFor(h, u)); }
  }

  // ---------- steps that leave the history alone ----------

  /** A step that changes nothing but its own thread's locals. */
  lemma QuietStep(m: Machine, h: History, t: Tid, l: Local)
    requires Inv(m, h) && t in m.threads
    requires PhaseOf(l) == PhaseOf(m.threads[t])
    requires LocalOk(Goto(m, t, l), h, t)
    ensures Inv(Goto(m, t, l), h)
  {
    var m' := Goto(m, t, l);
    forall a | a in m'.heap ensures PlaceOk(m', h, a) { assert PlaceOk(m, h, a); }
    forall s | 0 <= s < |h.born| ensures StampOk(m', h, s) { assert StampOk(m, h, s); }
    forall i | 0 <= i < |h.chain| ensures ChainOk(m', h, i) { assert ChainOk(m, h, i); }
    forall u | u in m'.threads ensures LocalOk(m', h, u) {
      if u != t { LocalBasics(m, h, u); LocalFrame(m, h, m', h, u); }
    }
  }

  /** A write to a node in the pool or in the writer's hands. */
  lemma WriteStep(m: Machine, h: History, a: Addr, n: Node, writer: Option<Tid>)
    requires Inv(m, h) && a in m.heap && a in h.place
    requires h.place[a] == match writer case None => Pool case Some(t) => Hand(t)
    requires writer.Some? ==> writer.value in m.threads && LocalOk(m.(heap := m.heap[a := n]), h, writer.value)
    ensures Inv(m.(heap := m.heap[a := n]), h)
  {
    var m' := m.(heap := m.heap[a := n]);
    assert m'.heap.Keys == m.heap.Keys;
    forall b | b in m'.heap ensures PlaceOk(m', h, b) { assert PlaceOk(m, h, b); }
    forall s | 0 <= s < |h.born| ensures StampOk(m', h, s) { assert StampOk(m, h, s); }
    forall i | 0 <= i < |h.chain| ensures ChainOk(m', h, i) { assert ChainOk(m, h, i); }
    forall u | u in m'.threads ensures LocalOk(m', h, u) {
      if writer != Some(u) { LocalBasics(m, h, u); LocalFrame(m, h, m', h, u); }
    }
  }

  /** A stacked incarnation is a cell of the chain. */
  lemma StackedPlace(m: Machine, h: History, c: Cell)
    requires Inv(m, h) && 1 <= c.stamp <= |h.born| && h.born[c.stamp - 1] == c
    ensures h.fate[c.stamp - 1].Stacked? ==>
      var i := h.fate[c.stamp - 1].position;
      i < |h.chain| && h.chain[i] == c && ChainOk(m, h, i)
  {
    assert StampOk(m, h, c.stamp - 1);
    if h.fate[c.stamp - 1].Stacked? { assert ChainOk(m, h, h.fate[c.stamp - 1].position); }
  }

  // ---------- the steps that move a node ----------

  lemma AllocShape(m: Machine, h: History, t: Tid, v: Value, a: Addr)
    requires Inv(m, h) && Enabled(m, BeginPush(t, v, a))
    ensures Shape(Step(m, BeginPush(t, v, a)), Record(m, h, BeginPush(t, v, a)))
  {
    var m', h' := Step(m, BeginPush(t, v, a)), Record(m, h, BeginPush(t, v, a));
    assert LocalOk(m, h, t) && PlaceOk(m, h, a);
    forall b | b in m'.heap ensures PlaceOk(m', h', b) { assert PlaceOk(m, h, b); }
    forall s | 0 <= s < |h.born| ensures StampOk(m', h', s) { assert StampOk(m, h, s); }
    forall i | 0 <= i < |h.chain| ensures ChainOk(m', h', i) { assert ChainOk(m, h, i); }
    forall i | 0 <= i < |h.delivered| ensures DeliveredOk(h', i) { assert DeliveredOk(h, i); }
  }

  lemma AllocLocals(m: Machine, h: History, t: Tid, v: Value, a: Addr)
    requires Inv(m, h) && Enabled(m, BeginPush(t, v, a))
    ensures Locals(Step(m, BeginPush(t, v, a)), Record(m, h, BeginPush(t, v, a)))
  {
    var m', h' := Step(m, BeginPush(t, v, a)), Record(m, h, BeginPush(t, v, a));
    assert PlaceOk(m, h, a);
    assert LocalOk(m, h, t);
    forall u | u in m'.threads ensures LocalOk(m', h', u) {
      if u != t { LocalBasics(m, h, u); LocalFrame(m, h, m', h', u); }
    }
  }

  lemma TagShape(m: Machine, h: History, t: Tid)
    requires Inv(m, h) && t in m.threads && m.threads[t].PushTag?
    ensures Shape(RunStep(m, t), RecordRun(m, h, t))
  {
    var m', h' := RunStep(m, t), RecordRun(m, h, t);
    LocalBasics(m, h, t);
    assert PlaceOk(m, h, m.threads[t].node);
    WrapStep(|h.born|, 1);
    forall b | b in m'.heap ensures PlaceOk(m', h', b) { assert PlaceOk(m, h, b); }
    forall s | 0 <= s < |h'.born| ensures StampOk(m', h', s) { assert s < |h.born| ==> StampOk(m, h, s); }
    forall i | 0 <= i < |h.chain| ensures ChainOk(m', h', i) { assert ChainOk(m, h, i); }
    forall i | 0 <= i < |h.delivered| ensures DeliveredOk(h', i) { assert DeliveredOk(h, i); }
  }

  lemma TagOwnLocal(m: Machine, h: History, t: Tid)
    requires Inv(m, h) && t in m.threads && m.threads[t].PushTag?
    ensures LocalOk(RunStep(m, t), RecordRun(m, h, t), t)
  {
    assert LocalOk(m, h, t) && PlaceOk(m, h, m.threads[t].node);
    WrapStep(|h.born|, 1);
    TagOfWrapped(|h.born| + 1);
  }

  lemma TagLocals(m: Machine, h: History, t: Tid)
    requires Inv(m, h) && t in m.threads && m.threads[t].PushTag?
    ensures Locals(RunStep(m, t), RecordRun(m, h, t))
  {
    var m', h' := RunStep(m, t), RecordRun(m, h, t);
    LocalBasics(m, h, t);
    assert PlaceOk(m, h, m.threads[t].node);
    TagOwnLocal(m, h, t);
    forall u | u in m'.threads ensures LocalOk(m', h', u) {
      if u != t { LocalBasics(m, h, u); LocalFrame(m, h, m', h', u); }
    }
  }

  lemma LinkShape(m: Machine, h: History, t: Tid)
    requires Inv(m, h) && t in m.threads && m.threads[t].PushCas? && m.top == m.threads[t].oldTop
    ensures Shape(RunStep(m, t), RecordRun(m, h, t))
  {
    var m', h' := RunStep(m, t), RecordRun(m, h, t);
    assert LocalOk(m, h, t);
    forall b | b in m'.heap ensures PlaceOk(m', h', b) { assert PlaceOk(m, h, b); }
    forall s | 0 <= s < |h'.born| ensures StampOk(m', h', s) { assert StampOk(m, h, s); }
    forall i | 0 <= i < |h'.chain| ensures ChainOk(m', h', i) { assert i < |h.chain| ==> ChainOk(m, h, i); }
    forall i | 0 <= i < |h.delivered| ensures DeliveredOk(h', i) { assert DeliveredOk(h, i); }
  }

  lemma LinkLocals(m: Machine, h: History, t: Tid)
    requires Inv(m, h) && t in m.threads && m.threads[t].PushCas? && m.top == m.threads[t].oldTop
    ensures Locals(RunStep(m, t), RecordRun(m, h, t))
  {
    var m', h' := RunStep(m, t), RecordRun(m, h, t);
    assert LocalOk(m, h, t);
    forall u | u in m'.threads ensures LocalOk(m', h', u) {
      if u != t { LocalBasics(m, h, u); LocalFrame(m, h, m', h', u); }
    }
  }

  /** A Pop that holds a reservation never finds Top null. */
  lemma ReservedPopFindsTop(m: Machine, h: History, t: Tid)
    requires Inv(m, h) && t in m.threads && PhaseOf(m.threads[t]).Reserves?
    ensures h.chain != [] && m.top == WordOf(h.chain[|h.chain| - 1]) && m.top.addr != NULL
  {
    assert LocalOk(m, h, t) && t in h.reserved;
    assert ChainOk(m, h, |h.chain| - 1);
  }

  lemma SeeTopShape(m: Machine, h: History, t: Tid)
    requires Inv(m, h) && t in m.threads && m.threads[t].PopTop?
    ensures Shape(RunStep(m, t), RecordRun(m, h, t))
  {
    ReservedPopFindsTop(m, h, t);
    var m', h' := RunStep(m, t), RecordRun(m, h, t);
    forall b | b in m'.heap ensures PlaceOk(m', h', b) { assert PlaceOk(m, h, b); }
    forall s | 0 <= s < |h.born| ensures StampOk(m', h', s) { assert StampOk(m, h, s); }
    forall i | 0 <= i < |h.chain| ensures ChainOk(m', h', i) { assert ChainOk(m, h, i); }
    forall i | 0 <= i < |h.delivered| ensures DeliveredOk(h', i) { assert DeliveredOk(h, i); }
  }

  lemma SeeTopLocals(m: Machine, h: History, t: Tid)
    requires Inv(m, h) && t in m.threads && m.threads[t].PopTop?
    ensures Locals(RunStep(m, t), RecordRun(m, h, t))
  {
    ReservedPopFindsTop(m, h, t);
    var m', h' := RunStep(m, t), RecordRun(m, h, t);
    assert ChainOk(m, h, |h.chain| - 1);
    assert LocalOk(m, h, t);
    forall u | u in m'.threads ensures LocalOk(m', h', u) {
      if u != t { LocalBasics(m, h, u); LocalFrame(m, h, m', h', u); }
    }
  }

  /** The heart of ABA safety. Within the window, a compare-exchange that finds the word it
      read finds the very incarnation it read, and what it installs leads to the cell below. */
  lemma MatchIsTheSeenTop(m: Machine, h: History, t: Tid)
    requires Inv(m, h) && t in m.threads && m.threads[t].PopCas?
    requires m.top == m.threads[t].top && InWindow(m, h, Run(t))
    ensures h.chain != [] && h.chain[|h.chain| - 1] == CellFor(h, t)
    ensures m.threads[t].newTop == Below(h.chain, |h.chain| - 1)
  {
    assert LocalOk(m, h, t);
    var c, n := CellFor(h, t), |h.chain| - 1;
    assert ChainOk(m, h, n);
    SameTagInWindow(c.stamp, h.chain[n].stamp);
  }

  /** Exactly when a Pop CAS succeeds, window or not: the same address is on top again, a whole
      number of tag cycles later. It then removes another incarnation than it read unless that
      number is zero, which takes at least 2^17 increments since the stamp it read. */
  lemma CasMatchesExactly(m: Machine, h: History, t: Tid)
    requires Inv(m, h) && t in m.threads && m.threads[t].PopCas?
    ensures h.chain != []
    ensures var c, d := CellFor(h, t), h.chain[|h.chain| - 1];
      && (m.top == m.threads[t].top <==> d.addr == c.addr && (d.stamp - c.stamp) % TAGS == 0)
      && (m.top == m.threads[t].top && d != c ==> c.stamp + TAGS <= d.stamp <= |h.born|)
  {
    ReservedPopFindsTop(m, h, t);
    assert LocalOk(m, h, t);
    var c, d := CellFor(h, t), h.chain[|h.chain| - 1];
    assert ChainOk(m, h, |h.chain| - 1);
    SameTagExactly(c.stamp, d.stamp);
    if m.top == m.threads[t].top && d.stamp < c.stamp + TAGS { SameTagInWindow(c.stamp, d.stamp); }
  }

  lemma RemovePlaces(m: Machine, h: History, t: Tid)
    requires Inv(m, h) && t in m.threads && m.threads[t].PopCas?
    requires m.top == m.threads[t].top && InWindow(m, h, Run(t))
    ensures var m', h' := RunStep(m, t), RecordRun(m, h, t);
      forall a {:trigger PlaceOk(m', h', a)} :: a in m'.heap ==> PlaceOk(m', h', a)
  {
    MatchIsTheSeenTop(m, h, t);
    var m', h' := RunStep(m, t), RecordRun(m, h, t);
    assert ChainOk(m, h, |h.chain| - 1);
    forall b | b in m'.heap ensures PlaceOk(m', h', b) { assert PlaceOk(m, h, b); }
  }

  lemma RemoveStamps(m: Machine, h: History, t: Tid)
    requires Inv(m, h) && t in m.threads && m.threads[t].PopCas?
    requires m.top == m.threads[t].top && InWindow(m, h, Run(t))
    ensures var m', h' := RunStep(m, t), RecordRun(m, h, t);
      && (forall s {:trigger StampOk(m', h', s)} :: 0 <= s < |h'.born| == |h'.fate| ==> StampOk(m', h', s))
      && (forall i {:trigger ChainOk(m', h', i)} :: 0 <= i < |h'.chain| ==> ChainOk(m', h', i))
  {
    MatchIsTheSeenTop(m, h, t);
    var m', h' := RunStep(m, t), RecordRun(m, h, t);
    assert ChainOk(m, h, |h.chain| - 1);
    forall s | 0 <= s < |h'.born| == |h'.fate| ensures StampOk(m', h', s) { assert StampOk(m, h, s); }
    forall i | 0 <= i < |h'.chain| ensures ChainOk(m', h', i) { assert ChainOk(m, h, i); }
  }

  lemma RemoveShape(m: Machine, h: History, t: Tid)
    requires Inv(m, h) && t in m.threads && m.threads[t].PopCas?
    requires m.top == m.threads[t].top && InWindow(m, h, Run(t))
    ensures Shape(RunStep(m, t), RecordRun(m, h, t))
  {
    MatchIsTheSeenTop(m, h, t);
    RemovePlaces(m, h, t);
    RemoveStamps(m, h, t);
    var m', h' := RunStep(m, t), RecordRun(m, h, t);
    assert ChainOk(m, h, |h.chain| - 1) && LocalOk(m, h, t);
    forall i | 0 <= i < |h.delivered| ensures DeliveredOk(h', i) { assert DeliveredOk(h, i); }
  }

  lemma RemoveLocals(m: Machine, h: History, t: Tid)
    requires Inv(m, h) && t in m.threads && m.threads[t].PopCas?
    requires m.top == m.threads[t].top && InWindow(m, h, Run(t))
    ensures Locals(RunStep(m, t), RecordRun(m, h, t))
  {
    MatchIsTheSeenTop(m, h, t);
    var m', h' := RunStep(m, t), RecordRun(m, h, t);
    assert ChainOk(m, h, |h.chain| - 1);
    assert LocalOk(m, h, t);
    forall u | u in m'.threads ensures LocalOk(m', h', u) {
      if u != t { LocalBasics(m, h, u); LocalFrame(m, h, m', h', u); }
    }
  }

  lemma FreeShape(m: Machine, h: History, t: Tid)
    requires Inv(m, h) && t in m.threads && m.threads[t].PopFree?
    ensures Shape(RunStep(m, t), RecordRun(m, h, t))
  {
    var m', h' := RunStep(m, t), RecordRun(m, h, t);
    assert LocalOk(m, h, t);
    forall b | b in m'.heap ensures PlaceOk(m', h', b) { assert PlaceOk(m, h, b); }
    forall s | 0 <= s < |h'.born| ensures StampOk(m', h', s) { assert StampOk(m, h, s); }
    forall i | 0 <= i < |h.chain| ensures ChainOk(m', h', i) { assert ChainOk(m, h, i); }
    forall i | 0 <= i < |h'.delivered| ensures DeliveredOk(h', i) { assert i < |h.delivered| ==> DeliveredOk(h, i); }
  }

  lemma FreeLocals(m: Machine, h: History, t: Tid)
    requires Inv(m, h) && t in m.threads && m.threads[t].PopFree?
    ensures Locals(RunStep(m, t), RecordRun(m, h, t))
  {
    var m', h' := RunStep(m, t), RecordRun(m, h, t);
    assert LocalOk(m, h, t);
    forall u | u in m'.threads ensures LocalOk(m', h', u) {
      if u != t { LocalBasics(m, h, u); LocalFrame(m, h, m', h', u); }
    }
  }

  lemma CountShape(m: Machine, h: History, t: Tid)
    requires Inv(m, h) && t in m.threads && m.threads[t].PushCount?
    ensures Shape(RunStep(m, t), RecordRun(m, h, t))
  {
    var m', h' := RunStep(m, t), RecordRun(m, h, t);
    assert LocalOk(m, h, t);
    WrapStep(Available(h), 1);
    forall b | b in m'.heap ensures PlaceOk(m', h', b) { assert PlaceOk(m, h, b); }
    forall s | 0 <= s < |h.born| ensures StampOk(m', h', s) { assert StampOk(m, h, s); }
    forall i | 0 <= i < |h.chain| ensures ChainOk(m', h', i) { assert ChainOk(m, h, i); }
    forall i | 0 <= i < |h.delivered| ensures DeliveredOk(h', i) { assert DeliveredOk(h, i); }
  }

  lemma CountLocals(m: Machine, h: History, t: Tid)
    requires Inv(m, h) && t in m.threads && m.threads[t].PushCount?
    ensures Locals(RunStep(m, t), RecordRun(m, h, t))
  {
    var m', h' := RunStep(m, t), RecordRun(m, h, t);
    assert LocalOk(m, h, t);
    forall u | u in m'.threads ensures LocalOk(m', h', u) {
      if u != t { LocalBasics(m, h, u); LocalFrame(m, h, m', h', u); }
    }
  }

  /** A reservation is taken only from a positive balance. */
  lemma ReserveShape(m: Machine, h: History, t: Tid)
    requires Inv(m, h) && t in m.threads && m.threads[t].PopReserve? && Signed32(m.count) == m.threads[t].oldCount
    ensures Shape(RunStep(m, t), RecordRun(m, h, t))
  {
    var m', h' := RunStep(m, t), RecordRun(m, h, t);
    assert LocalOk(m, h, t);
    WrapStep(Available(h), -1);
    forall b | b in m'.heap ensures PlaceOk(m', h', b) { assert PlaceOk(m, h, b); }
    forall s | 0 <= s < |h.born| ensures StampOk(m', h', s) { assert StampOk(m, h, s); }
    forall i | 0 <= i < |h.chain| ensures ChainOk(m', h', i) { assert ChainOk(m, h, i); }
    forall i | 0 <= i < |h.delivered| ensures DeliveredOk(h', i) { assert DeliveredOk(h, i); }
  }

  lemma ReserveLocals(m: Machine, h: History, t: Tid)
    requires Inv(m, h) && t in m.threads && m.threads[t].PopReserve? && Signed32(m.count) == m.threads[t].oldCount
    ensures Locals(RunStep(m, t), RecordRun(m, h, t))
  {
    var m', h' := RunStep(m, t), RecordRun(m, h, t);
    assert LocalOk(m, h, t);
    forall u | u in m'.threads ensures LocalOk(m', h', u) {
      if u != t { LocalBasics(m, h, u); LocalFrame(m, h, m', h', u); }
    }
  }

  // ---------- any step ----------

  lemma PushKeeps(m: Machine, h: History, t: Tid)
    requires Inv(m, h) && t in m.threads && InPush(m.threads[t])
    ensures Inv(RunStep(m, t), RecordRun(m, h, t))
  {
    assert LocalOk(m, h, t);
    match m.threads[t]
    case PushData(a, v) =>
      WriteStep(m, h, a, Load(m, a).(data := v), Some(t));
      QuietStep(m.(heap := m.heap[a := Load(m, a).(data := v)]), h, t, PushTag(a, v));
    case PushTag(_, _) => TagShape(m, h, t); TagLocals(m, h, t);
    case PushRead(a, v, w) => QuietStep(m, h, t, PushLink(a, v, w, m.top));
    case PushLink(a, v, w, seen) =>
      WriteStep(m, h, a, Load(m, a).(next := seen), Some(t));
      QuietStep(m.(heap := m.heap[a := Load(m, a).(next := seen)]), h, t, PushCas(a, v, w, seen));
    case PushCas(a, v, w, seen) =>
      if m.top == seen { LinkShape(m, h, t); LinkLocals(m, h, t); } else { QuietStep(m, h, t, PushRead(a, v, w)); }
    case PushCount => CountShape(m, h, t); CountLocals(m, h, t);
  }

  lemma PopKeeps(m: Machine, h: History, t: Tid)
    requires Inv(m, h) && t in m.threads && !InPush(m.threads[t]) && InWindow(m, h, Run(t))
    ensures Inv(RunStep(m, t), RecordRun(m, h, t))
  {
    assert LocalOk(m, h, t);
    match m.threads[t]
    case Idle(_) =>
    case PopCheck => QuietStep(m, h, t, RunStep(m, t).threads[t]);
    case PopReserve(n) =>
      if Signed32(m.count) == n { ReserveShape(m, h, t); ReserveLocals(m, h, t); } else { QuietStep(m, h, t, PopCheck); }
    case PopTop => SeeTopShape(m, h, t); SeeTopLocals(m, h, t);
    case PopNext(w) =>
      StackedPlace(m, h, CellFor(h, t));
      QuietStep(m, h, t, PopCas(w, Load(m, w.addr).next));
    case PopCas(w, _) =>
      if m.top == w { RemoveShape(m, h, t); RemoveLocals(m, h, t); } else { QuietStep(m, h, t, PopTop); }
    case PopData(a) => QuietStep(m, h, t, PopFree(a, Load(m, a).data));
    case PopFree(_, _) => FreeShape(m, h, t); FreeLocals(m, h, t);
  }

  lemma StepKeeps(m: Machine, h: History, act: Action)
    requires Inv(m, h) && Enabled(m, act) && InWindow(m, h, act)
    ensures Inv(Step(m, act), Record(m, h, act))
  {
    match act
    case BeginPush(t, v, a) => AllocShape(m, h, t, v, a); AllocLocals(m, h, t, v, a);
    case BeginPop(t) => assert LocalOk(m, h, t); QuietStep(m, h, t, PopCheck);
    case Run(t) => if InPush(m.threads[t]) { PushKeeps(m, h, t); } else { PopKeeps(m, h, t); }
    case Scribble(a, junk) => assert PlaceOk(m, h, a); WriteStep(m, h, a, junk, None);
  }
}
