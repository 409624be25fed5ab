/** What the stack guarantees over whole runs. */
module StackTheorems {
  import opened Words
  import opened StackMachine
  import opened StackInvariant
  import opened StackSteps
  import opened Journals
  import opened StackJournal

  datatype State = State(m: Machine, h: History, j: Journal)

  function Begin(m: Machine): State {
    State(m, Start(m), BLANK)
  }

  /** The events lead to what the stack holds; a quantifier, so that it is unfolded on request only. */
  ghost predicate InOrder(h: History, j: Journal) {
    forall vs {:trigger StackLeadsTo(j.events, vs)} :: vs == Contents(h) ==> StackLeadsTo(j.events, vs)
  }

  ghost predicate Good(s: State) {
    Inv(s.m, s.h) && JournalOk(s.m, s.h, s.j) && InOrder(s.h, s.j)
  }

  lemma GoodOrder(s: State)
    requires Good(s)
    ensures ReplayStack(s.j.events) == Some(Contents(s.h))
  {
    assert StackLeadsTo(s.j.events, Contents(s.h));
  }

  /** One scheduled action; an action the machine cannot take leaves it unchanged. */
  function After(s: State, act: Action): State {
    if Enabled(s.m, act) then State(Step(s.m, act), Record(s.m, s.h, act), Write(s.m, s.j, act)) else s
  }

  function Exec(s: State, acts: seq<Action>): State {
    if acts == [] then s else After(Exec(s, acts[..|acts| - 1]), acts[|acts| - 1])
  }

  /** Every compare-exchange of Top by a Pop in the run falls inside the tag window. */
  ghost predicate WindowHeld(s: State, acts: seq<Action>) {
    acts == [] ||
    var before := Exec(s, acts[..|acts| - 1]);
    WindowHeld(s, acts[..|acts| - 1]) && InWindow(before.m, before.h, acts[|acts| - 1])
  }

  lemma StepKeepsGood(s: State, act: Action)
    requires Good(s) && Enabled(s.m, act) && InWindow(s.m, s.h, act)
    ensures Good(After(s, act))
  {
    StepKeeps(s.m, s.h, act);
    StepKeepsJournal(s.m, s.h, s.j, act);
    GoodOrder(s);
    StepKeepsOrder(s.m, s.h, s.j, act);
  }

  /** ABA safety over runs: any threads, any schedule, any reuse and overwriting of pooled nodes. */
  lemma {:induction false} RunKeepsInv(s: State, acts: seq<Action>)
    requires Good(s) && WindowHeld(s, acts)
    ensures Good(Exec(s, acts))
  {
    if acts != [] {
      RunKeepsInv(s, acts[..|acts| - 1]);
      var before, act := Exec(s, acts[..|acts| - 1]), acts[|acts| - 1];
      if Enabled(before.m, act) { StepKeepsGood(before, act); }
    }
  }

  lemma BeginGood(m: Machine)
    requires Init(m)
    ensures Good(Begin(m))
  {
    InitInv(m);
    InitJournal(m);
  }

  // ---------- the stack in memory ----------

  /** The nodes met by following `next` from `w`, at most `fuel` of them, and the word reached. */
  function Walk(m: Machine, w: Word, fuel: nat): (seq<Addr>, Word)
    decreases fuel
  {
    if fuel == 0 || w.addr == NULL then ([], w) else
    var (rest, last) := Walk(m, Load(m, w.addr).next, fuel - 1);
    ([w.addr] + rest, last)
  }

  function Addresses(cells: seq<Cell>): (r: seq<Addr>)
    ensures |r| == |cells| && forall i :: 0 <= i < |cells| ==> r[i] == cells[|cells| - 1 - i].addr
  {
    if cells == [] then [] else [cells[|cells| - 1].addr] + Addresses(cells[..|cells| - 1])
  }

  lemma {:induction false} WalkBelow(m: Machine, h: History, n: nat)
    requires Inv(m, h) && n <= |h.chain|
    ensures Walk(m, Below(h.chain, n), n) == (Addresses(h.chain[..n]), ZERO)
  {
    if n > 0 {
      assert ChainOk(m, h, n - 1);
      WalkBelow(m, h, n - 1);
      assert h.chain[..n][..n - 1] == h.chain[..n - 1];
    }
  }

  /** From Top, memory holds one finite chain that ends in null, meets no node twice,
      meets no free node, and carries the abstract stack's values. */
  lemma StackInMemory(m: Machine, h: History)
    requires Inv(m, h)
    ensures Walk(m, m.top, |h.chain|) == (Addresses(h.chain), ZERO)
    ensures forall i, j :: 0 <= i < j < |h.chain| ==> h.chain[i].addr != h.chain[j].addr
    ensures forall i :: 0 <= i < |h.chain| ==>
      h.chain[i].addr in m.heap && h.chain[i].addr !in m.free && m.heap[h.chain[i].addr].data == h.chain[i].value
  {
    WalkBelow(m, h, |h.chain|);
    assert h.chain[..|h.chain|] == h.chain;
    forall i | 0 <= i < |h.chain|
      ensures h.chain[i].addr in m.heap && h.chain[i].addr !in m.free
      ensures m.heap[h.chain[i].addr].data == h.chain[i].value
    {
      assert ChainOk(m, h, i) && PlaceOk(m, h, h.chain[i].addr);
    }
    forall i, j | 0 <= i < j < |h.chain| ensures h.chain[i].addr != h.chain[j].addr {
      assert ChainOk(m, h, i) && ChainOk(m, h, j);
    }
  }

  // ---------- who has a node, who has a value ----------

  ghost predicate InStack(h: History, a: Addr) {
    exists i :: 0 <= i < |h.chain| && h.chain[i].addr == a
  }

  ghost predicate HeldBy(m: Machine, t: Tid, a: Addr) {
    t in m.threads && Owns(PhaseOf(m.threads[t]), a)
  }

  /** Pool, stack, or the hands of one thread: each node is in exactly one of them. */
  lemma OneHome(m: Machine, h: History, a: Addr)
    requires Inv(m, h) && a in m.heap
    ensures a in m.free || InStack(h, a) || exists t :: HeldBy(m, t, a)
    ensures !(a in m.free && InStack(h, a))
    ensures forall t :: HeldBy(m, t, a) ==> a !in m.free && !InStack(h, a)
    ensures forall t, u :: HeldBy(m, t, a) && HeldBy(m, u, a) ==> t == u
  {
    assert PlaceOk(m, h, a);
    if h.place[a].Stack? { LastIsStacked(m, h, a); }
    if h.place[a].Hand? { assert HeldBy(m, h.place[a].t, a); }
    if InStack(h, a) {
      var i :| 0 <= i < |h.chain| && h.chain[i].addr == a;
      assert ChainOk(m, h, i);
    }
    forall t | HeldBy(m, t, a) ensures h.place[a] == Hand(t) { assert LocalOk(m, h, t); }
  }

  lemma LastIsStacked(m: Machine, h: History, a: Addr)
    requires Inv(m, h) && a in m.heap && a in h.place && h.place[a] == Stack
    ensures InStack(h, a)
  {
    assert PlaceOk(m, h, a);
    var s := h.last[a] - 1;
    assert StampOk(m, h, s);
    assert h.chain[h.fate[s].position].addr == a;
  }

  ghost predicate WaitsWith(m: Machine, h: History, t: Tid, c: Cell) {
    t in m.threads && PhaseOf(m.threads[t]).Waits? && CellFor(h, t) == c
  }

  ghost predicate TookAway(m: Machine, h: History, t: Tid, c: Cell) {
    t in m.threads && PhaseOf(m.threads[t]).Takes? && CellFor(h, t) == c
  }

  /** Conservation: every push that was stamped is waiting, in the stack, taken or delivered,
      in one of them only, by one thread only, and delivered at most once. */
  lemma EachPushOnce(m: Machine, h: History, c: Cell)
    requires Inv(m, h) && c in h.born
    ensures (exists t :: WaitsWith(m, h, t, c)) || c in h.chain || (exists t :: TookAway(m, h, t, c)) || c in h.delivered
    ensures forall t, u :: WaitsWith(m, h, t, c) && WaitsWith(m, h, u, c) ==> t == u
    ensures forall t, u :: TookAway(m, h, t, c) && TookAway(m, h, u, c) ==> t == u
    ensures forall t :: WaitsWith(m, h, t, c) ==> c !in h.chain && c !in h.delivered
    ensures forall t :: TookAway(m, h, t, c) ==> c !in h.chain && c !in h.delivered
    ensures forall t, u :: !(WaitsWith(m, h, t, c) && TookAway(m, h, u, c))
    ensures !(c in h.chain && c in h.delivered)
    ensures forall i, j :: 0 <= i < j < |h.delivered| ==> h.delivered[i] != h.delivered[j]
  {
    var s :| 0 <= s < |h.born| && h.born[s] == c;
    assert StampOk(m, h, s);
    var f := h.fate[s];
    match f {
      case Pending(t) => assert WaitsWith(m, h, t, c);
      case Stacked(i) => assert h.chain[i] == c;
      case Taken(t) => assert TookAway(m, h, t, c);
      case Delivered(i) => assert h.delivered[i] == c;
    }
    forall t | WaitsWith(m, h, t, c) ensures f == Pending(t) { assert LocalOk(m, h, t); }
    forall t | TookAway(m, h, t, c) ensures f == Taken(t) { assert LocalOk(m, h, t); }
    if c in h.chain { var i :| 0 <= i < |h.chain| && h.chain[i] == c; assert ChainOk(m, h, i); }
    if c in h.delivered { var i :| 0 <= i < |h.delivered| && h.delivered[i] == c; assert DeliveredOk(h, i); }
    forall i, j | 0 <= i < j < |h.delivered| ensures h.delivered[i] != h.delivered[j] {
      assert DeliveredOk(h, i) && DeliveredOk(h, j);
    }
  }

  // ---------- refinement ----------

  /** Memory holds the values `vs`, bottom up, in the list that `w` leads to. */
  ghost predicate MemoryHolds(m: Machine, w: Word, vs: seq<Value>)
    decreases |vs|
  {
    if vs == [] then w == ZERO else
    && w.addr != NULL && w.addr in m.heap
    && m.heap[w.addr].data == vs[|vs| - 1]
    && MemoryHolds(m, m.heap[w.addr].next, vs[..|vs| - 1])
  }

  /** A list in memory holds one sequence of values only. */
  lemma {:induction false} HoldsOne(m: Machine, w: Word, vs: seq<Value>, ws: seq<Value>)
    requires MemoryHolds(m, w, vs) && MemoryHolds(m, w, ws)
    ensures vs == ws
    decreases |vs|
  {
    if vs != [] && ws != [] {
      HoldsOne(m, m.heap[w.addr].next, vs[..|vs| - 1], ws[..|ws| - 1]);
      assert vs == vs[..|vs| - 1] + [vs[|vs| - 1]] && ws == ws[..|ws| - 1] + [ws[|ws| - 1]];
    }
  }

  lemma {:induction false} HoldsBelow(m: Machine, h: History, n: nat)
    requires Inv(m, h) && n <= |h.chain|
    ensures MemoryHolds(m, Below(h.chain, n), Values(h.chain[..n]))
  {
    if n > 0 {
      assert ChainOk(m, h, n - 1);
      HoldsBelow(m, h, n - 1);
      assert h.chain[..n][..n - 1] == h.chain[..n - 1];
      assert Values(h.chain[..n])[..n - 1] == Values(h.chain[..n - 1]);
    }
  }

  /** What the list from Top holds is the abstract stack, and nothing else. */
  lemma HoldsExactly(m: Machine, h: History, vs: seq<Value>)
    requires Inv(m, h)
    ensures MemoryHolds(m, m.top, vs) <==> vs == Contents(h)
  {
    HoldsBelow(m, h, |h.chain|);
    assert h.chain[..|h.chain|] == h.chain;
    if MemoryHolds(m, m.top, vs) { HoldsOne(m, m.top, vs, Contents(h)); }
  }

  predicate LinksNow(m: Machine, act: Action) {
    act.Run? && Enabled(m, act) && m.threads[act.t].PushCas? && m.top == m.threads[act.t].oldTop
  }

  predicate RemovesNow(m: Machine, act: Action) {
    act.Run? && Enabled(m, act) && m.threads[act.t].PopCas? && m.top == m.threads[act.t].top
  }

  /** Every action of the machine is a push of the pushed value, a pop of the top value, or
      nothing at all to the stack in memory; it is a push or pop exactly at a winning Top CAS, and
      the value popped is the one the thread will read from the node it took. */
  lemma {:induction false} StepRefines(m: Machine, h: History, act: Action, vs: seq<Value>)
    requires Inv(m, h) && Enabled(m, act) && InWindow(m, h, act) && MemoryHolds(m, m.top, vs)
    ensures var m' := Step(m, act);
      if LinksNow(m, act) then MemoryHolds(m', m'.top, vs + [m.threads[act.t].value])
      else if RemovesNow(m, act) then
        && vs != [] && MemoryHolds(m', m'.top, vs[..|vs| - 1])
        && m'.threads == m.threads[act.t := PopData(m.top.addr)] && Load(m', m.top.addr).data == vs[|vs| - 1]
      else MemoryHolds(m', m'.top, vs)
  {
    var m', h' := Step(m, act), Record(m, h, act);
    StepKeeps(m, h, act);
    HoldsExactly(m, h, vs);
    HoldsExactly(m', h', Contents(h'));
    ContentsStep(m, h, act);
  }

  lemma ContentsStep(m: Machine, h: History, act: Action)
    requires Inv(m, h) && Enabled(m, act) && InWindow(m, h, act)
    ensures var m', c, c' := Step(m, act), Contents(h), Contents(Record(m, h, act));
      if LinksNow(m, act) then c' == c + [m.threads[act.t].value]
      else if RemovesNow(m, act) then
        && c != [] && c' == c[..|c| - 1]
        && m'.threads == m.threads[act.t := PopData(m.top.addr)] && Load(m', m.top.addr).data == c[|c| - 1]
      else c' == c
  {
    if act.Run? { EventFits(m, h, act.t, 0); }
  }

  /** A Pop returns the value it took off the abstract stack; that delivery is recorded once. */
  lemma PopReturnsWhatItTook(m: Machine, h: History, t: Tid)
    requires Inv(m, h) && t in m.threads && m.threads[t].PopFree?
    ensures RunStep(m, t).threads[t] == Idle(Popped(CellFor(h, t).value))
    ensures RecordRun(m, h, t).delivered == h.delivered + [CellFor(h, t)]
    ensures CellFor(h, t) in h.born && CellFor(h, t) !in h.delivered
  {
    assert LocalOk(m, h, t);
    var c := CellFor(h, t);
    forall i | 0 <= i < |h.delivered| ensures h.delivered[i] != c { assert DeliveredOk(h, i); }
  }

  /** Between its winning CAS and its return nothing disturbs what a Pop took: its locals, the cell,
      and the node with its value in memory. */
  lemma TakenIsStable(m: Machine, h: History, act: Action, t: Tid)
    requires Inv(m, h) && Enabled(m, act) && t in m.threads && PhaseOf(m.threads[t]).Takes? && act != Run(t)
    ensures t in Step(m, act).threads && Step(m, act).threads[t] == m.threads[t]
    ensures CellFor(Record(m, h, act), t) == CellFor(h, t)
    ensures var a := PhaseOf(m.threads[t]).node;
      a in m.heap && a in Step(m, act).heap && Step(m, act).heap[a] == m.heap[a] && a !in Step(m, act).free
  {
    LocalBasics(m, h, t);
    assert PlaceOk(m, h, PhaseOf(m.threads[t]).node);
    if act.Run? {
      RunMovesOne(m, act.t);
      RecordMovesOne(m, h, act.t, t);
      LocalBasics(m, h, act.t);
      RunWritesOwn(m, act.t);
    }
  }

  /** A thread writes to no node but its own, and releases no other. */
  lemma RunWritesOwn(m: Machine, t: Tid)
    requires t in m.threads
    ensures forall a :: a in m.heap && !Owns(PhaseOf(m.threads[t]), a) ==>
      a in RunStep(m, t).heap && RunStep(m, t).heap[a] == m.heap[a] && (a in RunStep(m, t).free ==> a in m.free)
  {
  }

  /** Every address a thread's next step goes through is that of a node, whatever lies in the nodes
      of the pool: the word a Pop reads from a node it saw is not followed before its CAS wins. */
  ghost predicate TouchesNodes(m: Machine) {
    forall t :: t in m.threads && Touches(m.threads[t]).Some? ==> Touches(m.threads[t]).value in m.heap
  }

  /** `Touches` names all there is to a step: with any other content in all other nodes, the step does
      the same to everything but these, leaves these as they are, and gives none of them back. */
  lemma StepTouchesNoOther(m: Machine, t: Tid, other: map<Addr, Node>)
    requires t in m.threads && other.Keys == m.heap.Keys
    requires forall a :: a in m.heap && Touches(m.threads[t]) == Some(a) ==> other[a] == m.heap[a]
    ensures OnlyTouched(m, t, other, RunStep(m, t), RunStep(m.(heap := other), t))
  {
    if InPush(m.threads[t]) { PushTouchesNoOther(m, t, other); } else { PopTouchesNoOther(m, t, other); }
  }

  ghost predicate OnlyTouched(m: Machine, t: Tid, other: map<Addr, Node>, r: Machine, r': Machine)
    requires t in m.threads && other.Keys == m.heap.Keys
  {
    && r'.(heap := r.heap) == r && r'.heap.Keys == r.heap.Keys
    && (r.free == m.free || (Touches(m.threads[t]).Some? && r.free == m.free + {Touches(m.threads[t]).value}))
    && forall a :: a in r.heap ==>
         if Touches(m.threads[t]) == Some(a) then r'.heap[a] == r.heap[a]
         else a in m.heap && r.heap[a] == m.heap[a] && r'.heap[a] == other[a]
  }

  lemma PushTouchesNoOther(m: Machine, t: Tid, other: map<Addr, Node>)
    requires t in m.threads && InPush(m.threads[t]) && other.Keys == m.heap.Keys
    requires forall a :: a in m.heap && Touches(m.threads[t]) == Some(a) ==> other[a] == m.heap[a]
    ensures OnlyTouched(m, t, other, RunStep(m, t), RunStep(m.(heap := other), t))
  {
    match m.threads[t]
    case PushData(_, _) =>
    case PushLink(_, _, _, _) =>
    case _ =>
  }

  lemma PopTouchesNoOther(m: Machine, t: Tid, other: map<Addr, Node>)
    requires t in m.threads && !InPush(m.threads[t]) && other.Keys == m.heap.Keys
    requires forall a :: a in m.heap && Touches(m.threads[t]) == Some(a) ==> other[a] == m.heap[a]
    ensures OnlyTouched(m, t, other, RunStep(m, t), RunStep(m.(heap := other), t))
  {
    match m.threads[t]
    case PopNext(_) =>
    case PopData(_) =>
    case PopFree(_, _) =>
    case _ =>
  }

  lemma InvTouchesNodes(m: Machine, h: History)
    requires Inv(m, h)
    ensures TouchesNodes(m)
  {
    forall t | t in m.threads ensures Touches(m.threads[t]).Some? ==> Touches(m.threads[t]).value in m.heap {
      assert LocalOk(m, h, t);
    }
  }

  /** Linearizability, for any threads, any schedule and any reuse of nodes inside the tag window:
      every call that has returned took effect once, at one event of its own between its start and
      its end, and answered with the value of that event; the events in order are a legal history
      of a sequential stack; that history leads to exactly what memory holds; no Pop that had
      reserved came back with nothing; and no thread goes through an address that is no node. */
  lemma {:induction false} RunRefinesStack(m0: Machine, acts: seq<Action>)
    requires Init(m0) && WindowHeld(Begin(m0), acts)
    ensures var s := Exec(Begin(m0), acts);
      && Linearized(s.j)
      && ReplayStack(s.j.events).Some? && MemoryHolds(s.m, s.m.top, ReplayStack(s.j.events).value)
      && (forall t :: t in s.m.threads ==> s.m.threads[t] != Idle(NoTop))
      && TouchesNodes(s.m)
  {
    BeginGood(m0);
    RunKeepsInv(Begin(m0), acts);
    var s := Exec(Begin(m0), acts);
    GoodOrder(s);
    HoldsExactly(s.m, s.h, Contents(s.h));
    RightIsLinearized(s.j, Statuses(s.m, s.h));
    InvTouchesNodes(s.m, s.h);
    forall t | t in s.m.threads ensures s.m.threads[t] != Idle(NoTop) { assert LocalOk(s.m, s.h, t); }
  }

  // ---------- counting ----------

  /** `count` plus reservations plus uncounted links is the chain length, modulo 2^32;
      and reservations never outrun the chain. */
  lemma CountAccounts(m: Machine, h: History)
    requires Inv(m, h)
    ensures (m.count + |h.reserved| + |h.linked|) % TWO32 == |h.chain| % TWO32
    ensures |h.reserved| + |h.linked| <= |h.chain|
    ensures |h.chain| < TWO31 ==> Signed32(m.count) == |h.chain| - |h.reserved| - |h.linked|
    ensures forall t :: t in m.threads ==>
      (t in h.reserved <==> PhaseOf(m.threads[t]).Reserves?) && (t in h.linked <==> PhaseOf(m.threads[t]).Linked?)
  {
    WrapStep(Available(h), |h.reserved| + |h.linked|);
    forall t | t in m.threads
      ensures (t in h.reserved <==> PhaseOf(m.threads[t]).Reserves?) && (t in h.linked <==> PhaseOf(m.threads[t]).Linked?)
    {
      assert LocalOk(m, h, t);
    }
  }

  /** Every node of the chain is either reserved by a Pop that has not removed it yet or linked by a
      Push that has not counted it yet; modulo the 32-bit sign, which matters from 2^31 elements on. */
  ghost predicate AllSpokenFor(h: History) {
    (|h.chain| - |h.reserved| - |h.linked|) % TWO32 == 0 || (|h.chain| - |h.reserved| - |h.linked|) % TWO32 >= TWO31
  }

  /** Pop returns 0 for want of count exactly when every node of the chain is spoken for. */
  lemma NoCountMeansAllSpokenFor(m: Machine, h: History, t: Tid)
    requires Inv(m, h) && t in m.threads && m.threads[t].PopCheck?
    ensures RunStep(m, t).threads[t] == Idle(NoCount) <==> AllSpokenFor(h)
    ensures |h.chain| < TWO31 ==>
      (RunStep(m, t).threads[t] == Idle(NoCount) <==> |h.chain| == |h.reserved| + |h.linked|)
  {
  }

  /** When that 0 means empty: the stack is empty at that moment exactly if no Push has linked without
      counting yet and no Pop has reserved without removing yet. */
  lemma NoCountMeansEmptyExactly(m: Machine, h: History, t: Tid)
    requires Inv(m, h) && t in m.threads && m.threads[t].PopCheck? && |h.chain| < TWO31
    requires RunStep(m, t).threads[t] == Idle(NoCount)
    ensures Contents(h) == [] <==> h.reserved == {} && h.linked == {}
    ensures Contents(h) == [] <==>
      forall u :: u in m.threads ==> !PhaseOf(m.threads[u]).Reserves? && !PhaseOf(m.threads[u]).Linked?
  {
    NoCountMeansAllSpokenFor(m, h, t);
    CountAccounts(m, h);
    assert Contents(h) == [] <==> h.reserved == {} && h.linked == {};
    if forall u :: u in m.threads ==> !PhaseOf(m.threads[u]).Reserves? && !PhaseOf(m.threads[u]).Linked? {
      assert h.reserved == {} && h.linked == {};
    }
  }

  /** When no call is in flight, GetSize is the number of elements. */
  lemma QuietSize(m: Machine, h: History)
    requires Inv(m, h) && |h.chain| < TWO31
    requires forall t :: t in m.threads ==> m.threads[t].Idle?
    ensures Signed32(m.count) == |h.chain|
  {
    CountAccounts(m, h);
    assert h.reserved == {} && h.linked == {};
  }

  // ---------- progress ----------

  predicate WinsTop(m: Machine, act: Action) {
    LinksNow(m, act) || RemovesNow(m, act)
  }

  predicate LosesTop(m: Machine, act: Action) {
    act.Run? && Enabled(m, act) && (m.threads[act.t].PushCas? || m.threads[act.t].PopCas?) && !WinsTop(m, act)
  }

  function ActorOf(act: Action): Option<Tid> {
    if act.Scribble? then None else Some(act.t)
  }

  /** How often thread `t` failed its Top CAS in the run. */
  function Losses(s: State, acts: seq<Action>, t: Tid): nat {
    if acts == [] then 0 else
    var pre, act := acts[..|acts| - 1], acts[|acts| - 1];
    Losses(s, pre, t) + if ActorOf(act) == Some(t) && LosesTop(Exec(s, pre).m, act) then 1 else 0
  }

  /** How often other threads won theirs. */
  function OthersWins(s: State, acts: seq<Action>, t: Tid): nat {
    if acts == [] then 0 else
    var pre, act := acts[..|acts| - 1], acts[|acts| - 1];
    OthersWins(s, pre, t) + if ActorOf(act) != Some(t) && WinsTop(Exec(s, pre).m, act) then 1 else 0
  }

  /** Thread `t` remembers a word that Top no longer holds. */
  predicate Stale(m: Machine, t: Tid) {
    t in m.threads &&
    match m.threads[t]
    case PushLink(_, _, _, seen) => seen != m.top
    case PushCas(_, _, _, seen) => seen != m.top
    case PopNext(w) => w != m.top
    case PopCas(w, _) => w != m.top
    case _ => false
  }

  lemma StaleStep(m: Machine, act: Action, t: Tid)
    requires Enabled(m, act)
    ensures Stale(Step(m, act), t) ==> Stale(m, t) || (ActorOf(act) != Some(t) && WinsTop(m, act))
    ensures ActorOf(act) == Some(t) && LosesTop(m, act) ==> Stale(m, t) && !Stale(Step(m, act), t)
  {
  }

  /** Lock freedom, counted: from any state in which `t` is not already stale, its failed Top
      CASes never exceed the Top CASes others win. So a Push, or the removal loop of a Pop,
      overlapped by k such wins makes at most k + 1 attempts. */
  lemma {:induction false} FailuresArePaidFor(s: State, acts: seq<Action>, t: Tid)
    requires !Stale(s.m, t)
    ensures Losses(s, acts, t) + (if Stale(Exec(s, acts).m, t) then 1 else 0) <= OthersWins(s, acts, t)
  {
    if acts != [] {
      var pre, act := acts[..|acts| - 1], acts[|acts| - 1];
      FailuresArePaidFor(s, pre, t);
      if Enabled(Exec(s, pre).m, act) { StaleStep(Exec(s, pre).m, act, t); }
    }
  }

  predicate LosesCount(m: Machine, act: Action) {
    act.Run? && Enabled(m, act) && m.threads[act.t].PopReserve? && Signed32(m.count) != m.threads[act.t].oldCount
  }

  function CountLosses(s: State, acts: seq<Action>, t: Tid): nat {
    if acts == [] then 0 else
    var pre, act := acts[..|acts| - 1], acts[|acts| - 1];
    CountLosses(s, pre, t) + if ActorOf(act) == Some(t) && LosesCount(Exec(s, pre).m, act) then 1 else 0
  }

  /** How often actions of others changed `count`. */
  function OthersCounts(s: State, acts: seq<Action>, t: Tid): nat {
    if acts == [] then 0 else
    var pre, act := acts[..|acts| - 1], acts[|acts| - 1];
    var before := Exec(s, pre).m;
    OthersCounts(s, pre, t) + if ActorOf(act) != Some(t) && After(Exec(s, pre), act).m.count != before.count then 1 else 0
  }

  predicate StaleCount(m: Machine, t: Tid) {
    t in m.threads && m.threads[t].PopReserve? && Signed32(m.count) != m.threads[t].oldCount
  }

  lemma StaleCountStep(m: Machine, act: Action, t: Tid)
    requires Enabled(m, act)
    ensures StaleCount(Step(m, act), t) ==>
      StaleCount(m, t) || (ActorOf(act) != Some(t) && Step(m, act).count != m.count)
    ensures ActorOf(act) == Some(t) && LosesCount(m, act) ==> StaleCount(m, t) && !StaleCount(Step(m, act), t)
  {
  }

  /** The reservation loop of Pop repeats only when another thread changed `count`. */
  lemma {:induction false} ReservationFailuresArePaidFor(s: State, acts: seq<Action>, t: Tid)
    requires !StaleCount(s.m, t)
    ensures CountLosses(s, acts, t) + (if StaleCount(Exec(s, acts).m, t) then 1 else 0) <= OthersCounts(s, acts, t)
  {
    if acts != [] {
      var pre, act := acts[..|acts| - 1], acts[|acts| - 1];
      ReservationFailuresArePaidFor(s, pre, t);
      if Enabled(Exec(s, pre).m, act) { StaleCountStep(Exec(s, pre).m, act, t); }
    }
  }
}
