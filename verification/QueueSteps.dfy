/** Every step of the queue machine keeps the invariant, under the allocator guard and as long as
    every CAS of head or tail is in reach of what its thread saw. */
module QueueSteps {
  import opened Words
  import opened QueueMachine
  import opened QueueInvariant

  function Start(m: Machine): History {
    History([Cell(m.head.addr, 0, Load(m, m.head.addr).data)], 0, 0, [Live],
            map a | a in m.heap :: if a == m.head.addr then At(0) else Pool,
            map[], [Linked(0)], map a | a in m.heap :: 0, map[], [], {}, {}, {}, 0, 0)
  }

  lemma InitInv(m: Machine)
    requires Init(m)
    ensures Inv(m, Start(m))
  {
    var h := Start(m);
    forall a | a in m.heap ensures PlaceOk(m, h, a) {}
  }

  /** The node a thread saw is still the same incarnation, or was stamped fewer than 2^17 increments
      ago, so that its tag is not in use again. */
  ghost predicate InReach(h: History, i: nat) {
    i < |h.chain| && (Intact(h, i) || |h.stamps| <= h.chain[i].stamp + TAGS)
  }

  /** Every CAS of tail, and every CAS of head among many consumers, is in reach of the node seen. */
  ghost predicate CasInReach(m: Machine, h: History, act: Action) {
    act.Run? && act.t in m.threads
    && (m.threads[act.t].ManyCas? || m.threads[act.t].EnqHelp? || m.threads[act.t].EnqSwing?)
    ==> InReach(h, Seen(h, act.t))
  }

  /** Two program points that mean the same to everybody else. */
  predicate Alike(m: Machine, l: Local, l': Local) {
    NodeOf(l) == NodeOf(l') && AccountOf(m, l) == AccountOf(m, l') && IsRemoving(l) == IsRemoving(l')
  }

  // ---------- what a step must leave alone for the other threads ----------

  /** The part of the state that thread `u` relies on is undisturbed between two states. */
  ghost predicate Undisturbed(m: Machine, h: History, m': Machine, h': History, u: Tid)
    requires u in m.threads
  {
    var l := m.threads[u];
    && u in m'.threads && m'.threads[u] == l && m'.variant == m.variant
    && Seen(h', u) == Seen(h, u)
    && (u in h'.linked <==> u in h.linked) && (u in h'.reserved <==> u in h.reserved)
    && (u in h'.removed <==> u in h.removed)
    && h.chain <= h'.chain && |h'.fate| == |h'.chain| && h.headPos <= h'.headPos && h.tailPos <= h'.tailPos
    && (m.variant == SingleConsumer(u) ==> h'.headPos == h.headPos)
    && (NodeOf(l).Some? ==>
         var a := NodeOf(l).value;
         a in m.heap && a in m'.heap && m'.heap[a] == m.heap[a] && a in h'.place && h'.place[a] == Hand(u))
    && (Pinning(l).Some? ==> Seen(h, u) < |h'.chain| && Intact(h', Seen(h, u)))
    && (NodeOf(l).Some? ==>
         var a, s := NodeOf(l).value, MyStamp(h, u);
         && MyStamp(h', u) == s && (a in h.last ==> a in h'.last && h'.last[a] == h.last[a])
         && (s < |h.stamps| && h.stamps[s] == Waiting(u) ==> s < |h'.stamps| && h'.stamps[s] == Waiting(u)))
    && (IsRemoving(l) ==> Seen(h, u) < |h'.fate| && h'.fate[Seen(h, u)] == Removing(u))
  }

  lemma LocalFrame(m: Machine, h: History, m': Machine, h': History, u: Tid)
    requires u in m.threads && LocalOk(m, h, u) && Undisturbed(m, h, m', h', u)
    ensures LocalOk(m', h', u)
  {
  }

  /** The common clauses of a thread's invariant, without the details of its program counter. */
  lemma LocalBasics(m: Machine, h: History, u: Tid)
    requires Inv(m, h) && u in m.threads
    ensures LocalOk(m, h, u)
    ensures var l, i := m.threads[u], Seen(h, u);
      && |h.fate| == |h.chain|
      && (NodeOf(l).Some? ==> Mine(m, h, u, NodeOf(l).value))
      && (Looking(l).Some? ==> Saw(h, i, Looking(l).value))
      && (Pinning(l).Some? ==> Intact(h, i))
      && (IsRemoving(l) ==> i < |h.fate| && h.fate[i] == Removing(u))
      && (Looking(l).Some? && !IsRemoving(l) && !Enqueuing(l) ==> i <= h.headPos)
  {
  }

  // ---------- steps that move only locals ----------

  /** A step that changes nothing but its own thread's locals. */
  lemma QuietStep(m: Machine, h: History, t: Tid, l: Local)
    requires Inv(m, h) && t in m.threads && Alike(m, m.threads[t], l)
    requires LocalOk(Goto(m, t, l), h, t)
    ensures Inv(Goto(m, t, l), h)
  {
    var m' := Goto(m, t, l);
    forall a | a in m'.heap ensures PlaceOk(m', h, a) { assert PlaceOk(m, h, a); }
    forall i | 0 <= i < |h.chain| ensures PosOk(m', h, i) { assert PosOk(m, h, i); }
    forall u | u in m'.threads ensures LocalOk(m', h, u) {
      if u != t { LocalBasics(m, h, u); LocalFrame(m, h, m', h, u); }
    }
  }

  lemma LookShape(m: Machine, h: History, t: Tid, l: Local, i: nat)
    requires Inv(m, h) && t in m.threads && Alike(m, m.threads[t], l) && !IsRemoving(l)
    ensures Shape(Goto(m, t, l), h.(seen := h.seen[t := i]))
  {
    var m', h' := Goto(m, t, l), h.(seen := h.seen[t := i]);
    forall a | a in m'.heap ensures PlaceOk(m', h', a) { assert PlaceOk(m, h, a); }
    forall i | 0 <= i < |h.chain| ensures PosOk(m', h', i) { assert PosOk(m, h, i); }
    forall k | 0 <= k < |h.delivered| ensures DeliveredOk(h', k) { assert DeliveredOk(h, k); }
  }

  /** Reading `tail` or `head`: the thread now looks at position `i`. */
  lemma LookStep(m: Machine, h: History, t: Tid, l: Local, i: nat)
    requires Inv(m, h) && t in m.threads && Alike(m, m.threads[t], l) && !IsRemoving(l)
    requires LocalOk(Goto(m, t, l), h.(seen := h.seen[t := i]), t)
    ensures Inv(Goto(m, t, l), h.(seen := h.seen[t := i]))
  {
    LookShape(m, h, t, l, i);
    var m', h' := Goto(m, t, l), h.(seen := h.seen[t := i]);
    forall u | u in m'.threads ensures LocalOk(m', h', u) {
      if u != t { LocalBasics(m, h, u); LocalFrame(m, h, m', h', u); }
    }
  }

  /** A write to the node in the writer's hands. */
  lemma WriteStep(m: Machine, h: History, t: Tid, a: Addr, n: Node)
    requires Inv(m, h) && Mine(m, h, t, a) && t in m.threads
    requires LocalOk(m.(heap := m.heap[a := n]), h, t)
    ensures Inv(m.(heap := m.heap[a := n]), h)
  {
    var m' := m.(heap := m.heap[a := n]);
    assert m'.heap.Keys == m.heap.Keys;
    forall b | b in m'.heap ensures PlaceOk(m', h, b) { assert PlaceOk(m, h, b); }
    forall i | 0 <= i < |h.chain| ensures PosOk(m', h, i) { assert PosOk(m, h, i); }
    forall u | u in m'.threads ensures LocalOk(m', h, u) {
      if u != t { LocalBasics(m, h, u); LocalFrame(m, h, m', h, u); }
    }
  }

  // ---------- the allocator ----------

  lemma AllocPlaces(m: Machine, h: History, t: Tid, v: Value, a: Addr)
    requires Inv(m, h) && Enabled(m, BeginEnqueue(t, v, a))
    ensures var m', h' := Step(m, BeginEnqueue(t, v, a)), Record(m, h, BeginEnqueue(t, v, a));
      forall b {:trigger PlaceOk(m', h', b)} :: b in m'.heap ==> PlaceOk(m', h', b)
  {
    var m', h' := Step(m, BeginEnqueue(t, v, a)), Record(m, h, BeginEnqueue(t, v, a));
    assert LocalOk(m, h, t) && PlaceOk(m, h, a);
    forall b | b in m'.heap ensures PlaceOk(m', h', b) { assert PlaceOk(m, h, b); }
  }

  lemma AllocShape(m: Machine, h: History, t: Tid, v: Value, a: Addr)
    requires Inv(m, h) && Enabled(m, BeginEnqueue(t, v, a))
    ensures Shape(Step(m, BeginEnqueue(t, v, a)), Record(m, h, BeginEnqueue(t, v, a)))
  {
    var m', h' := Step(m, BeginEnqueue(t, v, a)), Record(m, h, BeginEnqueue(t, v, a));
    AllocPlaces(m, h, t, v, a);
    assert LocalOk(m, h, t) && PlaceOk(m, h, a);
    forall i | 0 <= i < |h.chain| ensures PosOk(m', h', i) { assert PosOk(m, h, i); }
    forall k | 0 <= k < |h.delivered| ensures DeliveredOk(h', k) { assert DeliveredOk(h, k); }
  }

  lemma AllocLocals(m: Machine, h: History, t: Tid, v: Value, a: Addr)
    requires Inv(m, h) && Enabled(m, BeginEnqueue(t, v, a))
    ensures Locals(Step(m, BeginEnqueue(t, v, a)), Record(m, h, BeginEnqueue(t, v, a)))
  {
    var m', h' := Step(m, BeginEnqueue(t, v, a)), Record(m, h, BeginEnqueue(t, v, a));
    assert PlaceOk(m, h, a) && LocalOk(m, h, t);
    forall u | u in m'.threads ensures LocalOk(m', h', u) {
      if u != t { LocalBasics(m, h, u); LocalFrame(m, h, m', h', u); }
    }
  }

  lemma RecyclePlaces(m: Machine, h: History, a: Addr, junk: Node)
    requires Inv(m, h) && Enabled(m, Recycle(a, junk))
    ensures var m', h' := Step(m, Recycle(a, junk)), Record(m, h, Recycle(a, junk));
      forall b {:trigger PlaceOk(m', h', b)} :: b in m'.heap ==> PlaceOk(m', h', b)
  {
    var m', h' := Step(m, Recycle(a, junk)), Record(m, h, Recycle(a, junk));
    assert PlaceOk(m, h, a);
    assert m'.heap.Keys == m.heap.Keys;
    forall b | b in m'.heap ensures PlaceOk(m', h', b) { assert PlaceOk(m, h, b); }
  }

  lemma RecycleShape(m: Machine, h: History, a: Addr, junk: Node)
    requires Inv(m, h) && Enabled(m, Recycle(a, junk))
    ensures Shape(Step(m, Recycle(a, junk)), Record(m, h, Recycle(a, junk)))
  {
    var m', h' := Step(m, Recycle(a, junk)), Record(m, h, Recycle(a, junk));
    RecyclePlaces(m, h, a, junk);
    assert PlaceOk(m, h, a);
    assert m'.heap.Keys == m.heap.Keys;
    forall i | 0 <= i < |h.chain| ensures PosOk(m', h', i) { assert PosOk(m, h, i); }
    forall k | 0 <= k < |h.delivered| ensures DeliveredOk(h', k) { assert DeliveredOk(h, k); }
  }

  lemma RecycleLocals(m: Machine, h: History, a: Addr, junk: Node)
    requires Inv(m, h) && Enabled(m, Recycle(a, junk))
    ensures Locals(Step(m, Recycle(a, junk)), Record(m, h, Recycle(a, junk)))
  {
    var m', h' := Step(m, Recycle(a, junk)), Record(m, h, Recycle(a, junk));
    assert PlaceOk(m, h, a);
    forall u | u in m'.threads ensures LocalOk(m', h', u) { LocalBasics(m, h, u); LocalFrame(m, h, m', h', u); }
  }

  // ---------- Enqueue ----------

  /** A null successor is the last node's; otherwise the successor in memory is the one in the chain. */
  lemma SuccessorInMemory(m: Machine, h: History, i: nat)
    requires Inv(m, h) && i < |h.chain| && Intact(h, i)
    ensures h.chain[i].addr in m.heap
    ensures m.heap[h.chain[i].addr] == Node(NextWord(h.chain, i), h.chain[i].value)
    ensures i + 1 < |h.chain| <==> m.heap[h.chain[i].addr].next.addr != NULL
  {
    assert PosOk(m, h, i);
    assert PlaceOk(m, h, h.chain[i].addr);
    if i + 1 < |h.chain| { assert PosOk(m, h, i + 1); }
  }

  /** Within reach, the word of an intact position names that position only. */
  lemma SameWordSamePosition(m: Machine, h: History, p: nat, i: nat)
    requires Inv(m, h) && p < |h.chain| && i < |h.chain| && Intact(h, p) && InReach(h, i)
    requires WordOf(h.chain[p]) == WordOf(h.chain[i])
    ensures i == p
  {
    assert PosOk(m, h, i) && PosOk(m, h, p) && PlaceOk(m, h, h.chain[p].addr);
    if !Intact(h, i) { SameTagInWindow(h.chain[i].stamp, h.chain[p].stamp); }
  }

  /** Exactly when a word seen at position `i` is that of the intact position `p`, in reach or not:
      the same address, stamped again a whole number of tag cycles later. It names another node only
      after at least 2^17 increments since the stamp that was seen. */
  lemma WordsMatchExactly(m: Machine, h: History, p: nat, i: nat)
    requires Inv(m, h) && p < |h.chain| && i < |h.chain| && Intact(h, p)
    ensures var c, d := h.chain[i], h.chain[p];
      && (WordOf(d) == WordOf(c) <==> d.addr == c.addr && (d.stamp - c.stamp) % TAGS == 0)
      && (WordOf(d) == WordOf(c) && i != p ==> c.stamp + TAGS <= d.stamp < |h.stamps|)
  {
    var c, d := h.chain[i], h.chain[p];
    assert PosOk(m, h, i) && PosOk(m, h, p) && PlaceOk(m, h, d.addr);
    SameTagExactly(c.stamp, d.stamp);
    if WordOf(d) == WordOf(c) && d.stamp < c.stamp + TAGS { SameTagInWindow(c.stamp, d.stamp); }
  }

  /** `tail` moves one node on. */
  lemma TailShape(m: Machine, h: History, t: Tid, l: Local)
    requires Inv(m, h) && t in m.threads && Alike(m, m.threads[t], l) && h.tailPos + 1 < |h.chain|
    ensures Shape(Goto(m.(tail := WordOf(h.chain[h.tailPos + 1])), t, l), h.(tailPos := h.tailPos + 1))
  {
    var m', h' := Goto(m.(tail := WordOf(h.chain[h.tailPos + 1])), t, l), h.(tailPos := h.tailPos + 1);
    forall a | a in m'.heap ensures PlaceOk(m', h', a) { assert PlaceOk(m, h, a); }
    forall i | 0 <= i < |h.chain| ensures PosOk(m', h', i) { assert PosOk(m, h, i); }
    forall k | 0 <= k < |h.delivered| ensures DeliveredOk(h', k) { assert DeliveredOk(h, k); }
  }

  lemma TailLocals(m: Machine, h: History, t: Tid, l: Local)
    requires Inv(m, h) && t in m.threads && h.tailPos + 1 < |h.chain|
    requires LocalOk(Goto(m.(tail := WordOf(h.chain[h.tailPos + 1])), t, l), h.(tailPos := h.tailPos + 1), t)
    ensures Locals(Goto(m.(tail := WordOf(h.chain[h.tailPos + 1])), t, l), h.(tailPos := h.tailPos + 1))
  {
    var m', h' := Goto(m.(tail := WordOf(h.chain[h.tailPos + 1])), t, l), h.(tailPos := h.tailPos + 1);
    forall u | u in m'.threads ensures LocalOk(m', h', u) {
      if u != t { LocalBasics(m, h, u); LocalFrame(m, h, m', h', u); }
    }
  }

  predicate LinksNow(m: Machine, t: Tid) {
    t in m.threads && m.threads[t].EnqLink? && Load(m, m.threads[t].oldTail.addr).next == m.threads[t].tailNext
  }

  /** A link CAS that succeeds does so at the last node, and that node is `tail`. */
  lemma LinkIsAtTail(m: Machine, h: History, t: Tid)
    requires Inv(m, h) && LinksNow(m, t)
    ensures Seen(h, t) == h.tailPos == |h.chain| - 1
    ensures m.threads[t].oldTail == m.tail
  {
    assert LocalOk(m, h, t);
    SuccessorInMemory(m, h, Seen(h, t));
  }

  lemma LinkPlaces(m: Machine, h: History, t: Tid)
    requires Inv(m, h) && LinksNow(m, t)
    ensures var m', h' := EnqueueStep(m, t), RecordEnqueue(m, h, t);
      && m'.heap.Keys == m.heap.Keys && h'.place.Keys == h.place.Keys && m'.head == m.head && m'.tail == m.tail
      && (forall a {:trigger PlaceOk(m', h', a)} :: a in m'.heap ==> PlaceOk(m', h', a))
  {
    LinkIsAtTail(m, h, t);
    LocalBasics(m, h, t);
    SuccessorInMemory(m, h, h.tailPos);
    var m', h' := EnqueueStep(m, t), RecordEnqueue(m, h, t);
    assert m'.heap.Keys == m.heap.Keys;
    forall b | b in m'.heap ensures PlaceOk(m', h', b) { assert PlaceOk(m, h, b); }
  }

  lemma LinkPositions(m: Machine, h: History, t: Tid)
    requires Inv(m, h) && LinksNow(m, t)
    ensures var m', h' := EnqueueStep(m, t), RecordEnqueue(m, h, t);
      forall i {:trigger PosOk(m', h', i)} :: 0 <= i < |h'.chain| == |h'.fate| ==> PosOk(m', h', i)
  {
    LinkIsAtTail(m, h, t);
    LocalBasics(m, h, t);
    var m', h' := EnqueueStep(m, t), RecordEnqueue(m, h, t);
    forall i | 0 <= i < |h'.chain| == |h'.fate| ensures PosOk(m', h', i) { assert i < |h.chain| ==> PosOk(m, h, i); }
  }

  lemma LinkCount(m: Machine, h: History, t: Tid)
    requires Inv(m, h) && LinksNow(m, t)
    ensures CountOk(EnqueueStep(m, t), RecordEnqueue(m, h, t))
  {
    assert LocalOk(m, h, t);
  }

  lemma LinkShape(m: Machine, h: History, t: Tid)
    requires Inv(m, h) && LinksNow(m, t)
    ensures Shape(EnqueueStep(m, t), RecordEnqueue(m, h, t))
  {
    LinkIsAtTail(m, h, t);
    LinkPlaces(m, h, t);
    LinkPositions(m, h, t);
    LinkCount(m, h, t);
    LocalBasics(m, h, t);
    var m', h' := EnqueueStep(m, t), RecordEnqueue(m, h, t);
    forall k | 0 <= k < |h.delivered| ensures DeliveredOk(h', k) { assert DeliveredOk(h, k); }
  }

  lemma LinkLocals(m: Machine, h: History, t: Tid)
    requires Inv(m, h) && LinksNow(m, t)
    ensures Locals(EnqueueStep(m, t), RecordEnqueue(m, h, t))
  {
    LinkIsAtTail(m, h, t);
    assert LocalOk(m, h, t);
    SuccessorInMemory(m, h, h.tailPos);
    var m', h' := EnqueueStep(m, t), RecordEnqueue(m, h, t);
    forall u | u in m'.threads ensures LocalOk(m', h', u) {
      if u != t { LocalBasics(m, h, u); LocalFrame(m, h, m', h', u); }
    }
  }

  /** Threads enter or leave the sets that explain `count`, and nothing else changes. */
  ghost predicate OnlyBooks(h: History, h': History, t: Tid) {
    && h' == h.(linked := h'.linked, reserved := h'.reserved, removed := h'.removed,
                counted := h'.counted, reservations := h'.reservations)
    && h'.linked - {t} == h.linked - {t} && h'.reserved - {t} == h.reserved - {t}
    && h'.removed - {t} == h.removed - {t}
  }

  lemma BooksShape(m: Machine, h: History, t: Tid, l: Local, count: nat, h': History)
    requires Inv(m, h) && t in m.threads && OnlyBooks(h, h', t)
    requires NodeOf(l) == NodeOf(m.threads[t]) && IsRemoving(l) == IsRemoving(m.threads[t])
    requires CountOk(Goto(m.(count := count), t, l), h')
    ensures Shape(Goto(m.(count := count), t, l), h')
  {
    var m' := Goto(m.(count := count), t, l);
    SetsStay(h, h', t, m.threads.Keys);
    forall b | b in m'.heap ensures PlaceOk(m', h', b) { assert PlaceOk(m, h, b); }
    forall i | 0 <= i < |h.chain| ensures PosOk(m', h', i) { assert PosOk(m, h, i); }
    forall k | 0 <= k < |h.delivered| ensures DeliveredOk(h', k) { assert DeliveredOk(h, k); }
  }

  lemma BooksLocals(m: Machine, h: History, t: Tid, l: Local, count: nat, h': History)
    requires Inv(m, h) && t in m.threads && OnlyBooks(h, h', t)
    requires LocalOk(Goto(m.(count := count), t, l), h', t)
    ensures Locals(Goto(m.(count := count), t, l), h')
  {
    var m' := Goto(m.(count := count), t, l);
    forall u | u in m'.threads ensures LocalOk(m', h', u) {
      if u != t {
        SetsFrame(h, h', t, u);
        LocalBasics(m, h, u);
        LocalFrame(m, h, m', h', u);
      }
    }
  }

  /** A step that only settles `count`. */
  lemma BooksStep(m: Machine, h: History, t: Tid, l: Local, count: nat, h': History)
    requires Inv(m, h) && t in m.threads && OnlyBooks(h, h', t)
    requires NodeOf(l) == NodeOf(m.threads[t]) && IsRemoving(l) == IsRemoving(m.threads[t])
    requires CountOk(Goto(m.(count := count), t, l), h') && LocalOk(Goto(m.(count := count), t, l), h', t)
    ensures Inv(Goto(m.(count := count), t, l), h')
  {
    BooksShape(m, h, t, l, count, h');
    BooksLocals(m, h, t, l, count, h');
  }

  lemma SetsFrame(h: History, h': History, t: Tid, u: Tid)
    requires u != t
    requires h'.linked - {t} == h.linked - {t} && h'.reserved - {t} == h.reserved - {t}
    requires h'.removed - {t} == h.removed - {t}
    ensures (u in h'.linked <==> u in h.linked) && (u in h'.reserved <==> u in h.reserved)
    ensures u in h'.removed <==> u in h.removed
  {
    assert u in h'.linked - {t} <==> u in h'.linked;
    assert u in h'.reserved - {t} <==> u in h'.reserved;
    assert u in h'.removed - {t} <==> u in h'.removed;
  }

  lemma SetsStay(h: History, h': History, t: Tid, all: set<Tid>)
    requires t in all && h.linked <= all && h.reserved <= all && h.removed <= all
    requires h'.linked - {t} == h.linked - {t} && h'.reserved - {t} == h.reserved - {t}
    requires h'.removed - {t} == h.removed - {t}
    ensures h'.linked <= all && h'.reserved <= all && h'.removed <= all
  {
    forall u | u != t ensures (u in h'.linked ==> u in all) && (u in h'.reserved ==> u in all) && (u in h'.removed ==> u in all) {
      SetsFrame(h, h', t, u);
    }
  }

  lemma CountUpOk(m: Machine, h: History, t: Tid)
    requires Inv(m, h) && t in m.threads && m.threads[t].EnqCount?
    ensures CountOk(m.(count := (m.count + 1) % TWO32), h.(linked := h.linked - {t}, counted := h.counted + 1))
    ensures t in h.linked && t !in h.reserved && t !in h.removed
  {
    assert LocalOk(m, h, t);
    WrapStep(Balance(h), 1);
  }

  lemma CountStep(m: Machine, h: History, t: Tid)
    requires Inv(m, h) && t in m.threads && m.threads[t].EnqCount?
    ensures Inv(EnqueueStep(m, t), RecordEnqueue(m, h, t))
  {
    CountUpOk(m, h, t);
    BooksStep(m, h, t, Idle(Enqueued), (m.count + 1) % TWO32, h.(linked := h.linked - {t}, counted := h.counted + 1));
  }

  lemma TagPlaces(m: Machine, h: History, t: Tid)
    requires Inv(m, h) && t in m.threads && m.threads[t].EnqTag?
    ensures var m', h' := EnqueueStep(m, t), RecordEnqueue(m, h, t);
      forall a {:trigger PlaceOk(m', h', a)} :: a in m'.heap ==> PlaceOk(m', h', a)
  {
    var m', h' := EnqueueStep(m, t), RecordEnqueue(m, h, t);
    LocalBasics(m, h, t);
    forall b | b in m'.heap ensures PlaceOk(m', h', b) { assert PlaceOk(m, h, b); }
  }

  lemma TagShape(m: Machine, h: History, t: Tid)
    requires Inv(m, h) && t in m.threads && m.threads[t].EnqTag?
    ensures Shape(EnqueueStep(m, t), RecordEnqueue(m, h, t))
  {
    var m', h' := EnqueueStep(m, t), RecordEnqueue(m, h, t);
    TagPlaces(m, h, t);
    LocalBasics(m, h, t);
    assert PlaceOk(m, h, m.threads[t].node);
    WrapIndex(|h.stamps| - 1);
    forall i | 0 <= i < |h.chain| ensures PosOk(m', h', i) { assert PosOk(m, h, i); }
    forall k | 0 <= k < |h.delivered| ensures DeliveredOk(h', k) { assert DeliveredOk(h, k); }
  }

  lemma TagLocals(m: Machine, h: History, t: Tid)
    requires Inv(m, h) && t in m.threads && m.threads[t].EnqTag?
    ensures Locals(EnqueueStep(m, t), RecordEnqueue(m, h, t))
  {
    var m', h' := EnqueueStep(m, t), RecordEnqueue(m, h, t);
    LocalBasics(m, h, t);
    WrapIndex(|h.stamps| - 1);
    TagOfWrapped(|h.stamps|);
    forall u | u in m'.threads ensures LocalOk(m', h', u) {
      if u != t { LocalBasics(m, h, u); LocalFrame(m, h, m', h', u); }
    }
  }

  /** A tail CAS that succeeds finds tail at the node the thread saw. */
  lemma TailIsSeen(m: Machine, h: History, t: Tid)
    requires Inv(m, h) && t in m.threads && (m.threads[t].EnqHelp? || m.threads[t].EnqSwing?)
    requires m.tail == m.threads[t].oldTail && InReach(h, Seen(h, t))
    ensures Seen(h, t) == h.tailPos && h.tailPos + 1 < |h.chain|
    ensures m.threads[t].EnqHelp? ==> m.threads[t].tailNext == WordOf(h.chain[h.tailPos + 1])
    ensures m.threads[t].EnqSwing? ==> m.threads[t].word == WordOf(h.chain[h.tailPos + 1])
  {
    assert LocalOk(m, h, t);
    assert PosOk(m, h, h.tailPos);
    SameWordSamePosition(m, h, h.tailPos, Seen(h, t));
  }

  lemma HelpStep(m: Machine, h: History, t: Tid)
    requires Inv(m, h) && t in m.threads && m.threads[t].EnqHelp? && InReach(h, Seen(h, t))
    ensures Inv(EnqueueStep(m, t), RecordEnqueue(m, h, t))
  {
    var l := EnqTail(m.threads[t].node, m.threads[t].value, m.threads[t].word);
    assert LocalOk(m, h, t);
    if m.tail == m.threads[t].oldTail {
      TailIsSeen(m, h, t);
      TailShape(m, h, t, l);
      TailLocals(m, h, t, l);
    } else {
      QuietStep(m, h, t, l);
    }
  }

  lemma SwingWins(m: Machine, h: History, t: Tid)
    requires Inv(m, h) && t in m.threads && m.threads[t].EnqSwing? && m.tail == m.threads[t].oldTail
    requires InReach(h, Seen(h, t))
    ensures Inv(EnqueueStep(m, t), RecordEnqueue(m, h, t))
  {
    assert LocalOk(m, h, t);
    TailIsSeen(m, h, t);
    TailShape(m, h, t, EnqCount);
    TailLocals(m, h, t, EnqCount);
  }

  lemma SwingStep(m: Machine, h: History, t: Tid)
    requires Inv(m, h) && t in m.threads && m.threads[t].EnqSwing? && InReach(h, Seen(h, t))
    ensures Inv(EnqueueStep(m, t), RecordEnqueue(m, h, t))
  {
    if m.tail == m.threads[t].oldTail {
      SwingWins(m, h, t);
    } else {
      assert LocalOk(m, h, t);
      QuietStep(m, h, t, EnqCount);
    }
  }

  lemma PrepareStep(m: Machine, h: History, t: Tid)
    requires Inv(m, h) && t in m.threads && (m.threads[t].EnqData? || m.threads[t].EnqNull?)
    ensures Inv(EnqueueStep(m, t), h)
  {
    assert LocalOk(m, h, t);
    var a := m.threads[t].node;
    WriteStep(m, h, t, a, EnqueueStep(m, t).heap[a]);
    QuietStep(m.(heap := EnqueueStep(m, t).heap), h, t, EnqueueStep(m, t).threads[t]);
  }

  lemma LoopStep(m: Machine, h: History, t: Tid)
    requires Inv(m, h) && t in m.threads && (m.threads[t].EnqTail? || m.threads[t].EnqNext?)
    ensures Inv(EnqueueStep(m, t), RecordEnqueue(m, h, t))
  {
    assert LocalOk(m, h, t);
    if m.threads[t].EnqTail? {
      assert PosOk(m, h, h.tailPos);
      LookStep(m, h, t, EnqueueStep(m, t).threads[t], h.tailPos);
    } else {
      SuccessorInMemory(m, h, Seen(h, t));
      QuietStep(m, h, t, EnqueueStep(m, t).threads[t]);
    }
  }

  lemma EnqueueKeeps(m: Machine, h: History, t: Tid)
    requires Inv(m, h) && t in m.threads && Enqueuing(m.threads[t]) && CasInReach(m, h, Run(t))
    ensures Inv(EnqueueStep(m, t), RecordEnqueue(m, h, t))
  {
    match m.threads[t]
    case EnqData(_, _) => PrepareStep(m, h, t);
    case EnqNull(_, _) => PrepareStep(m, h, t);
    case EnqTag(_, _) => TagShape(m, h, t); TagLocals(m, h, t);
    case EnqTail(_, _, _) => LoopStep(m, h, t);
    case EnqNext(_, _, _, _) => LoopStep(m, h, t);
    case EnqLink(a, v, w, _, _) =>
      if LinksNow(m, t) {
        LinkShape(m, h, t);
        LinkLocals(m, h, t);
      } else {
        assert LocalOk(m, h, t);
        QuietStep(m, h, t, EnqTail(a, v, w));
      }
    case EnqHelp(_, _, _, _, _) => HelpStep(m, h, t);
    case EnqSwing(_, _) => SwingStep(m, h, t);
    case EnqCount => CountStep(m, h, t);
  }

  // ---------- Dequeue ----------

  predicate Unlinks(l: Local) {
    l.SoloCas? || l.ManyCas?
  }

  predicate UnlinksNow(m: Machine, t: Tid) {
    t in m.threads && Unlinks(m.threads[t]) && m.head == m.threads[t].oldHead
  }

  /** A head CAS that succeeds finds head where the thread saw it, and moves it one node on. */
  lemma UnlinkIsAtHead(m: Machine, h: History, t: Tid)
    requires Inv(m, h) && UnlinksNow(m, t) && CasInReach(m, h, Run(t))
    ensures Seen(h, t) == h.headPos && NextIs(h, h.headPos, m.threads[t].next)
    ensures m.threads[t].ManyCas? ==> m.threads[t].value == h.chain[h.headPos + 1].value
    ensures Intact(h, h.headPos)
  {
    assert LocalOk(m, h, t);
    assert PosOk(m, h, h.headPos);
    if m.threads[t].ManyCas? { SameWordSamePosition(m, h, h.headPos, Seen(h, t)); }
  }

  /** Moving head on, seen from memory and from the chain. */
  lemma UnlinkElements(m: Machine, h: History, t: Tid, l: Local, h': History)
    requires Inv(m, h) && t in m.threads && h.headPos + 1 < |h.chain| && Intact(h, h.headPos)
    requires Unlinks(m.threads[t]) && IsRemoving(l) && Seen(h, t) == h.headPos
    requires h' == RecordUnlink(h, t).(reserved := h'.reserved, removed := h'.removed)
    ensures var m' := Goto(m.(head := WordOf(h.chain[h.headPos + 1])), t, l);
      && |h'.fate| == |h.fate| && Ends(m', h')
      && (forall a {:trigger PlaceOk(m', h', a)} :: a in m'.heap ==> PlaceOk(m', h', a))
      && (forall i {:trigger PosOk(m', h', i)} :: 0 <= i < |h'.chain| ==> PosOk(m', h', i))
  {
    var m' := Goto(m.(head := WordOf(h.chain[h.headPos + 1])), t, l);
    assert PosOk(m, h, h.headPos);
    forall b | b in m'.heap ensures PlaceOk(m', h', b) { assert PlaceOk(m, h, b); }
    forall i | 0 <= i < |h'.chain| ensures PosOk(m', h', i) { assert PosOk(m, h, i); }
  }

  lemma UnlinkShape(m: Machine, h: History, t: Tid, l: Local, h': History)
    requires Inv(m, h) && t in m.threads && h.headPos + 1 < |h.chain| && Intact(h, h.headPos)
    requires Unlinks(m.threads[t]) && IsRemoving(l) && Seen(h, t) == h.headPos
    requires h' == RecordUnlink(h, t).(reserved := h'.reserved, removed := h'.removed)
    requires h'.reserved - {t} == h.reserved - {t} && h'.removed - {t} == h.removed - {t}
    requires CountOk(Goto(m.(head := WordOf(h.chain[h.headPos + 1])), t, l), h')
    ensures Shape(Goto(m.(head := WordOf(h.chain[h.headPos + 1])), t, l), h')
  {
    UnlinkElements(m, h, t, l, h');
    SetsStay(h, h', t, m.threads.Keys);
    assert PosOk(m, h, h.headPos);
    forall k | 0 <= k < |h.delivered| ensures DeliveredOk(h', k) { assert DeliveredOk(h, k); }
  }

  lemma UnlinkLeaves(m: Machine, h: History, t: Tid, l: Local, h': History, u: Tid)
    requires Inv(m, h) && t in m.threads && h.headPos + 1 < |h.chain| && Intact(h, h.headPos)
    requires Unlinks(m.threads[t]) && VariantOk(m, t, m.threads[t]) && u in m.threads && u != t
    requires h' == RecordUnlink(h, t).(reserved := h'.reserved, removed := h'.removed)
    requires h'.reserved - {t} == h.reserved - {t} && h'.removed - {t} == h.removed - {t}
    ensures var m' := Goto(m.(head := WordOf(h.chain[h.headPos + 1])), t, l); u in m'.threads && LocalOk(m', h', u)
  {
    assert PosOk(m, h, h.headPos);
    SetsFrame(h, h', t, u);
    LocalBasics(m, h, u);
    LocalFrame(m, h, Goto(m.(head := WordOf(h.chain[h.headPos + 1])), t, l), h', u);
  }

  lemma UnlinkLocals(m: Machine, h: History, t: Tid, l: Local, h': History)
    requires Inv(m, h) && t in m.threads && h.headPos + 1 < |h.chain| && Intact(h, h.headPos)
    requires Unlinks(m.threads[t]) && VariantOk(m, t, m.threads[t])
    requires h' == RecordUnlink(h, t).(reserved := h'.reserved, removed := h'.removed)
    requires h'.reserved - {t} == h.reserved - {t} && h'.removed - {t} == h.removed - {t}
    requires LocalOk(Goto(m.(head := WordOf(h.chain[h.headPos + 1])), t, l), h', t)
    ensures Locals(Goto(m.(head := WordOf(h.chain[h.headPos + 1])), t, l), h')
  {
    var m' := Goto(m.(head := WordOf(h.chain[h.headPos + 1])), t, l);
    forall u | u in m'.threads ensures LocalOk(m', h', u) {
      if u != t { UnlinkLeaves(m, h, t, l, h', u); }
    }
  }

  lemma SoloUnlinkCount(m: Machine, h: History, t: Tid)
    requires Inv(m, h) && UnlinksNow(m, t) && m.threads[t].SoloCas?
    ensures CountOk(m, RecordUnlink(h, t).(removed := h.removed + {t}))
    ensures m.variant == SingleConsumer(t) && t !in h.reserved && t !in h.linked && t !in h.removed
  {
    assert LocalOk(m, h, t);
    UnlinkIsAtHead(m, h, t);
  }

  lemma SoloUnlinkStep(m: Machine, h: History, t: Tid)
    requires Inv(m, h) && UnlinksNow(m, t) && m.threads[t].SoloCas?
    ensures Inv(DequeueStep(m, t), RecordDequeue(m, h, t))
  {
    UnlinkIsAtHead(m, h, t);
    LocalBasics(m, h, t);
    SoloUnlinkCount(m, h, t);
    var l, h' := SoloData(m.threads[t].oldHead, m.threads[t].next), RecordUnlink(h, t).(removed := h.removed + {t});
    UnlinkShape(m, h, t, l, h');
    UnlinkLocals(m, h, t, l, h');
  }

  lemma ManyUnlinkCount(m: Machine, h: History, t: Tid)
    requires Inv(m, h) && UnlinksNow(m, t) && m.threads[t].ManyCas? && CasInReach(m, h, Run(t))
    ensures var h' := RecordUnlink(h, t).(reserved := h.reserved - {t});
      CountOk(m, h') && t in h.reserved && t !in h.linked && t !in h.removed && m.variant.ManyConsumers?
  {
    assert LocalOk(m, h, t);
    UnlinkIsAtHead(m, h, t);
  }

  lemma ManyUnlinkStep(m: Machine, h: History, t: Tid)
    requires Inv(m, h) && UnlinksNow(m, t) && m.threads[t].ManyCas? && CasInReach(m, h, Run(t))
    ensures Inv(DequeueStep(m, t), RecordDequeue(m, h, t))
  {
    UnlinkIsAtHead(m, h, t);
    LocalBasics(m, h, t);
    ManyUnlinkCount(m, h, t);
    var l, h' := ManyFree(m.threads[t].oldHead, m.threads[t].value), RecordUnlink(h, t).(reserved := h.reserved - {t});
    UnlinkShape(m, h, t, l, h');
    UnlinkLocals(m, h, t, l, h');
  }

  predicate Releases(l: Local) {
    l.SoloDelete? || l.ManyFree?
  }

  /** What a thread about to release a node holds: that node, and the value of the next one. */
  lemma ReleaseFacts(m: Machine, h: History, t: Tid)
    requires Inv(m, h) && t in m.threads && Releases(m.threads[t])
    ensures var i := Seen(h, t);
      && i + 1 < |h.chain| == |h.fate| && m.threads[t].value == h.chain[i + 1].value
      && WordOf(h.chain[i]) == m.threads[t].oldHead && h.fate[i] == Removing(t) && Intact(h, i) && i < h.headPos
      && m.threads[t].oldHead.addr in m.heap && m.threads[t].oldHead.addr !in m.free
  {
    assert LocalOk(m, h, t);
    assert PosOk(m, h, Seen(h, t));
    assert PlaceOk(m, h, m.threads[t].oldHead.addr);
  }

  lemma ReleaseElements(m: Machine, h: History, t: Tid, l: Local, v: Value)
    requires Inv(m, h) && t in m.threads && Releases(m.threads[t]) && v == m.threads[t].value
    requires NodeOf(l) == None && !IsRemoving(l)
    ensures var m', h' := Goto(m.(free := m.free + {m.threads[t].oldHead.addr}), t, l), RecordRelease(h, t, v);
      && (forall a {:trigger PlaceOk(m', h', a)} :: a in m'.heap ==> PlaceOk(m', h', a))
      && (forall i {:trigger PosOk(m', h', i)} :: 0 <= i < |h'.chain| == |h'.fate| ==> PosOk(m', h', i))
  {
    var m', h' := Goto(m.(free := m.free + {m.threads[t].oldHead.addr}), t, l), RecordRelease(h, t, v);
    ReleaseFacts(m, h, t);
    assert PosOk(m, h, Seen(h, t));
    forall b | b in m'.heap ensures PlaceOk(m', h', b) { assert PlaceOk(m, h, b); }
    forall j | 0 <= j < |h'.chain| == |h'.fate| ensures PosOk(m', h', j) { assert PosOk(m, h, j); }
  }

  lemma ReleaseShape(m: Machine, h: History, t: Tid, l: Local, v: Value)
    requires Inv(m, h) && t in m.threads && Releases(m.threads[t]) && v == m.threads[t].value
    requires NodeOf(l) == None && !IsRemoving(l)
    ensures Shape(Goto(m.(free := m.free + {m.threads[t].oldHead.addr}), t, l), RecordRelease(h, t, v))
  {
    var h' := RecordRelease(h, t, v);
    ReleaseFacts(m, h, t);
    ReleaseElements(m, h, t, l, v);
    forall k | 0 <= k < |h'.delivered| ensures DeliveredOk(h', k) { assert k < |h.delivered| ==> DeliveredOk(h, k); }
  }

  lemma ReleaseLocals(m: Machine, h: History, t: Tid, l: Local, v: Value)
    requires Inv(m, h) && t in m.threads && Releases(m.threads[t])
    requires LocalOk(Goto(m.(free := m.free + {m.threads[t].oldHead.addr}), t, l), RecordRelease(h, t, v), t)
    ensures Locals(Goto(m.(free := m.free + {m.threads[t].oldHead.addr}), t, l), RecordRelease(h, t, v))
  {
    var m', h' := Goto(m.(free := m.free + {m.threads[t].oldHead.addr}), t, l), RecordRelease(h, t, v);
    LocalBasics(m, h, t);
    assert h' == h.(fate := h'.fate, delivered := h'.delivered) && |h'.fate| == |h.fate|;
    assert forall i :: 0 <= i < |h.fate| && i != Seen(h, t) ==> h'.fate[i] == h.fate[i];
    forall u | u in m'.threads ensures LocalOk(m', h', u) {
      if u != t { LocalBasics(m, h, u); LocalFrame(m, h, m', h', u); }
    }
  }

  lemma ReleaseStep(m: Machine, h: History, t: Tid)
    requires Inv(m, h) && t in m.threads && Releases(m.threads[t])
    ensures Inv(DequeueStep(m, t), RecordDequeue(m, h, t))
  {
    assert LocalOk(m, h, t);
    ReleaseShape(m, h, t, DequeueStep(m, t).threads[t], m.threads[t].value);
    ReleaseLocals(m, h, t, DequeueStep(m, t).threads[t], m.threads[t].value);
  }

  predicate ReservesNow(m: Machine, t: Tid) {
    t in m.threads && m.threads[t].ManyReserve? && Signed32(m.count) == m.threads[t].oldCount
  }

  lemma ReserveCount(m: Machine, h: History, t: Tid)
    requires Inv(m, h) && ReservesNow(m, t)
    ensures CountOk(m.(count := (m.threads[t].oldCount - 1) % TWO32),
                    h.(reserved := h.reserved + {t}, reservations := h.reservations + 1))
    ensures m.variant.ManyConsumers? && t !in h.linked && t !in h.reserved && t !in h.removed
  {
    assert LocalOk(m, h, t);
    BalanceDown(Balance(h), m.count, m.threads[t].oldCount);
  }

  /** A reservation is taken only from a positive balance. */
  lemma ReserveStep(m: Machine, h: History, t: Tid)
    requires Inv(m, h) && ReservesNow(m, t)
    ensures Inv(DequeueStep(m, t), RecordDequeue(m, h, t))
  {
    assert LocalOk(m, h, t);
    ReserveCount(m, h, t);
    BooksStep(m, h, t, DeqHead, (m.threads[t].oldCount - 1) % TWO32,
              h.(reserved := h.reserved + {t}, reservations := h.reservations + 1));
  }

  lemma UncountStep(m: Machine, h: History, t: Tid)
    requires Inv(m, h) && t in m.threads && m.threads[t].SoloCount?
    ensures Inv(DequeueStep(m, t), RecordDequeue(m, h, t))
  {
    assert LocalOk(m, h, t);
    WrapStep(Balance(h), -1);
    BooksStep(m, h, t, Idle(Got(m.threads[t].value)), (m.count - 1) % TWO32, RecordDequeue(m, h, t));
  }

  /** A dequeuer that holds a reservation reads a non-null successor, unless the node it reads was
      reissued since it read head. */
  lemma ReservedSeesSuccessor(m: Machine, h: History, t: Tid)
    requires Inv(m, h) && t in m.threads && m.threads[t].DeqNext? && m.variant.ManyConsumers?
    requires Seen(h, t) < |h.chain| && (Seen(h, t) == h.headPos || Intact(h, Seen(h, t)))
    ensures Load(m, m.threads[t].oldHead.addr).next.addr != NULL
  {
    assert LocalOk(m, h, t) && t in h.reserved;
    assert PosOk(m, h, Seen(h, t));
    SuccessorInMemory(m, h, Seen(h, t));
  }

  lemma NextStep(m: Machine, h: History, t: Tid)
    requires Inv(m, h) && t in m.threads && m.threads[t].DeqNext?
    ensures Inv(DequeueStep(m, t), h)
  {
    assert LocalOk(m, h, t);
    assert PosOk(m, h, Seen(h, t));
    if Seen(h, t) == h.headPos { SuccessorInMemory(m, h, h.headPos); }
    QuietStep(m, h, t, DequeueStep(m, t).threads[t]);
  }

  /** Reading the value: if head has not moved since, it is the value of the node after head. */
  lemma ReadStep(m: Machine, h: History, t: Tid)
    requires Inv(m, h) && t in m.threads && (m.threads[t].SoloData? || m.threads[t].ManyPeek?)
    ensures Inv(DequeueStep(m, t), h)
  {
    assert LocalOk(m, h, t);
    var i := Seen(h, t);
    if h.headPos <= i + 1 {
      assert PosOk(m, h, i + 1);
      SuccessorInMemory(m, h, i + 1);
    }
    QuietStep(m, h, t, DequeueStep(m, t).threads[t]);
  }

  /** The one consumer never fails its head CAS. */
  lemma SoloCasSucceeds(m: Machine, h: History, t: Tid)
    requires Inv(m, h) && t in m.threads && m.threads[t].SoloCas?
    ensures UnlinksNow(m, t)
  {
    assert LocalOk(m, h, t);
  }

  predicate OnlySolo(l: Local) {
    l.SoloCas? || l.SoloData? || l.SoloDelete? || l.SoloCount?
  }

  lemma SoloKeeps(m: Machine, h: History, t: Tid)
    requires Inv(m, h) && t in m.threads && OnlySolo(m.threads[t])
    ensures Inv(DequeueStep(m, t), RecordDequeue(m, h, t))
  {
    match m.threads[t]
    case SoloCas(_, _) => SoloCasSucceeds(m, h, t); SoloUnlinkStep(m, h, t);
    case SoloData(_, _) => ReadStep(m, h, t);
    case SoloDelete(_, _) => ReleaseStep(m, h, t);
    case SoloCount(_) => UncountStep(m, h, t);
  }

  lemma HeadStep(m: Machine, h: History, t: Tid)
    requires Inv(m, h) && t in m.threads && m.threads[t].DeqHead?
    ensures Inv(DequeueStep(m, t), RecordDequeue(m, h, t))
  {
    LocalBasics(m, h, t);
    assert PosOk(m, h, h.headPos);
    LookStep(m, h, t, DeqNext(m.head), h.headPos);
  }

  lemma RetryStep(m: Machine, h: History, t: Tid)
    requires Inv(m, h) && t in m.threads
    requires m.threads[t].ManyCheck? || (m.threads[t].ManyReserve? && !ReservesNow(m, t))
      || (m.threads[t].ManyCas? && !UnlinksNow(m, t))
    ensures Inv(DequeueStep(m, t), RecordDequeue(m, h, t))
  {
    LocalBasics(m, h, t);
    QuietStep(m, h, t, DequeueStep(m, t).threads[t]);
  }

  lemma DequeueKeeps(m: Machine, h: History, t: Tid)
    requires Inv(m, h) && t in m.threads && !Enqueuing(m.threads[t]) && !m.threads[t].Idle? && CasInReach(m, h, Run(t))
    ensures Inv(DequeueStep(m, t), RecordDequeue(m, h, t))
  {
    match m.threads[t]
    case ManyCheck => RetryStep(m, h, t);
    case ManyReserve(n) => if ReservesNow(m, t) { ReserveStep(m, h, t); } else { RetryStep(m, h, t); }
    case DeqHead => HeadStep(m, h, t);
    case DeqNext(_) => NextStep(m, h, t);
    case ManyPeek(_, _) => ReadStep(m, h, t);
    case ManyCas(_, _, _) => if UnlinksNow(m, t) { ManyUnlinkStep(m, h, t); } else { RetryStep(m, h, t); }
    case ManyFree(_, _) => ReleaseStep(m, h, t);
    case _ => SoloKeeps(m, h, t);
  }

  lemma StepKeeps(m: Machine, h: History, act: Action)
    requires Inv(m, h) && Enabled(m, act) && CasInReach(m, h, act)
    ensures Inv(Step(m, act), Record(m, h, act))
  {
    match act
    case BeginEnqueue(t, v, a) => AllocShape(m, h, t, v, a); AllocLocals(m, h, t, v, a);
    case BeginDequeue(t) => LocalBasics(m, h, t); QuietStep(m, h, t, Step(m, act).threads[t]);
    case Run(t) => if Enqueuing(m.threads[t]) { EnqueueKeeps(m, h, t); } else { DequeueKeeps(m, h, t); }
    case Recycle(a, junk) => RecycleShape(m, h, a, junk); RecycleLocals(m, h, a, junk);
  }
}
