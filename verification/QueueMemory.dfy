/** Memory safety of the queues: every address a thread follows is that of a node. */
module QueueMemory {
  import opened Words
  import opened QueueMachine
  import opened QueueInvariant
  import opened QueueSteps
  import opened QueueGuard

  /** A producer writes to its own node, until it links it behind the node it saw as tail. */
  lemma EnqueueWrites(m: Machine, t: Tid, a: Addr)
    requires t in m.threads && Enqueuing(m.threads[t]) && a in m.heap
    ensures a in EnqueueStep(m, t).heap
    ensures EnqueueStep(m, t).heap[a] != m.heap[a] ==>
      NodeOf(m.threads[t]) == Some(a) || (LinksNow(m, t) && a == m.threads[t].oldTail.addr)
    ensures LinksNow(m, t) && a == m.threads[t].oldTail.addr ==>
      EnqueueStep(m, t).heap[a] == m.heap[a].(next := m.threads[t].word)
  {
  }

  lemma DequeueWritesNothing(m: Machine, t: Tid)
    requires t in m.threads && !Enqueuing(m.threads[t])
    ensures DequeueStep(m, t).heap == m.heap
  {
  }

  // ---------- what the allocator has to leave in a released node ----------

  /** The `next` field of a node leads nowhere or to a node. */
  predicate LeadsToNode(m: Machine, next: Word) {
    next.addr == NULL || next.addr in m.heap
  }

  predicate SaneNode(m: Machine, a: Addr) {
    a in m.heap && LeadsToNode(m, m.heap[a].next)
  }

  /** A dequeuer is about to read the successor of this node. */
  predicate AboutToFollow(m: Machine, t: Tid, a: Addr) {
    t in m.threads && m.threads[t].DeqNext? && m.threads[t].oldHead.addr == a
  }

  /** While a dequeuer is about to read the successor of a released node, the allocator puts nothing
      there that leads out of its nodes. */
  ghost predicate Tidy(m: Machine, act: Action) {
    act.Recycle? && (exists t :: AboutToFollow(m, t, act.node)) ==> LeadsToNode(m, act.junk.next)
  }

  /** The full guard leaves such nodes alone altogether. */
  lemma GuardedIsTidy(m: Machine, act: Action)
    requires Guarded(m, act)
    ensures Tidy(m, act)
  {
    forall t | t in m.threads && m.threads[t].DeqNext?
      ensures Looking(m.threads[t]) == Some(m.threads[t].oldHead) {}
  }

  /** The one consumer looks at head, which is not released. */
  lemma SoloLooksAtHead(m: Machine, h: History, t: Tid)
    requires Inv(m, h) && t in m.threads && m.threads[t].DeqNext? && m.variant.SingleConsumer?
    ensures m.threads[t].oldHead == m.head && m.head.addr !in m.free
  {
    assert LocalOk(m, h, t);
    assert PosOk(m, h, h.headPos) && PlaceOk(m, h, m.head.addr);
  }

  lemma SoloIsTidy(m: Machine, h: History, act: Action)
    requires Inv(m, h) && Callable(m, act) && m.variant.SingleConsumer?
    ensures Tidy(m, act)
  {
    forall t | t in m.threads && m.threads[t].DeqNext? ensures m.threads[t].oldHead.addr !in m.free {
      SoloLooksAtHead(m, h, t);
    }
  }

  // ---------- the invariant ----------

  predicate SaneAhead(m: Machine, t: Tid)
    requires t in m.threads
  {
    match m.threads[t]
    case DeqNext(oldHead) => SaneNode(m, oldHead.addr)
    case ManyPeek(_, next) => next.addr in m.heap
    case _ => true
  }

  ghost predicate AllSane(m: Machine) {
    forall t {:trigger SaneAhead(m, t)} :: t in m.threads ==> SaneAhead(m, t)
  }

  lemma NodesStay(m: Machine, h: History, act: Action)
    requires Inv(m, h) && Callable(m, act)
    ensures Step(m, act).heap.Keys == m.heap.Keys
  {
    if act.Run? {
      LocalBasics(m, h, act.t);
      if Enqueuing(m.threads[act.t]) {
        if m.threads[act.t].EnqLink? { SuccessorInMemory(m, h, Seen(h, act.t)); }
        EnqueueKeepsNodes(m, act.t);
      } else {
        DequeueWritesNothing(m, act.t);
      }
    }
  }

  lemma EnqueueKeepsNodes(m: Machine, t: Tid)
    requires t in m.threads && Enqueuing(m.threads[t])
    requires Touches(m.threads[t]).Some? ==> Touches(m.threads[t]).value in m.heap
    ensures EnqueueStep(m, t).heap.Keys == m.heap.Keys
  {
  }

  /** A producer never makes a node lead out of the nodes. */
  lemma EnqueueKeepsSane(m: Machine, h: History, t: Tid, a: Addr)
    requires Inv(m, h) && t in m.threads && Enqueuing(m.threads[t]) && SaneNode(m, a)
    ensures SaneNode(EnqueueStep(m, t), a)
  {
    NodesStay(m, h, Run(t));
    LocalBasics(m, h, t);
    if LinksNow(m, t) { assert m.threads[t].word.addr == m.threads[t].node; }
    EnqueueNext(m, t, a);
  }

  lemma EnqueueNext(m: Machine, t: Tid, a: Addr)
    requires t in m.threads && Enqueuing(m.threads[t]) && a in m.heap
    ensures a in EnqueueStep(m, t).heap
    ensures var n := EnqueueStep(m, t).heap[a].next;
      n == m.heap[a].next || n == ZERO || (LinksNow(m, t) && n == m.threads[t].word)
  {
  }

  lemma OthersStaySane(m: Machine, h: History, act: Action, t: Tid)
    requires Inv(m, h) && Enabled(m, act) && Tidy(m, act) && t in m.threads && !ActsFor(act, t) && SaneAhead(m, t)
    ensures t in Step(m, act).threads && SaneAhead(Step(m, act), t)
  {
    OthersLeaveView(m, h, act, t);
    NodesStay(m, h, act);
    if m.threads[t].DeqNext? {
      var a := m.threads[t].oldHead.addr;
      assert AboutToFollow(m, t, a);
      if act.Run? {
        if Enqueuing(m.threads[act.t]) { EnqueueKeepsSane(m, h, act.t, a); } else { DequeueWritesNothing(m, act.t); }
      }
    }
  }

  lemma OwnStaysSane(m: Machine, h: History, t: Tid)
    requires Inv(m, h) && Callable(m, Run(t)) && SaneAhead(m, t)
    ensures t in Step(m, Run(t)).threads && SaneAhead(Step(m, Run(t)), t)
  {
    if Enqueuing(m.threads[t]) {
      EnqueueMovesThread(m, t);
      EnqueueNeverFollows(m, t);
    } else {
      HeadIsSane(m, h);
      DequeueFollows(m, t);
    }
  }

  lemma EnqueueNeverFollows(m: Machine, t: Tid)
    requires t in m.threads && Enqueuing(m.threads[t]) && t in EnqueueStep(m, t).threads
    ensures !EnqueueStep(m, t).threads[t].DeqNext? && !EnqueueStep(m, t).threads[t].ManyPeek?
  {
  }

  lemma HeadIsSane(m: Machine, h: History)
    requires Inv(m, h)
    ensures SaneNode(m, m.head.addr)
  {
    assert PosOk(m, h, h.headPos);
    SuccessorInMemory(m, h, h.headPos);
    if h.headPos + 1 < |h.chain| {
      assert PosOk(m, h, h.headPos + 1);
      SuccessorInMemory(m, h, h.headPos + 1);
    }
  }

  lemma DequeueFollows(m: Machine, t: Tid)
    requires t in m.threads && !Enqueuing(m.threads[t]) && !m.threads[t].Idle? && SaneAhead(m, t) && SaneNode(m, m.head.addr)
    ensures t in DequeueStep(m, t).threads && SaneAhead(DequeueStep(m, t), t)
  {
    DequeueMovesThread(m, t);
    DequeueWritesNothing(m, t);
  }

  lemma StepKeepsSane(m: Machine, h: History, act: Action)
    requires Inv(m, h) && Enabled(m, act) && Tidy(m, act) && AllSane(m)
    ensures AllSane(Step(m, act))
  {
    var m' := Step(m, act);
    forall t | t in m'.threads ensures SaneAhead(m', t) {
      if t in m.threads && !ActsFor(act, t) {
        assert SaneAhead(m, t);
        OthersStaySane(m, h, act, t);
      } else if act.Run? && act.t == t {
        assert SaneAhead(m, t);
        OwnStaysSane(m, h, t);
      } else if act.Run? {
        OnlyKnownThreads(m, act, t);
      }
    }
  }

  // ---------- what it is for ----------

  /** Every address a thread's next step goes through is that of a node. */
  ghost predicate TouchesNodes(m: Machine) {
    forall t :: t in m.threads && Touches(m.threads[t]).Some? ==> Touches(m.threads[t]).value in m.heap
  }

  /** `Touches` names all there is to a step: with any other content in all other nodes, the step does
      the same to everything but these, leaves these as they are, and gives none of them back. */
  lemma StepTouchesNoOther(m: Machine, t: Tid, other: map<Addr, Node>)
    requires Callable(m, Run(t)) && other.Keys == m.heap.Keys
    requires forall a :: a in m.heap && Touches(m.threads[t]) == Some(a) ==> other[a] == m.heap[a]
    ensures OnlyTouched(m, t, other, Step(m, Run(t)), Step(m.(heap := other), Run(t)))
  {
    if Enqueuing(m.threads[t]) { EnqueueTouchesNoOther(m, t, other); } else { DequeueTouchesNoOther(m, t, other); }
  }

  ghost predicate OnlyTouched(m: Machine, t: Tid, other: map<Addr, Node>, r: Machine, r': Machine)
    requires t in m.threads && other.Keys == m.heap.Keys
  {
    && r'.(heap := r.heap) == r && r'.heap.Keys == r.heap.Keys
    && (r.free == m.free || (Touches(m.threads[t]).Some? && r.free == m.free + {Touches(m.threads[t]).value}))
    && forall a :: a in r.heap ==>
         if Touches(m.threads[t]) == Some(a) then r'.heap[a] == r.heap[a]
         else a in m.heap && r.heap[a] == m.heap[a] && r'.heap[a] == other[a]
  }

  lemma EnqueueTouchesNoOther(m: Machine, t: Tid, other: map<Addr, Node>)
    requires t in m.threads && Enqueuing(m.threads[t]) && other.Keys == m.heap.Keys
    requires forall a :: a in m.heap && Touches(m.threads[t]) == Some(a) ==> other[a] == m.heap[a]
    ensures OnlyTouched(m, t, other, EnqueueStep(m, t), EnqueueStep(m.(heap := other), t))
  {
    match m.threads[t]
    case EnqData(_, _) =>
    case EnqNull(_, _) =>
    case EnqNext(_, _, _, _) =>
    case EnqLink(_, _, _, _, _) =>
    case _ =>
  }

  lemma DequeueTouchesNoOther(m: Machine, t: Tid, other: map<Addr, Node>)
    requires t in m.threads && !Enqueuing(m.threads[t]) && other.Keys == m.heap.Keys
    requires forall a :: a in m.heap && Touches(m.threads[t]) == Some(a) ==> other[a] == m.heap[a]
    ensures OnlyTouched(m, t, other, DequeueStep(m, t), DequeueStep(m.(heap := other), t))
  {
    DequeueWritesNothing(m, t);
    DequeueWritesNothing(m.(heap := other), t);
    match m.threads[t]
    case DeqNext(_) =>
    case SoloData(_, _) =>
    case ManyPeek(_, _) =>
    case _ =>
  }

  lemma SaneTouchesNodes(m: Machine, h: History)
    requires Inv(m, h) && AllSane(m)
    ensures TouchesNodes(m)
  {
    forall t | t in m.threads && Touches(m.threads[t]).Some? ensures Touches(m.threads[t]).value in m.heap {
      assert LocalOk(m, h, t) && SaneAhead(m, t);
      if Pinning(m.threads[t]).Some? { SuccessorInMemory(m, h, Seen(h, t)); }
      if Releases(m.threads[t]) { ReleaseFacts(m, h, t); }
      if m.threads[t].SoloData? {
        assert PosOk(m, h, h.headPos);
        SuccessorInMemory(m, h, h.headPos);
      }
    }
  }

  /** Exactly what the allocator must not do: overwritten while a dequeuer of `LockFreeQueue` is about
      to read its successor, a released node takes that dequeuer to an address that is no node just
      when its new `next` leads out of the nodes. */
  lemma TidyExactly(m: Machine, h: History, t: Tid, a: Addr, junk: Node)
    requires Inv(m, h) && Callable(m, Recycle(a, junk)) && AboutToFollow(m, t, a) && m.variant.ManyConsumers?
    ensures var m' := DequeueStep(Step(m, Recycle(a, junk)), t);
      && t in m'.threads
      && ((Touches(m'.threads[t]).Some? ==> Touches(m'.threads[t]).value in m'.heap) <==> LeadsToNode(m, junk.next))
  {
    assert PlaceOk(m, h, a);
    assert Step(m, Recycle(a, junk)).heap[a] == junk;
  }

  /** The only points at which a thread goes through a node that is released: a producer at the node
      it saw as tail, and a dequeuer of `LockFreeQueue` before its CAS. */
  lemma TouchesReleased(m: Machine, h: History, t: Tid)
    requires Inv(m, h) && t in m.threads && Touches(m.threads[t]).Some? && Touches(m.threads[t]).value in m.free
    ensures Pinning(m.threads[t]).Some? || (m.variant.ManyConsumers? && (m.threads[t].DeqNext? || m.threads[t].ManyPeek?))
  {
    assert LocalOk(m, h, t);
    var a := Touches(m.threads[t]).value;
    assert PlaceOk(m, h, a);
    if Releases(m.threads[t]) { ReleaseFacts(m, h, t); }
    assert PosOk(m, h, h.headPos);
  }
}
