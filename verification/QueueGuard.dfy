/** What one thread's step leaves alone, and what the full allocator guard adds: with it, every node
    a thread is looking at stays the one it saw. */
module QueueGuard {
  import opened Words
  import opened QueueMachine
  import opened QueueInvariant
  import opened QueueSteps

  // ---------- the other threads ----------

  /** The thread an action belongs to, if it is not the allocator's. */
  predicate ActsFor(act: Action, t: Tid) {
    !act.Recycle? && act.t == t
  }

  lemma EnqueueMovesThread(m: Machine, t: Tid)
    requires t in m.threads && Enqueuing(m.threads[t])
    ensures t in EnqueueStep(m, t).threads
    ensures EnqueueStep(m, t).threads == m.threads[t := EnqueueStep(m, t).threads[t]]
  {
  }

  lemma EnqueueMovesOne(m: Machine, h: History, t: Tid)
    requires t in m.threads && Enqueuing(m.threads[t])
    ensures t in EnqueueStep(m, t).threads
    ensures EnqueueStep(m, t).threads == m.threads[t := EnqueueStep(m, t).threads[t]]
    ensures RecordEnqueue(m, h, t).seen - {t} == h.seen - {t}
  {
    EnqueueMovesThread(m, t);
  }

  lemma DequeueMovesThread(m: Machine, t: Tid)
    requires t in m.threads && !Enqueuing(m.threads[t])
    ensures t in DequeueStep(m, t).threads
    ensures DequeueStep(m, t).threads == m.threads[t := DequeueStep(m, t).threads[t]]
  {
  }

  lemma UnlinkRecords(m: Machine, h: History, t: Tid)
    requires t in m.threads && Unlinks(m.threads[t])
    ensures var h' := RecordDequeue(m, h, t);
      && h'.place == h.place && h'.chain == h.chain && h'.tailPos == h.tailPos && h'.seen == h.seen
      && h'.headPos == h.headPos + (if UnlinksNow(m, t) then 1 else 0)
  {
    if m.threads[t].SoloCas? {} else {}
  }

  lemma BookRecords(m: Machine, h: History, t: Tid)
    requires t in m.threads && !Enqueuing(m.threads[t]) && !Unlinks(m.threads[t]) && !m.threads[t].DeqHead?
    ensures var h' := RecordDequeue(m, h, t);
      && h'.place == h.place && h'.chain == h.chain && h'.tailPos == h.tailPos && h'.seen == h.seen
      && h'.headPos == h.headPos
  {
    var l := m.threads[t];
    if l.ManyReserve? {
    } else if l.SoloDelete? {
    } else if l.ManyFree? {
    } else if l.SoloCount? {
    } else {
    }
  }

  /** What a step of Dequeue does to the history, but for the bookkeeping of `count`. */
  lemma DequeueRecords(m: Machine, h: History, t: Tid)
    requires t in m.threads && !Enqueuing(m.threads[t])
    ensures var h' := RecordDequeue(m, h, t);
      && h'.place == h.place && h'.chain == h.chain && h'.tailPos == h.tailPos
      && h'.seen == (if m.threads[t].DeqHead? then h.seen[t := h.headPos] else h.seen)
      && h'.headPos == h.headPos + (if UnlinksNow(m, t) then 1 else 0)
  {
    if Unlinks(m.threads[t]) { UnlinkRecords(m, h, t); }
    else if !m.threads[t].DeqHead? { BookRecords(m, h, t); }
  }

  lemma DequeueMovesOne(m: Machine, h: History, t: Tid)
    requires t in m.threads && !Enqueuing(m.threads[t])
    ensures t in DequeueStep(m, t).threads
    ensures DequeueStep(m, t).threads == m.threads[t := DequeueStep(m, t).threads[t]]
    ensures RecordDequeue(m, h, t).seen - {t} == h.seen - {t}
  {
    DequeueMovesThread(m, t);
    DequeueRecords(m, h, t);
  }

  lemma SeenOutside(h: History, h': History, t: Tid, u: Tid)
    requires h'.seen - {t} == h.seen - {t} && u != t
    ensures Seen(h', u) == Seen(h, u)
  {
    assert u in h.seen <==> u in h.seen - {t};
    assert u in h'.seen <==> u in h'.seen - {t};
    if u in h.seen { assert (h.seen - {t})[u] == (h'.seen - {t})[u]; }
  }

  lemma OthersLeaveView(m: Machine, h: History, act: Action, t: Tid)
    requires Callable(m, act) && t in m.threads && !ActsFor(act, t)
    ensures t in Step(m, act).threads && Step(m, act).threads[t] == m.threads[t]
    ensures Seen(Record(m, h, act), t) == Seen(h, t)
  {
    if act.Run? {
      if Enqueuing(m.threads[act.t]) { EnqueueMovesOne(m, h, act.t); } else { DequeueMovesOne(m, h, act.t); }
      SeenOutside(h, Record(m, h, act), act.t, t);
    }
  }

  lemma EnqueueKeepsVariant(m: Machine, t: Tid)
    requires t in m.threads && Enqueuing(m.threads[t])
    ensures EnqueueStep(m, t).variant == m.variant
  {
  }

  lemma DequeueKeepsVariant(m: Machine, t: Tid)
    requires t in m.threads && !Enqueuing(m.threads[t])
    ensures DequeueStep(m, t).variant == m.variant
  {
  }

  lemma VariantStays(m: Machine, act: Action)
    requires Callable(m, act)
    ensures Step(m, act).variant == m.variant
  {
    if act.Run? {
      if Enqueuing(m.threads[act.t]) { EnqueueKeepsVariant(m, act.t); } else { DequeueKeepsVariant(m, act.t); }
    }
  }

  // ---------- how the chain grows ----------

  ghost predicate Grows(h: History, h': History, linked: bool, unlinked: bool) {
    && h.chain <= h'.chain && |h'.chain| == |h.chain| + (if linked then 1 else 0)
    && h'.headPos == h.headPos + (if unlinked then 1 else 0)
    && h.tailPos <= h'.tailPos
  }

  lemma EnqueueGrows(m: Machine, h: History, t: Tid)
    requires t in m.threads && Enqueuing(m.threads[t])
    ensures Grows(h, RecordEnqueue(m, h, t), LinksNow(m, t), false) && !UnlinksNow(m, t)
  {
  }

  lemma DequeueGrows(m: Machine, h: History, t: Tid)
    requires t in m.threads && !Enqueuing(m.threads[t])
    ensures Grows(h, RecordDequeue(m, h, t), false, UnlinksNow(m, t)) && !LinksNow(m, t)
  {
    DequeueRecords(m, h, t);
  }

  // ---------- a node stays what it is until the allocator takes it ----------

  predicate TakesNode(act: Action, a: Addr) {
    (act.BeginEnqueue? || act.Recycle?) && act.node == a
  }

  lemma LinkLeavesPlace(m: Machine, h: History, t: Tid, i: nat)
    requires Inv(m, h) && LinksNow(m, t) && i < |h.chain| && Intact(h, i)
    ensures i < |RecordEnqueue(m, h, t).chain| && Intact(RecordEnqueue(m, h, t), i)
  {
    LocalBasics(m, h, t);
  }

  lemma EnqueueLeavesPlace(m: Machine, h: History, t: Tid)
    requires t in m.threads && Enqueuing(m.threads[t]) && !LinksNow(m, t)
    ensures RecordEnqueue(m, h, t).place == h.place && RecordEnqueue(m, h, t).chain == h.chain
  {
  }

  lemma StaysIntact(m: Machine, h: History, act: Action, i: nat)
    requires Inv(m, h) && Callable(m, act) && i < |h.chain| && Intact(h, i) && !TakesNode(act, h.chain[i].addr)
    ensures i < |Record(m, h, act).chain| && Intact(Record(m, h, act), i)
  {
    if act.Run? {
      if LinksNow(m, act.t) { LinkLeavesPlace(m, h, act.t, i); }
      else if Enqueuing(m.threads[act.t]) { EnqueueLeavesPlace(m, h, act.t); }
      else { DequeueRecords(m, h, act.t); }
    }
  }

  // ---------- the full guard ----------

  ghost predicate HoldsIntact(m: Machine, h: History, t: Tid)
    requires t in m.threads
  {
    Looking(m.threads[t]).Some? ==> Seen(h, t) < |h.chain| && Intact(h, Seen(h, t))
  }

  /** Every node a thread is looking at is still the one it saw. */
  ghost predicate AllIntact(m: Machine, h: History) {
    forall t {:trigger HoldsIntact(m, h, t)} :: t in m.threads ==> HoldsIntact(m, h, t)
  }

  lemma GuardedIsEnabled(m: Machine, act: Action)
    requires Guarded(m, act)
    ensures Enabled(m, act)
  {
    forall t | t in m.threads && Pinning(m.threads[t]).Some? ensures Looking(m.threads[t]) == Pinning(m.threads[t]) {}
  }

  lemma IntactIsInReach(m: Machine, h: History, act: Action)
    requires AllIntact(m, h) && Callable(m, act)
    ensures CasInReach(m, h, act)
  {
    if act.Run? { assert HoldsIntact(m, h, act.t); }
  }

  /** A thread goes on looking at the same position, or starts to look at tail or at head. */
  lemma NewLook(m: Machine, h: History, t: Tid)
    requires Callable(m, Run(t))
    ensures t in Step(m, Run(t)).threads
    ensures Looking(Step(m, Run(t)).threads[t]).Some? ==>
      var l, i := m.threads[t], Seen(Record(m, h, Run(t)), t);
      (Looking(l).Some? && i == Seen(h, t)) || (l.EnqTail? && i == h.tailPos) || (l.DeqHead? && i == h.headPos)
  {
    if Enqueuing(m.threads[t]) { NewLookEnqueue(m, h, t); } else { NewLookDequeue(m, h, t); }
  }

  lemma NewLookEnqueue(m: Machine, h: History, t: Tid)
    requires t in m.threads && Enqueuing(m.threads[t])
    ensures t in EnqueueStep(m, t).threads
    ensures Looking(EnqueueStep(m, t).threads[t]).Some? ==>
      Seen(RecordEnqueue(m, h, t), t) == if m.threads[t].EnqTail? then h.tailPos else Seen(h, t)
    ensures Looking(EnqueueStep(m, t).threads[t]).Some? ==> Looking(m.threads[t]).Some? || m.threads[t].EnqTail?
  {
  }

  lemma NewLookDequeue(m: Machine, h: History, t: Tid)
    requires t in m.threads && !Enqueuing(m.threads[t]) && !m.threads[t].Idle?
    ensures t in DequeueStep(m, t).threads
    ensures Looking(DequeueStep(m, t).threads[t]).Some? ==> Looking(m.threads[t]).Some? || m.threads[t].DeqHead?
    ensures Seen(RecordDequeue(m, h, t), t) == if m.threads[t].DeqHead? then h.headPos else Seen(h, t)
  {
    DequeueMovesThread(m, t);
    DequeueRecords(m, h, t);
  }

  lemma OwnLookIntact(m: Machine, h: History, t: Tid)
    requires Inv(m, h) && Callable(m, Run(t)) && HoldsIntact(m, h, t)
    ensures t in Step(m, Run(t)).threads && HoldsIntact(Step(m, Run(t)), Record(m, h, Run(t)), t)
  {
    assert PosOk(m, h, h.headPos) && PosOk(m, h, h.tailPos);
    NewLook(m, h, t);
    if Looking(Step(m, Run(t)).threads[t]).Some? { StaysIntact(m, h, Run(t), Seen(Record(m, h, Run(t)), t)); }
  }

  lemma GuardKeepsIntact(m: Machine, h: History, act: Action)
    requires Inv(m, h) && AllIntact(m, h) && Guarded(m, act)
    ensures AllIntact(Step(m, act), Record(m, h, act))
  {
    var m', h' := Step(m, act), Record(m, h, act);
    forall t | t in m'.threads ensures HoldsIntact(m', h', t) {
      if act.Run? && act.t == t {
        assert HoldsIntact(m, h, t);
        OwnLookIntact(m, h, t);
      } else if t in m.threads && !ActsFor(act, t) {
        assert HoldsIntact(m, h, t) && LocalOk(m, h, t);
        OthersLeaveView(m, h, act, t);
        if Looking(m.threads[t]).Some? { StaysIntact(m, h, act, Seen(h, t)); }
      } else {
        assert act.BeginEnqueue? || act.BeginDequeue?  || act.Run?;
        if act.Run? { assert t != act.t; OnlyKnownThreads(m, act, t); }
      }
    }
  }

  lemma OnlyKnownThreads(m: Machine, act: Action, t: Tid)
    requires Callable(m, act) && t in Step(m, act).threads
    ensures t in m.threads
  {
  }
}
