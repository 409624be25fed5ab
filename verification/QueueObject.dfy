/** `MPSCQueue` and `LockFreeQueue` as the source writes them: shared fields updated in place by
    loops of reads and compare-exchanges, with other threads running between any two accesses.
    The allocator respects the full guard. */
module QueueObject {
  import opened Words
  import opened QueueMachine
  import opened QueueInvariant
  import opened QueueSteps
  import opened QueueGuard
  import opened Journals
  import opened QueueJournal
  import opened QueueTheorems

  /** Nothing in the schedule is an action of `t`. */
  predicate ByOthers(schedule: seq<Action>, t: Tid) {
    forall act :: act in schedule ==> !ActsFor(act, t)
  }

  /** What an action of another thread leaves alone. */
  lemma OthersStep(m: Machine, h: History, j: Journal, act: Action, t: Tid)
    requires Callable(m, act) && t in m.threads && !ActsFor(act, t)
    ensures t in Step(m, act).threads && Step(m, act).threads[t] == m.threads[t]
    ensures Seen(Record(m, h, act), t) == Seen(h, t)
    ensures Continues(j, Write(m, j, act), t) && Step(m, act).variant == m.variant
  {
    OthersLeaveView(m, h, act, t);
    VariantStays(m, act);
    WriteContinues(m, j, act, t);
  }

  /** The invariant of the object: that of the machine and its journal, with every node a thread is
      looking at still the one it saw. */
  ghost predicate Whole(s: State) {
    match s case State(m, h, _) => Good(s) && AllIntact(m, h)
  }

  /** The same; a quantifier, so that it is unfolded on request only. */
  ghost predicate Kept(m: Machine, h: History, j: Journal) {
    forall s {:trigger Whole(s)} :: s == State(m, h, j) ==> Whole(s)
  }

  lemma StepKeepsWhole(s: State, act: Action)
    requires Whole(s) && Guarded(s.m, act)
    ensures Whole(State(Step(s.m, act), Record(s.m, s.h, act), Write(s.m, s.j, act)))
  {
    GuardedIsEnabled(s.m, act);
    IntactIsInReach(s.m, s.h, act);
    StepKeepsGood(s, act);
    GuardKeepsIntact(s.m, s.h, act);
  }

  /** What a CAS that wins, or a null successor, adds to the events. */
  lemma StepEvent(s: State, t: Tid)
    requires Good(s) && Callable(s.m, Run(t))
    ensures Write(s.m, s.j, Run(t)).events ==
      match EventOf(s.m, t, Current(s.j, t)) case None => s.j.events case Some(e) => s.j.events + [e]
  {
    assert t in Statuses(s.m, s.h) && ThreadFits(s.j, t, Statuses(s.m, s.h)[t]);
    WriteAppends(s.m, s.j, t);
  }

  /** A call that has begun and is over has answered what its thread got. */
  lemma ReturnFinishes(j: Journal, s: State, t: Tid, op: Op)
    requires Whole(s) && t in s.m.threads && s.m.threads[t].Idle? && Begun(j, s.j, t, op)
    ensures Finished(j, s.j, t, op, ReplyOf(s.m.threads[t].result))
  {
    assert t in Statuses(s.m, s.h);
    RightIsFinished(j, s.j, Statuses(s.m, s.h), t, op, ReplyOf(s.m.threads[t].result));
  }

  /** A winning head CAS takes what the thread has copied, or is about to read. */
  lemma UnlinkEvent(s: State, t: Tid)
    requires Whole(s) && UnlinksNow(s.m, t)
    ensures EventOf(s.m, t, Current(s.j, t)) == Some(Took(Current(s.j, t), NextValue(s.h, t)))
    ensures NextValue(RecordDequeue(s.m, s.h, t), t) == NextValue(s.h, t)
    ensures s.m.threads[t].ManyCas? ==> s.m.threads[t].value == NextValue(s.h, t)
  {
    IntactIsInReach(s.m, s.h, Run(t));
    UnlinkedValue(s.m, s.h, t);
    DequeueRecords(s.m, s.h, t);
  }

  /** How many nodes tail lags behind the last one. */
  function Lag(h: History): int {
    |h.chain| - 1 - h.tailPos
  }

  class LinkedQueue {
    const variant: Variant
    var head: Word
    var tail: Word
    var index: nat
    var count: nat
    var heap: map<Addr, Node>
    var free: set<Addr>
    var threads: map<Tid, Local>    // where every thread is
    var schedule: seq<Action>       // what the other threads and the allocator are still going to do
    ghost var history: History
    ghost var journal: Journal
    ghost var tries: nat            // compare-exchanges of the running calls' loops so far

    /** `MPSCQueue()`, `LockFreeQueue()`: one dummy node with a null successor, head and tail on it. */
    constructor (variant: Variant, heap: map<Addr, Node>, dummy: Addr, tids: set<Tid>, schedule: seq<Action>)
      requires NULL !in heap && dummy in heap
      ensures Init(Now()) && Sound() && Contents(history) == [] && journal == BLANK
      ensures this.variant == variant && this.heap.Keys == heap.Keys && this.threads.Keys == tids && this.schedule == schedule
    {
      this.variant := variant;
      head, tail, index, count := Word(0, dummy), Word(0, dummy), 0, 0;
      this.heap, free := heap[dummy := heap[dummy].(next := ZERO)], heap.Keys - {dummy};
      threads := map t | t in tids :: Idle(Ready);
      this.schedule := schedule;
      new;
      history, journal := Start(Now()), BLANK;
      BeginGood(Now());
    }

    function Now(): Machine
      reads this
    {
      Machine(variant, head, tail, index, count, heap, free, threads)
    }

    ghost predicate Sound()
      reads this
    {
      Kept(Now(), history, journal)
    }

    /** The fields after one action of the machine. */
    method Take(act: Action)
      requires Sound() && Guarded(Now(), act) && Step(Now(), act).variant == variant
      modifies this
      ensures Sound() && Now() == Step(old(Now()), act) && schedule == old(schedule)
      ensures history == Record(old(Now()), old(history), act) && journal == Write(old(Now()), old(journal), act)
      ensures tries == old(tries)
    {
      var m := Step(Now(), act);
      ghost var before := Now();
      head, tail, index, count, heap, free, threads := m.head, m.tail, m.index, m.count, m.heap, m.free, m.threads;
      Note(before, act);
    }

    /** The bookkeeping of a statement that has already changed the fields. */
    ghost method Note(before: Machine, act: Action)
      requires Guarded(before, act) && Now() == Step(before, act) && Kept(before, history, journal)
      modifies `history, `journal
      ensures Sound()
      ensures history == Record(before, old(history), act) && journal == Write(before, old(journal), act)
      ensures act.Run? ==> Continues(old(journal), journal, act.t)
    {
      assert Whole(State(before, history, journal));
      if act.Run? { WriteContinues(before, journal, act, act.t); }
      StepKeepsWhole(State(before, history, journal), act);
      history, journal := Record(before, history, act), Write(before, journal, act);
    }

    /** The same, for a step that only has to keep the invariant and the call. */
    ghost method Settle(before: Machine, t: Tid)
      requires Callable(before, Run(t)) && Now() == Step(before, Run(t)) && Kept(before, history, journal)
      modifies `history, `journal
      ensures Sound() && Continues(old(journal), journal, t)
    {
      Note(before, Run(t));
    }

    /** The same, for a step with the event `e`, if any. */
    ghost method SettleEvent(before: Machine, t: Tid, e: Option<Event>)
      requires Callable(before, Run(t)) && Now() == Step(before, Run(t)) && Kept(before, history, journal)
      requires e == EventOf(before, t, Current(journal, t))
      modifies `history, `journal
      ensures Sound() && Continues(old(journal), journal, t)
      ensures journal.events == match e case None => old(journal.events) case Some(v) => old(journal.events) + [v]
    {
      assert Whole(State(before, history, journal));
      StepEvent(State(before, history, journal), t);
      Note(before, Run(t));
    }

    /** The same, for a head CAS that wins. */
    ghost method SettleUnlink(before: Machine, t: Tid)
      requires UnlinksNow(before, t) && Now() == Step(before, Run(t)) && Kept(before, history, journal)
      modifies `history, `journal
      ensures Sound() && Continues(old(journal), journal, t)
      ensures journal.events == old(journal.events) + [Took(Current(journal, t), NextValue(history, t))]
    {
      assert Whole(State(before, history, journal));
      UnlinkEvent(State(before, history, journal), t);
      StepEvent(State(before, history, journal), t);
      Note(before, Run(t));
    }

    /** The same, for a producer's read. */
    ghost method SettleRead(before: Machine, t: Tid)
      requires Callable(before, Run(t)) && Now() == Step(before, Run(t)) && Kept(before, history, journal)
      requires before.threads[t].EnqTail? || before.threads[t].EnqNext?
      modifies `history, `journal
      ensures Sound() && Continues(old(journal), journal, t) && Lag(history) == old(Lag(history))
    {
      Note(before, Run(t));
    }

    /** The same, for the start of a call. */
    ghost method SettleBegin(before: Machine, act: Action, op: Op)
      requires Guarded(before, act) && Now() == Step(before, act) && Kept(before, history, journal)
      requires (act.BeginEnqueue? && op == PutOp(act.value)) || (act.BeginDequeue? && op == TakeOp)
      modifies `history, `journal
      ensures Sound() && Begun(old(journal), journal, act.t, op)
    {
      Note(before, act);
    }

    /** What every piece of a call by `t` keeps: the invariant, the call, the others' schedule. */
    twostate predicate Later(t: Tid)
      reads this
    {
      && Sound() && t in threads && ByOthers(schedule, t)
      && |schedule| <= old(|schedule|)
      && Continues(old(journal), journal, t)
    }

    /** What the first piece of a call by `t` does. */
    twostate predicate Entered(t: Tid, op: Op)
      reads this
    {
      && Sound() && t in threads && ByOthers(schedule, t)
      && |schedule| <= old(|schedule|)
      && Begun(old(journal), journal, t, op)
    }

    /** Other threads and the allocator take any number of their steps. */
    method Interfere(t: Tid)
      requires Sound() && t in threads && ByOthers(schedule, t)
      modifies this
      ensures Later(t) && threads[t] == old(threads[t]) && Seen(history, t) == old(Seen(history, t))
      ensures |schedule| == old(|schedule|) ==> Now() == old(Now()) && history == old(history)
      ensures Seen(history, t) + 1 < |old(history.chain)| ==> NextValue(history, t) == old(NextValue(history, t))
      ensures tries == old(tries)
    {
      var steps: nat :| steps <= |schedule|;
      for i := 0 to steps
        invariant Later(t) && threads[t] == old(threads[t]) && Seen(history, t) == old(Seen(history, t))
        invariant tries == old(tries)
        invariant |schedule| + i == old(|schedule|)
        invariant i == 0 ==> Now() == old(Now()) && history == old(history)
        invariant old(history.chain) <= history.chain
      {
        var act := schedule[0];
        schedule := schedule[1..];
        if Guarded(Now(), act) {
          OthersStep(Now(), history, journal, act, t);
          StepGrows(Now(), history, act);
          Take(act);
        }
      }
    }

    /** The same, for a caller who needs no more than that its call goes on. */
    method Pause(t: Tid)
      requires Sound() && t in threads && ByOthers(schedule, t)
      modifies this
      ensures Later(t) && threads[t] == old(threads[t])
      ensures tries == old(tries)
    {
      Interfere(t);
    }

    // ---------- Enqueue ----------

    /** `new Node` or `Alloc`, and the start of the call: the allocator guard at work. */
    method Alloc(t: Tid, value: Value) returns (newNode: Addr)
      requires Sound() && t in threads && threads[t].Idle? && ByOthers(schedule, t)
      requires exists a :: a in free && Unreferenced(Now(), a)
      modifies this
      ensures Entered(t, PutOp(value)) && threads[t] == EnqData(newNode, value)
      ensures tries == old(tries)
    {
      newNode :| newNode in free && Unreferenced(Now(), newNode);
      ghost var before := Now();
      free := free - {newNode};
      threads := threads[t := EnqData(newNode, value)];
      SettleBegin(before, BeginEnqueue(t, value, newNode), PutOp(value));
      Pause(t);
    }

    /** `newNode->data = value` */
    method WriteData(t: Tid, newNode: Addr, value: Value)
      requires Sound() && t in threads && threads[t] == EnqData(newNode, value) && ByOthers(schedule, t)
      modifies this
      ensures Later(t) && threads[t] == EnqNull(newNode, value)
      ensures tries == old(tries)
    {
      ghost var before := Now();
      heap := heap[newNode := Load(Now(), newNode).(data := value)];
      threads := threads[t := EnqNull(newNode, value)];
      Settle(before, t);
      Pause(t);
    }

    /** `newNode->next.raw = 0` */
    method WriteNull(t: Tid, newNode: Addr, value: Value)
      requires Sound() && t in threads && threads[t] == EnqNull(newNode, value) && ByOthers(schedule, t)
      modifies this
      ensures Later(t) && threads[t] == EnqTag(newNode, value)
      ensures tries == old(tries)
    {
      ghost var before := Now();
      heap := heap[newNode := Load(Now(), newNode).(next := ZERO)];
      threads := threads[t := EnqTag(newNode, value)];
      Settle(before, t);
      Pause(t);
    }

    /** `InterlockedIncrement(&index) & 0x1FFFF`, and the word made of it */
    method TakeTag(t: Tid, newNode: Addr, value: Value) returns (word: Word)
      requires Sound() && t in threads && threads[t] == EnqTag(newNode, value) && ByOthers(schedule, t)
      modifies this
      ensures Later(t) && threads[t] == EnqTail(newNode, value, word)
      ensures tries == old(tries)
    {
      ghost var before := Now();
      index := (index + 1) % TWO64;
      word := Word(Tag(index), newNode);
      threads := threads[t := EnqTail(newNode, value, word)];
      assert Now() == EnqueueStep(before, t);
      Settle(before, t);
      Pause(t);
    }

    /** `oldTailNode.raw = tail.raw` */
    method ReadTail(t: Tid, newNode: Addr, value: Value, word: Word) returns (oldTail: Word)
      requires Sound() && t in threads && threads[t] == EnqTail(newNode, value, word) && ByOthers(schedule, t)
      modifies this
      ensures Later(t) && threads[t] == EnqNext(newNode, value, word, oldTail)
      ensures |schedule| == old(|schedule|) ==> oldTail == tail && Lag(history) == old(Lag(history))
      ensures tries == old(tries)
    {
      ghost var before := Now();
      oldTail := tail;
      threads := threads[t := EnqNext(newNode, value, word, oldTail)];
      SettleRead(before, t);
      Interfere(t);
    }

    /** `tailNextNode.raw = oldNode->next.raw`, and the null test */
    method ReadNext(t: Tid, newNode: Addr, value: Value, word: Word, oldTail: Word) returns (next: Word)
      requires Sound() && t in threads && threads[t] == EnqNext(newNode, value, word, oldTail) && ByOthers(schedule, t)
      modifies this
      ensures Later(t)
      ensures threads[t] == if next.addr == NULL then EnqLink(newNode, value, word, oldTail, next)
                            else EnqHelp(newNode, value, word, oldTail, next)
      ensures |schedule| == old(|schedule|) ==> tail == old(tail) && Lag(history) == old(Lag(history))
      ensures |schedule| == old(|schedule|) && next.addr == NULL ==> Load(Now(), oldTail.addr).next == next
      ensures tries == old(tries)
    {
      ghost var before := Now();
      next := Load(Now(), oldTail.addr).next;
      threads := threads[t := if next.addr == NULL then EnqLink(newNode, value, word, oldTail, next)
                              else EnqHelp(newNode, value, word, oldTail, next)];
      SettleRead(before, t);
      Interfere(t);
    }

    /** The atomic part of LinkNext. */
    method LinkNextAtOnce(t: Tid, newNode: Addr, value: Value, word: Word, oldTail: Word, next: Word) returns (won: bool)
      requires Sound() && t in threads && ByOthers(schedule, t)
      requires threads[t] == EnqLink(newNode, value, word, oldTail, next)
      modifies this
      ensures Later(t) && schedule == old(schedule) && won == (old(Load(Now(), oldTail.addr).next) == next)
      ensures threads[t] == if won then EnqSwing(word, oldTail) else EnqTail(newNode, value, word)
      ensures won ==> journal.events == old(journal.events) + [Put(Current(journal, t), value)]
      ensures tries == old(tries) + 1
    {
      tries := tries + 1;
      ghost var before := Now();
      won := Load(Now(), oldTail.addr).next == next;
      if won { heap := heap[oldTail.addr := Load(Now(), oldTail.addr).(next := word)]; }
      threads := threads[t := if won then EnqSwing(word, oldTail) else EnqTail(newNode, value, word)];
      SettleEvent(before, t, if won then Some(Put(Current(journal, t), value)) else None);
    }

    /** `InterlockedCompareExchange64(&oldNode->next.raw, newNodePtr.raw, tailNextNode.raw)`. If it wins,
        the next event is this call's; the others may run before tail is swung. */
    method LinkNext(t: Tid, newNode: Addr, value: Value, word: Word, oldTail: Word, next: Word) returns (won: bool)
      requires Sound() && t in threads && ByOthers(schedule, t)
      requires threads[t] == EnqLink(newNode, value, word, oldTail, next)
      modifies this
      ensures Later(t) && won == (old(Load(Now(), oldTail.addr).next) == next)
      ensures threads[t] == if won then EnqSwing(word, oldTail) else EnqTail(newNode, value, word)
      ensures won ==>
        |old(journal.events)| < |journal.events| && journal.events[|old(journal.events)|] == Put(Current(journal, t), value)
      ensures tries == old(tries) + 1
    {
      won := LinkNextAtOnce(t, newNode, value, word, oldTail, next);
      Pause(t);
    }

    /** The atomic part of HelpTail. */
    method HelpTailAtOnce(t: Tid, newNode: Addr, value: Value, word: Word, oldTail: Word, next: Word)
      requires Sound() && t in threads && ByOthers(schedule, t)
      requires threads[t] == EnqHelp(newNode, value, word, oldTail, next)
      modifies this
      ensures Later(t) && schedule == old(schedule) && threads[t] == EnqTail(newNode, value, word)
      ensures Lag(history) == old(Lag(history)) - (if old(tail) == oldTail then 1 else 0)
      ensures tries == old(tries) + 1
    {
      tries := tries + 1;
      ghost var before := Now();
      if tail == oldTail { tail := next; }
      threads := threads[t := EnqTail(newNode, value, word)];
      Note(before, Run(t));
    }

    /** `InterlockedCompareExchange64(&tail.raw, tailNextNode.raw, oldTailNode.raw)`, for another producer */
    method HelpTail(t: Tid, newNode: Addr, value: Value, word: Word, oldTail: Word, next: Word)
      requires Sound() && t in threads && ByOthers(schedule, t)
      requires threads[t] == EnqHelp(newNode, value, word, oldTail, next)
      modifies this
      ensures Later(t) && threads[t] == EnqTail(newNode, value, word)
      ensures |schedule| == old(|schedule|) ==>
        Lag(history) == old(Lag(history)) - (if old(tail) == oldTail then 1 else 0)
      ensures tries == old(tries) + 1
    {
      HelpTailAtOnce(t, newNode, value, word, oldTail, next);
      Interfere(t);
    }

    /** `InterlockedCompareExchange64(&tail.raw, newNodePtr.raw, oldTailNode.raw)`: it fails when another
        producer has helped in between. */
    method SwingTail(t: Tid, word: Word, oldTail: Word)
      requires Sound() && t in threads && threads[t] == EnqSwing(word, oldTail) && ByOthers(schedule, t)
      modifies this
      ensures Later(t) && threads[t] == EnqCount
      ensures tries == old(tries)
    {
      ghost var before := Now();
      if tail == oldTail { tail := word; }
      threads := threads[t := EnqCount];
      Settle(before, t);
      Pause(t);
    }

    /** `InterlockedIncrement(&count)` */
    method CountUp(t: Tid)
      requires Sound() && t in threads && threads[t] == EnqCount && ByOthers(schedule, t)
      modifies this
      ensures Later(t) && threads[t] == Idle(Enqueued)
      ensures tries == old(tries)
    {
      ghost var before := Now();
      count := (count + 1) % TWO32;
      threads := threads[t := Idle(Enqueued)];
      assert Now() == EnqueueStep(before, t);
      Settle(before, t);
      Pause(t);
    }

    /** The two reads of a pass. */
    method LookBehind(t: Tid, newNode: Addr, value: Value, word: Word) returns (oldTail: Word, next: Word)
      requires Sound() && t in threads && threads[t] == EnqTail(newNode, value, word) && ByOthers(schedule, t)
      modifies this
      ensures Later(t)
      ensures threads[t] == if next.addr == NULL then EnqLink(newNode, value, word, oldTail, next)
                            else EnqHelp(newNode, value, word, oldTail, next)
      ensures |schedule| == old(|schedule|) ==> tail == oldTail && Lag(history) == old(Lag(history))
      ensures |schedule| == old(|schedule|) && next.addr == NULL ==> Load(Now(), oldTail.addr).next == next
      ensures tries == old(tries)
    {
      oldTail := ReadTail(t, newNode, value, word);
      next := ReadNext(t, newNode, value, word, oldTail);
    }

    /** One pass of the Enqueue loop. A pass that does not link was interfered with, or has taken
        tail one node closer to the end. */
    method LinkPass(t: Tid, newNode: Addr, value: Value, word: Word) returns (won: bool, oldTail: Word)
      requires Sound() && t in threads && threads[t] == EnqTail(newNode, value, word) && ByOthers(schedule, t)
      modifies this
      ensures Later(t) && threads[t] == if won then EnqSwing(word, oldTail) else EnqTail(newNode, value, word)
      ensures won ==> Since(journal, |old(journal.events)|, Put(Current(journal, t), value))
      ensures !won ==> |schedule| < old(|schedule|) || Lag(history) == old(Lag(history)) - 1
      ensures 0 <= Lag(history) <= 1
      ensures tries == old(tries) + 1
    {
      var next;
      oldTail, next := LookBehind(t, newNode, value, word);
      if next.addr == NULL {
        won := LinkNext(t, newNode, value, word, oldTail, next);
      } else {
        HelpTail(t, newNode, value, word, oldTail, next);
        won := false;
      }
      assert Whole(State(Now(), history, journal));
    }

    /** The Enqueue loop: with k steps of interference it takes at most 2k + 2 passes. */
    method LinkLoop(t: Tid, newNode: Addr, value: Value, word: Word) returns (passes: nat, oldTail: Word)
      requires Sound() && t in threads && threads[t] == EnqTail(newNode, value, word) && ByOthers(schedule, t)
      modifies this
      ensures Later(t) && threads[t] == EnqSwing(word, oldTail)
      ensures passes <= 2 * (old(|schedule|) - |schedule|) + 2
      ensures Since(journal, |old(journal.events)|, Put(Current(journal, t), value))
      ensures tries == old(tries) + passes
    {
      passes := 0;
      assert Whole(State(Now(), history, journal));
      while true
        invariant Later(t) && threads[t] == EnqTail(newNode, value, word) && 0 <= Lag(history) <= 1
        invariant tries == old(tries) + passes
        invariant passes + Lag(history) <= 2 * (old(|schedule|) - |schedule|) + 1
        decreases |schedule|, Lag(history)
      {
        passes := passes + 1;
        var won;
        won, oldTail := LinkPass(t, newNode, value, word);
        if won {
          return;
        }
      }
    }

    /** Enqueue returns, and in between its call has one event of its own that puts this value. */
    method Enqueue(t: Tid, value: Value) returns (passes: nat)
      requires Sound() && t in threads && threads[t].Idle? && ByOthers(schedule, t)
      requires exists a :: a in free && Unreferenced(Now(), a)
      modifies this
      ensures Entered(t, PutOp(value)) && threads[t] == Idle(Enqueued)
      ensures passes <= 2 * (old(|schedule|) - |schedule|) + 2
      ensures Finished(old(journal), journal, t, PutOp(value), Done)
      ensures tries == old(tries) + passes
    {
      var newNode, word := PrepareNode(t, value);
      var oldTail;
      passes, oldTail := LinkLoop(t, newNode, value, word);
      SwingTail(t, word, oldTail);
      CountUp(t);
      ReturnFinishes(old(journal), State(Now(), history, journal), t, PutOp(value));
    }

    /** The start of Enqueue: a node with its value, a null successor and its tag. */
    method PrepareNode(t: Tid, value: Value) returns (newNode: Addr, word: Word)
      requires Sound() && t in threads && threads[t].Idle? && ByOthers(schedule, t)
      requires exists a :: a in free && Unreferenced(Now(), a)
      modifies this
      ensures Entered(t, PutOp(value)) && threads[t] == EnqTail(newNode, value, word)
      ensures tries == old(tries)
    {
      newNode := Alloc(t, value);
      WriteData(t, newNode, value);
      WriteNull(t, newNode, value);
      word := TakeTag(t, newNode, value);
    }

    // ---------- Dequeue, both queues ----------

    method BeginDequeuing(t: Tid)
      requires Sound() && t in threads && threads[t].Idle? && ByOthers(schedule, t) && MayDequeue(Now(), t)
      modifies this
      ensures Entered(t, TakeOp) && threads[t] == if variant.ManyConsumers? then ManyCheck else DeqHead
      ensures tries == old(tries)
    {
      ghost var before := Now();
      threads := threads[t := if variant.ManyConsumers? then ManyCheck else DeqHead];
      SettleBegin(before, BeginDequeue(t), TakeOp);
      Pause(t);
    }

    /** `toBeDeletedNode.raw = head.raw` */
    method ReadHead(t: Tid) returns (oldHead: Word)
      requires Sound() && t in threads && threads[t] == DeqHead && ByOthers(schedule, t)
      modifies this
      ensures Later(t) && threads[t] == DeqNext(oldHead)
      ensures |schedule| == old(|schedule|) ==> head == oldHead
      ensures tries == old(tries)
    {
      ghost var before := Now();
      oldHead := head;
      threads := threads[t := DeqNext(oldHead)];
      Settle(before, t);
      Interfere(t);
    }

    // ---------- MPSCQueue ----------

    /** `HeadDummyNode.raw = delNode->next.raw`; a null successor, read just when the queue is empty, is
        this call's event and ends it with -1. */
    method SoloReadNext(t: Tid, oldHead: Word) returns (next: Word)
      requires Sound() && t in threads && threads[t] == DeqNext(oldHead) && ByOthers(schedule, t)
      requires variant.SingleConsumer?
      modifies this
      ensures Later(t) && threads[t] == if next.addr == NULL then Idle(Empty) else SoloCas(oldHead, next)
      ensures next.addr == NULL <==> old(Contents(history)) == []
      ensures next.addr == NULL ==>
        |old(journal.events)| < |journal.events| && journal.events[|old(journal.events)|] == SawEmpty(Current(journal, t))
      ensures tries == old(tries)
    {
      ghost var before := Now();
      assert Whole(State(before, history, journal));
      EmptyMeansEmpty(before, history, t);
      next := Load(Now(), oldHead.addr).next;
      threads := threads[t := if next.addr == NULL then Idle(Empty) else SoloCas(oldHead, next)];
      SettleEvent(before, t, if next.addr == NULL then Some(SawEmpty(Current(journal, t))) else None);
      Pause(t);
    }

    /** The atomic part of SoloUnlink. */
    method SoloUnlinkAtOnce(t: Tid, oldHead: Word, next: Word) returns (won: bool)
      requires Sound() && t in threads && threads[t] == SoloCas(oldHead, next) && ByOthers(schedule, t)
      modifies this
      ensures Later(t) && won && threads[t] == SoloData(oldHead, next) && schedule == old(schedule)
      ensures journal.events == old(journal.events) + [Took(Current(journal, t), NextValue(history, t))]
      ensures tries == old(tries) + 1
    {
      tries := tries + 1;
      ghost var before := Now();
      assert Whole(State(before, history, journal));
      SoloCasSucceeds(before, history, t);
      won := head == oldHead;
      if won { head := next; }
      threads := threads[t := SoloData(oldHead, next)];
      SettleUnlink(before, t);
    }

    /** `InterlockedCompareExchange64(&head.raw, HeadDummyNode.raw, toBeDeletedNode.raw)`: with one
        consumer it always succeeds, and the next event is this call's; the producers may run before
        the value is read. */
    method SoloUnlink(t: Tid, oldHead: Word, next: Word) returns (won: bool)
      requires Sound() && t in threads && threads[t] == SoloCas(oldHead, next) && ByOthers(schedule, t)
      modifies this
      ensures Later(t) && won && threads[t] == SoloData(oldHead, next)
      ensures |old(journal.events)| < |journal.events|
      ensures journal.events[|old(journal.events)|] == Took(Current(journal, t), NextValue(history, t))
      ensures tries == old(tries) + 1
    {
      won := SoloUnlinkAtOnce(t, oldHead, next);
      assert Whole(State(Now(), history, journal));
      SoloReadsTaken(Now(), history, t);
      Interfere(t);
    }

    /** `t = delNextNode->data` after the CAS */
    method SoloReadData(t: Tid, oldHead: Word, next: Word) returns (value: Value)
      requires Sound() && t in threads && threads[t] == SoloData(oldHead, next) && ByOthers(schedule, t)
      modifies this
      ensures Later(t) && threads[t] == SoloDelete(oldHead, value)
      ensures value == old(NextValue(history, t))
      ensures tries == old(tries)
    {
      ghost var before := Now();
      assert Whole(State(Now(), history, journal));
      SoloReadsTaken(before, history, t);
      value := Load(Now(), next.addr).data;
      threads := threads[t := SoloDelete(oldHead, value)];
      Settle(before, t);
      Pause(t);
    }

    /** `delete delNode` */
    method SoloRelease(t: Tid, oldHead: Word, value: Value)
      requires Sound() && t in threads && threads[t] == SoloDelete(oldHead, value) && ByOthers(schedule, t)
      modifies this
      ensures Later(t) && threads[t] == SoloCount(value)
      ensures tries == old(tries)
    {
      ghost var before := Now();
      free := free + {oldHead.addr};
      threads := threads[t := SoloCount(value)];
      Settle(before, t);
      Pause(t);
    }

    /** `InterlockedDecrement(&count)` */
    method CountDown(t: Tid, value: Value)
      requires Sound() && t in threads && threads[t] == SoloCount(value) && ByOthers(schedule, t)
      modifies this
      ensures Later(t) && threads[t] == Idle(Got(value))
      ensures tries == old(tries)
    {
      ghost var before := Now();
      count := (count - 1) % TWO32;
      threads := threads[t := Idle(Got(value))];
      assert Now() == DequeueStep(before, t);
      Settle(before, t);
      Pause(t);
    }

    /** The two reads of a pass. */
    method SoloLook(t: Tid) returns (oldHead: Word, next: Word)
      requires Sound() && t in threads && threads[t] == DeqHead && ByOthers(schedule, t) && variant.SingleConsumer?
      modifies this
      ensures Later(t) && threads[t] == if next.addr == NULL then Idle(Empty) else SoloCas(oldHead, next)
      ensures next.addr == NULL ==> Since(journal, |old(journal.events)|, SawEmpty(Current(journal, t)))
      ensures tries == old(tries)
    {
      oldHead := ReadHead(t);
      next := SoloReadNext(t, oldHead);
    }

    /** The part of `MPSCQueue::Dequeue` up to its head CAS: the loop runs once, whatever the
        producers do. */
    method SoloUnlinkLoop(t: Tid) returns (oldHead: Word, next: Word)
      requires Sound() && t in threads && threads[t] == DeqHead && ByOthers(schedule, t) && variant.SingleConsumer?
      modifies this
      ensures Later(t)
      ensures threads[t] == if next.addr == NULL then Idle(Empty) else SoloData(oldHead, next)
      ensures Since(journal, |old(journal.events)|,
        if next.addr == NULL then SawEmpty(Current(journal, t)) else Took(Current(journal, t), NextValue(history, t)))
      ensures tries == old(tries) + (if next.addr == NULL then 0 else 1)
    {
      oldHead, next := SoloLook(t);
      if next.addr != NULL {
        var won := SoloUnlink(t, oldHead, next);
      }
    }

    /** The rest of `MPSCQueue::Dequeue`, after its head CAS. */
    method SoloTakeAway(t: Tid, oldHead: Word, next: Word) returns (value: Value)
      requires Sound() && t in threads && threads[t] == SoloData(oldHead, next) && ByOthers(schedule, t)
      modifies this
      ensures Later(t) && threads[t] == Idle(Got(value))
      ensures value == old(NextValue(history, t))
      ensures tries == old(tries)
    {
      value := SoloReadData(t, oldHead, next);
      SoloFinish(t, oldHead, value);
    }

    /** The release of the old dummy, and the count. */
    method SoloFinish(t: Tid, oldHead: Word, value: Value)
      requires Sound() && t in threads && threads[t] == SoloDelete(oldHead, value) && ByOthers(schedule, t)
      modifies this
      ensures Later(t) && threads[t] == Idle(Got(value))
      ensures tries == old(tries)
    {
      SoloRelease(t, oldHead, value);
      CountDown(t, value);
    }

    /** `MPSCQueue::Dequeue` without its first step. */
    method SoloUnlinkAndTake(t: Tid) returns (result: Option<Value>)
      requires Sound() && t in threads && threads[t] == DeqHead && ByOthers(schedule, t) && variant.SingleConsumer?
      modifies this
      ensures Later(t)
      ensures threads[t] == match result case Some(v) => Idle(Got(v)) case None => Idle(Empty)
      ensures tries == old(tries) + (if result.None? then 0 else 1)
    {
      var oldHead, next := SoloUnlinkLoop(t);
      if next.addr == NULL {
        return None;
      }
      var value := SoloTakeAway(t, oldHead, next);
      return Some(value);
    }

    /** `MPSCQueue::Dequeue` by the one consumer: -1 with an event of its own that found the queue
        empty, or the value its own event took off the front. */
    method SoloDequeue(t: Tid) returns (result: Option<Value>)
      requires Sound() && t in threads && threads[t].Idle? && ByOthers(schedule, t) && variant == SingleConsumer(t)
      modifies this
      ensures Entered(t, TakeOp)
      ensures threads[t] == match result case Some(v) => Idle(Got(v)) case None => Idle(Empty)
      ensures Finished(old(journal), journal, t, TakeOp, match result case Some(v) => Gave(v) case None => FoundEmpty)
      ensures tries == old(tries) + (if result.None? then 0 else 1)
    {
      BeginDequeuing(t);
      result := SoloUnlinkAndTake(t);
      ReturnFinishes(old(journal), State(Now(), history, journal), t, TakeOp);
    }

    // ---------- LockFreeQueue ----------

    /** `oldCount = count; if (oldCount <= 0) return -1;` */
    method ReadCount(t: Tid) returns (oldCount: int)
      requires Sound() && t in threads && threads[t] == ManyCheck && ByOthers(schedule, t)
      modifies this
      ensures Later(t) && oldCount == old(Signed32(count))
      ensures threads[t] == if oldCount <= 0 then Idle(Refused) else ManyReserve(oldCount)
      ensures oldCount <= 0 <==> old(AllReserved(history))
      ensures |schedule| == old(|schedule|) ==> Signed32(count) == oldCount
      ensures tries == old(tries)
    {
      ghost var before := Now();
      assert Whole(State(before, history, journal));
      RefusedMeansAllReserved(before, history, t);
      oldCount := Signed32(count);
      threads := threads[t := if oldCount <= 0 then Idle(Refused) else ManyReserve(oldCount)];
      Settle(before, t);
      Interfere(t);
    }

    /** `InterlockedCompareExchange(&count, oldCount - 1, oldCount)` */
    method ReserveCount(t: Tid, oldCount: int) returns (won: bool)
      requires Sound() && t in threads && threads[t] == ManyReserve(oldCount) && ByOthers(schedule, t)
      modifies this
      ensures Later(t) && won == (old(Signed32(count)) == oldCount)
      ensures threads[t] == if won then DeqHead else ManyCheck
      ensures tries == old(tries)
    {
      ghost var before := Now();
      won := Signed32(count) == oldCount;
      if won { count := (oldCount - 1) % TWO32; }
      threads := threads[t := if won then DeqHead else ManyCheck];
      assert Now() == DequeueStep(before, t);
      Settle(before, t);
      Pause(t);
    }

    /** The reservation loop. */
    method ReserveLoop(t: Tid) returns (reserved: bool)
      requires Sound() && t in threads && threads[t] == ManyCheck && ByOthers(schedule, t)
      modifies this
      ensures Later(t) && threads[t] == if reserved then DeqHead else Idle(Refused)
      ensures tries == old(tries)
    {
      while true
        invariant Later(t) && threads[t] == ManyCheck && tries == old(tries)
        decreases |schedule|
      {
        var oldCount := ReadCount(t);
        if oldCount <= 0 {
          return false;
        }
        reserved := ReserveCount(t, oldCount);
        if reserved {
          return;
        }
      }
    }

    /** `HeadDummyNode.raw = delNode->next.raw`: with a reservation it is never null, so the
        `continue` after the null test is never taken. */
    method ManyReadNext(t: Tid, oldHead: Word) returns (next: Word)
      requires Sound() && t in threads && threads[t] == DeqNext(oldHead) && ByOthers(schedule, t)
      requires variant.ManyConsumers?
      modifies this
      ensures Later(t) && next.addr != NULL && threads[t] == ManyPeek(oldHead, next)
      ensures |schedule| == old(|schedule|) ==> head == old(head)
      ensures tries == old(tries)
    {
      ghost var before := Now();
      assert Whole(State(before, history, journal)) && HoldsIntact(before, history, t);
      ReservedSeesSuccessor(before, history, t);
      next := Load(Now(), oldHead.addr).next;
      threads := threads[t := if next.addr == NULL then DeqHead else ManyPeek(oldHead, next)];
      Settle(before, t);
      Interfere(t);
    }

    /** `t = delNextNode->data` before the CAS */
    method ManyReadData(t: Tid, oldHead: Word, next: Word) returns (value: Value)
      requires Sound() && t in threads && threads[t] == ManyPeek(oldHead, next) && ByOthers(schedule, t)
      modifies this
      ensures Later(t) && threads[t] == ManyCas(oldHead, next, value)
      ensures |schedule| == old(|schedule|) ==> head == old(head)
      ensures tries == old(tries)
    {
      ghost var before := Now();
      value := Load(Now(), next.addr).data;
      threads := threads[t := ManyCas(oldHead, next, value)];
      Settle(before, t);
      Interfere(t);
    }

    /** The atomic part of ManyUnlink. */
    method ManyUnlinkAtOnce(t: Tid, oldHead: Word, next: Word, value: Value) returns (won: bool)
      requires Sound() && t in threads && threads[t] == ManyCas(oldHead, next, value) && ByOthers(schedule, t)
      modifies this
      ensures Later(t) && schedule == old(schedule) && won == (old(head) == oldHead)
      ensures threads[t] == if won then ManyFree(oldHead, value) else DeqHead
      ensures won ==> journal.events == old(journal.events) + [Took(Current(journal, t), value)]
      ensures tries == old(tries) + 1
    {
      tries := tries + 1;
      ghost var before := Now();
      won := head == oldHead;
      if won { head := next; }
      threads := threads[t := if won then ManyFree(oldHead, value) else DeqHead];
      SettleEvent(before, t, if won then Some(Took(Current(journal, t), value)) else None);
    }

    /** `InterlockedCompareExchange64(&head.raw, HeadDummyNode.raw, toBeDeletedNode.raw)`. If it wins, the
        next event is this call's, of the value read before; the others may run before the release. */
    method ManyUnlink(t: Tid, oldHead: Word, next: Word, value: Value) returns (won: bool)
      requires Sound() && t in threads && threads[t] == ManyCas(oldHead, next, value) && ByOthers(schedule, t)
      modifies this
      ensures Later(t) && won == (old(head) == oldHead)
      ensures threads[t] == if won then ManyFree(oldHead, value) else DeqHead
      ensures won ==>
        |old(journal.events)| < |journal.events| && journal.events[|old(journal.events)|] == Took(Current(journal, t), value)
      ensures tries == old(tries) + 1
    {
      won := ManyUnlinkAtOnce(t, oldHead, next, value);
      Pause(t);
    }

    /** `Free(delNode)`, and the return */
    method ManyRelease(t: Tid, oldHead: Word, value: Value)
      requires Sound() && t in threads && threads[t] == ManyFree(oldHead, value) && ByOthers(schedule, t)
      modifies this
      ensures Later(t) && threads[t] == Idle(Got(value))
      ensures tries == old(tries)
    {
      ghost var before := Now();
      free := free + {oldHead.addr};
      threads := threads[t := Idle(Got(value))];
      Settle(before, t);
      Pause(t);
    }

    /** The three reads of a pass. */
    method ManyLook(t: Tid) returns (oldHead: Word, next: Word, value: Value)
      requires Sound() && t in threads && threads[t] == DeqHead && ByOthers(schedule, t) && variant.ManyConsumers?
      modifies this
      ensures Later(t) && threads[t] == ManyCas(oldHead, next, value)
      ensures |schedule| == old(|schedule|) ==> head == oldHead
      ensures tries == old(tries)
    {
      oldHead := ReadHead(t);
      next := ManyReadNext(t, oldHead);
      value := ManyReadData(t, oldHead, next);
    }

    /** One pass of the removal loop; a lost pass was interfered with. */
    method ManyPass(t: Tid) returns (won: bool, oldHead: Word, value: Value)
      requires Sound() && t in threads && threads[t] == DeqHead && ByOthers(schedule, t) && variant.ManyConsumers?
      modifies this
      ensures Later(t) && threads[t] == if won then ManyFree(oldHead, value) else DeqHead
      ensures won || |schedule| < old(|schedule|)
      ensures won ==> Since(journal, |old(journal.events)|, Took(Current(journal, t), value))
      ensures tries == old(tries) + 1
    {
      var next;
      oldHead, next, value := ManyLook(t);
      won := ManyUnlink(t, oldHead, next, value);
    }

    /** The removal loop: at most one pass more than the interference accounts for. */
    method ManyUnlinkLoop(t: Tid) returns (oldHead: Word, value: Value, attempts: nat)
      requires Sound() && t in threads && threads[t] == DeqHead && ByOthers(schedule, t) && variant.ManyConsumers?
      modifies this
      ensures Later(t) && threads[t] == ManyFree(oldHead, value)
      ensures attempts + |schedule| <= old(|schedule|) + 1
      ensures Since(journal, |old(journal.events)|, Took(Current(journal, t), value))
      ensures tries == old(tries) + attempts
    {
      attempts := 0;
      while true
        invariant Later(t) && threads[t] == DeqHead && tries == old(tries) + attempts
        invariant attempts + |schedule| <= old(|schedule|)
        decreases |schedule|
      {
        attempts := attempts + 1;
        var won;
        won, oldHead, value := ManyPass(t);
        if won {
          return;
        }
      }
    }

    /** The rest of `LockFreeQueue::Dequeue`, after its reservation. */
    method ManyRemove(t: Tid) returns (value: Value, attempts: nat)
      requires Sound() && t in threads && threads[t] == DeqHead && ByOthers(schedule, t) && variant.ManyConsumers?
      modifies this
      ensures Later(t) && attempts + |schedule| <= old(|schedule|) + 1 && threads[t] == Idle(Got(value))
      ensures Since(journal, |old(journal.events)|, Took(Current(journal, t), value))
      ensures tries == old(tries) + attempts
    {
      var oldHead;
      oldHead, value, attempts := ManyUnlinkLoop(t);
      ManyRelease(t, oldHead, value);
    }

    /** `LockFreeQueue::Dequeue` without its first step. */
    method ReserveAndRemove(t: Tid) returns (result: Option<Value>, attempts: nat)
      requires Sound() && t in threads && threads[t] == ManyCheck && ByOthers(schedule, t) && variant.ManyConsumers?
      modifies this
      ensures Later(t) && attempts + |schedule| <= old(|schedule|) + 1
      ensures threads[t] == match result case Some(v) => Idle(Got(v)) case None => Idle(Refused)
      ensures tries == old(tries) + attempts
    {
      var reserved := ReserveLoop(t);
      if !reserved {
        return None, 0;
      }
      var value;
      value, attempts := ManyRemove(t);
      return Some(value), attempts;
    }

    /** `LockFreeQueue::Dequeue`: once it has a reservation it always returns a value, the one its own
        event took off the front. */
    method ManyDequeue(t: Tid) returns (result: Option<Value>, attempts: nat)
      requires Sound() && t in threads && threads[t].Idle? && ByOthers(schedule, t) && variant.ManyConsumers?
      modifies this
      ensures Entered(t, TakeOp) && attempts + |schedule| <= old(|schedule|) + 1
      ensures threads[t] == match result case Some(v) => Idle(Got(v)) case None => Idle(Refused)
      ensures Finished(old(journal), journal, t, TakeOp, match result case Some(v) => Gave(v) case None => TurnedAway)
      ensures tries == old(tries) + attempts
    {
      BeginDequeuing(t);
      result, attempts := ReserveAndRemove(t);
      ReturnFinishes(old(journal), State(Now(), history, journal), t, TakeOp);
    }

    /** `GetSize`: the length of the queue but for the calls in flight; exact when there are none. */
    method GetSize() returns (n: int)
      requires Sound()
      ensures -0x8000_0000 <= n < 0x8000_0000
      ensures (n - (|Contents(history)| - |history.reserved| - |history.linked| + |history.removed|)) % 0x1_0000_0000 == 0
      ensures variant.ManyConsumers? && |Contents(history)| < TWO31 ==>
        n == |Contents(history)| - |history.reserved| - |history.linked|
      ensures variant.SingleConsumer? && |Contents(history)| < TWO31 - 1 && |history.linked| < TWO31 ==>
        n == |Contents(history)| - |history.linked| + |history.removed| && |history.removed| <= 1
      ensures forall t :: t in threads ==>
        && (t in history.linked <==> AccountOf(Now(), threads[t]).Owes?)
        && (t in history.reserved <==> AccountOf(Now(), threads[t]).Reserves?)
        && (t in history.removed <==> AccountOf(Now(), threads[t]).Overdraws?)
      ensures (forall t :: t in threads ==> threads[t].Idle?) && |Contents(history)| < TWO31 - 1 ==> n == |Contents(history)|
    {
      n := Signed32(count);
      assert Whole(State(Now(), history, journal));
      SizeMeans(Now(), history);
    }
  }
}
