/** `LockFreeStack` as the source writes it: shared fields updated in place by loops of reads and
    compare-exchanges, with other threads running between any two accesses. */
module StackObject {
  import opened Words
  import opened StackMachine
  import opened StackInvariant
  import opened StackSteps
  import opened Journals
  import opened StackJournal
  import opened StackTheorems

  /** Nothing in the schedule is an action of `t`. */
  predicate ByOthers(schedule: seq<Action>, t: Tid) {
    forall act :: act in schedule ==> ActorOf(act) != Some(t)
  }

  /** What an action of another thread leaves alone. */
  lemma OthersStep(m: Machine, h: History, j: Journal, act: Action, t: Tid)
    requires Enabled(m, act) && t in m.threads && ActorOf(act) != Some(t)
    ensures t in Step(m, act).threads && Step(m, act).threads[t] == m.threads[t]
    ensures CellFor(Record(m, h, act), t) == CellFor(h, t)
    ensures Continues(j, Write(m, j, act), t)
  {
    WriteContinues(m, j, act, t);
    if act.Run? {
      RunMovesOne(m, act.t);
      RecordMovesOne(m, h, act.t, t);
    }
  }

  /** What a Top CAS that wins adds to the events. */
  lemma WinningEvent(s: State, t: Tid)
    requires Good(s) && t in s.m.threads && InWindow(s.m, s.h, Run(t)) && WinsTop(s.m, Run(t))
    ensures WriteRun(s.m, s.j, t).events == s.j.events +
      [if s.m.threads[t].PushCas? then Put(Current(s.j, t), s.m.threads[t].value)
       else Took(Current(s.j, t), CellFor(s.h, t).value)]
  {
    assert t in Statuses(s.m, s.h) && ThreadFits(s.j, t, Statuses(s.m, s.h)[t]);
    if s.m.threads[t].PopCas? { TakenValue(s.m, s.h, t); }
    WriteAppends(s.m, s.j, t);
  }

  lemma PopCasKeepsCell(m: Machine, h: History, t: Tid)
    requires t in m.threads && m.threads[t].PopCas?
    ensures CellFor(RecordRun(m, h, t), t) == CellFor(h, t)
  {
  }

  /** A call that has begun and is over has answered what its thread got. */
  lemma ReturnFinishes(j: Journal, s: State, t: Tid, op: Op)
    requires Good(s) && t in s.m.threads && s.m.threads[t].Idle? && Begun(j, s.j, t, op)
    ensures Finished(j, s.j, t, op, ReplyOf(s.m.threads[t].result))
  {
    assert t in Statuses(s.m, s.h);
    RightIsFinished(j, s.j, Statuses(s.m, s.h), t, op, ReplyOf(s.m.threads[t].result));
  }

  class LockFreeStack {
    var top: Word
    var index: nat
    var count: nat
    var heap: map<Addr, Node>       // the nodes of the pool
    var free: set<Addr>             // those it can hand out
    var threads: map<Tid, Local>    // where every thread is
    var schedule: seq<Action>       // what the other threads are still going to do
    ghost var history: History
    ghost var journal: Journal
    ghost var tries: nat            // compare-exchanges of the running calls' loops so far
    ghost var windowHeld: bool      // whether every Pop CAS so far fell inside the tag window

    /** `LockFreeStack()`: an empty stack over the nodes of the pool, all threads outside. */
    constructor (heap: map<Addr, Node>, tids: set<Tid>, schedule: seq<Action>)
      requires NULL !in heap
      ensures Init(Now()) && windowHeld && Sound() && Contents(history) == [] && journal == BLANK
      ensures this.heap == heap && this.threads.Keys == tids && this.schedule == schedule
    {
      top, index, count := ZERO, 0, 0;
      this.heap, free := heap, heap.Keys;
      threads := map t | t in tids :: Idle(Stored);
      this.schedule := schedule;
      new;
      history, journal, windowHeld := Start(Now()), BLANK, true;
      BeginGood(Now());
    }

    function Now(): Machine
      reads this
    {
      Machine(top, index, count, heap, free, threads)
    }

    ghost predicate Sound()
      reads this
    {
      windowHeld ==> Good(State(Now(), history, journal))
    }

    /** The fields after one action of the machine. */
    method Take(act: Action)
      requires Sound() && Enabled(Now(), act)
      modifies this
      ensures Sound() && Now() == Step(old(Now()), act) && schedule == old(schedule)
      ensures history == Record(old(Now()), old(history), act) && journal == Write(old(Now()), old(journal), act)
      ensures windowHeld == (old(windowHeld) && InWindow(old(Now()), old(history), act))
      ensures tries == old(tries)
    {
      var m := Step(Now(), act);
      ghost var before := Now();
      top, index, count, heap, free, threads := m.top, m.index, m.count, m.heap, m.free, m.threads;
      Note(before, act);
    }

    /** The bookkeeping of a statement that has already changed the fields. */
    ghost method Note(before: Machine, act: Action)
      requires Enabled(before, act) && Now() == Step(before, act)
      requires windowHeld ==> Good(State(before, history, journal))
      modifies `history, `journal, `windowHeld
      ensures Sound()
      ensures history == Record(before, old(history), act) && journal == Write(before, old(journal), act)
      ensures windowHeld == (old(windowHeld) && InWindow(before, old(history), act))
      ensures act.Run? ==> Continues(old(journal), journal, act.t)
    {
      if act.Run? { WriteContinues(before, journal, act, act.t); }
      if windowHeld && InWindow(before, history, act) { StepKeepsGood(State(before, history, journal), act); }
      windowHeld := windowHeld && InWindow(before, history, act);
      history, journal := Record(before, history, act), Write(before, journal, act);
    }

    /** What every piece of a call by `t` keeps: the invariant, the call, the others' schedule. */
    twostate predicate Later(t: Tid)
      reads this
    {
      && Sound() && t in threads && ByOthers(schedule, t)
      && |schedule| <= old(|schedule|)
      && Continues(old(journal), journal, t)
      && (windowHeld ==> old(windowHeld))
    }

    /** What the first piece of a call by `t` does. */
    twostate predicate Entered(t: Tid, op: Op)
      reads this
    {
      && Sound() && t in threads && ByOthers(schedule, t)
      && |schedule| <= old(|schedule|)
      && Begun(old(journal), journal, t, op)
      && (windowHeld ==> old(windowHeld))
    }

    /** Other threads take any number of their steps. */
    method Interfere(t: Tid)
      requires Sound() && t in threads && ByOthers(schedule, t)
      modifies this
      ensures Later(t) && threads[t] == old(threads[t])
      ensures top != old(top) || count != old(count) ==> |schedule| < old(|schedule|)
      ensures CellFor(history, t) == old(CellFor(history, t))
      ensures tries == old(tries)
    {
      var steps: nat :| steps <= |schedule|;
      for i := 0 to steps
        invariant Later(t) && threads[t] == old(threads[t]) && tries == old(tries)
        invariant |schedule| + i == old(|schedule|)
        invariant i == 0 ==> top == old(top) && count == old(count)
        invariant CellFor(history, t) == old(CellFor(history, t))
      {
        var act := schedule[0];
        schedule := schedule[1..];
        if Enabled(Now(), act) {
          OthersStep(Now(), history, journal, act, t);
          Take(act);
        }
      }
    }

    // ---------- Push ----------

    /** `Alloc`, and the start of the call. */
    method Alloc(t: Tid, value: Value) returns (newNode: Addr)
      requires Sound() && t in threads && threads[t].Idle? && ByOthers(schedule, t) && free != {}
      modifies this
      ensures Entered(t, PutOp(value)) && threads[t] == PushData(newNode, value)
      ensures tries == old(tries)
    {
      newNode :| newNode in free;
      ghost var before := Now();
      free := free - {newNode};
      threads := threads[t := PushData(newNode, value)];
      Note(before, BeginPush(t, value, newNode));
      Interfere(t);
    }

    /** `newNode->data = value` */
    method WriteData(t: Tid, newNode: Addr, value: Value)
      requires Sound() && t in threads && threads[t] == PushData(newNode, value) && ByOthers(schedule, t)
      modifies this
      ensures Later(t) && threads[t] == PushTag(newNode, value)
      ensures tries == old(tries)
    {
      ghost var before := Now();
      heap := heap[newNode := Load(Now(), newNode).(data := value)];
      threads := threads[t := PushTag(newNode, value)];
      Note(before, Run(t));
      Interfere(t);
    }

    /** `InterlockedIncrement(&index) & 0x1FFFF`, and the word made of it */
    method TakeTag(t: Tid, newNode: Addr, value: Value) returns (newTop: Word)
      requires Sound() && t in threads && threads[t] == PushTag(newNode, value) && ByOthers(schedule, t)
      modifies this
      ensures Later(t) && threads[t] == PushRead(newNode, value, newTop)
      ensures tries == old(tries)
    {
      ghost var before := Now();
      index := (index + 1) % TWO32;
      newTop := Word(Tag(index), newNode);
      threads := threads[t := PushRead(newNode, value, newTop)];
      Note(before, Run(t));
      Interfere(t);
    }

    /** `oldTop.raw = Top.raw` */
    method ReadTop(t: Tid, newNode: Addr, value: Value, newTop: Word) returns (oldTop: Word)
      requires Sound() && t in threads && threads[t] == PushRead(newNode, value, newTop) && ByOthers(schedule, t)
      modifies this
      ensures Later(t) && threads[t] == PushLink(newNode, value, newTop, oldTop)
      ensures top != oldTop ==> |schedule| < old(|schedule|)
      ensures tries == old(tries)
    {
      ghost var before := Now();
      oldTop := top;
      threads := threads[t := PushLink(newNode, value, newTop, oldTop)];
      Note(before, Run(t));
      Interfere(t);
    }

    /** `newNode->next.raw = oldTop.raw` */
    method StoreNext(t: Tid, newNode: Addr, value: Value, newTop: Word, oldTop: Word)
      requires Sound() && t in threads && threads[t] == PushLink(newNode, value, newTop, oldTop) && ByOthers(schedule, t)
      modifies this
      ensures Later(t) && threads[t] == PushCas(newNode, value, newTop, oldTop)
      ensures top != oldTop ==> old(top) != oldTop || |schedule| < old(|schedule|)
      ensures tries == old(tries)
    {
      ghost var before := Now();
      heap := heap[newNode := Load(Now(), newNode).(next := oldTop)];
      threads := threads[t := PushCas(newNode, value, newTop, oldTop)];
      Note(before, Run(t));
      Interfere(t);
    }

    /** The atomic part of LinkTop. */
    method LinkTopAtOnce(t: Tid, newNode: Addr, value: Value, newTop: Word, oldTop: Word) returns (won: bool)
      requires Sound() && t in threads && threads[t] == PushCas(newNode, value, newTop, oldTop) && ByOthers(schedule, t)
      modifies this
      ensures Later(t) && schedule == old(schedule) && won == (old(top) == oldTop)
      ensures threads[t] == if won then PushCount else PushRead(newNode, value, newTop)
      ensures won && windowHeld ==> journal.events == old(journal.events) + [Put(Current(journal, t), value)]
      ensures tries == old(tries) + 1
    {
      ghost var before := Now();
      won := top == oldTop;
      if windowHeld && won { WinningEvent(State(before, history, journal), t); }
      if won { top := newTop; }
      threads := threads[t := if won then PushCount else PushRead(newNode, value, newTop)];
      tries := tries + 1;
      Note(before, Run(t));
    }

    /** `InterlockedCompareExchange64(&Top.raw, newTop.raw, oldTop.raw)` in Push. If it wins, the next
        event is this call's push; the others may run before count is raised. */
    method LinkTop(t: Tid, newNode: Addr, value: Value, newTop: Word, oldTop: Word) returns (won: bool)
      requires Sound() && t in threads && threads[t] == PushCas(newNode, value, newTop, oldTop) && ByOthers(schedule, t)
      modifies this
      ensures Later(t) && won == (old(top) == oldTop)
      ensures threads[t] == if won then PushCount else PushRead(newNode, value, newTop)
      ensures won && windowHeld ==>
        |old(journal.events)| < |journal.events| && journal.events[|old(journal.events)|] == Put(Current(journal, t), value)
      ensures tries == old(tries) + 1
    {
      won := LinkTopAtOnce(t, newNode, value, newTop, oldTop);
      Interfere(t);
    }

    /** `InterlockedIncrement(&count)` */
    method CountUp(t: Tid)
      requires Sound() && t in threads && threads[t] == PushCount && ByOthers(schedule, t)
      modifies this
      ensures Later(t) && threads[t] == Idle(Stored)
      ensures tries == old(tries)
    {
      ghost var before := Now();
      count := (count + 1) % TWO32;
      threads := threads[t := Idle(Stored)];
      Note(before, Run(t));
      Interfere(t);
    }

    /** One pass of the loop of Push; a lost pass was interfered with. */
    method LinkPass(t: Tid, newNode: Addr, value: Value, newTop: Word) returns (won: bool)
      requires Sound() && t in threads && threads[t] == PushRead(newNode, value, newTop) && ByOthers(schedule, t)
      modifies this
      ensures Later(t) && threads[t] == if won then PushCount else PushRead(newNode, value, newTop)
      ensures won || |schedule| < old(|schedule|)
      ensures won && windowHeld ==> Since(journal, |old(journal.events)|, Put(Current(journal, t), value))
      ensures tries == old(tries) + 1
    {
      var oldTop := ReadTop(t, newNode, value, newTop);
      StoreNext(t, newNode, value, newTop, oldTop);
      won := LinkTop(t, newNode, value, newTop, oldTop);
    }

    /** The loop of Push, up to the Top CAS that succeeds. */
    method LinkLoop(t: Tid, newNode: Addr, value: Value, newTop: Word) returns (attempts: nat)
      requires Sound() && t in threads && threads[t] == PushRead(newNode, value, newTop) && ByOthers(schedule, t)
      modifies this
      ensures Later(t) && threads[t] == PushCount
      ensures attempts + |schedule| <= old(|schedule|) + 1
      ensures windowHeld ==> Since(journal, |old(journal.events)|, Put(Current(journal, t), value))
      ensures tries == old(tries) + attempts
    {
      attempts := 0;
      while true
        invariant Later(t) && threads[t] == PushRead(newNode, value, newTop) && tries == old(tries) + attempts
        invariant attempts + |schedule| <= old(|schedule|)
        decreases |schedule|
      {
        attempts := attempts + 1;
        var won := LinkPass(t, newNode, value, newTop);
        if won {
          return;
        }
      }
    }

    /** The start of Push: a node from the pool, with its value and its tag. */
    method PrepareNode(t: Tid, value: Value) returns (newNode: Addr, newTop: Word)
      requires Sound() && t in threads && threads[t].Idle? && ByOthers(schedule, t) && free != {}
      modifies this
      ensures Entered(t, PutOp(value)) && threads[t] == PushRead(newNode, value, newTop)
      ensures tries == old(tries)
    {
      newNode := Alloc(t, value);
      WriteData(t, newNode, value);
      newTop := TakeTag(t, newNode, value);
    }

    /** Push returns, and in between its call has one event of its own that pushes this value; it
        needs at most one try of the Top CAS more than the interference accounts for. */
    method Push(t: Tid, value: Value) returns (attempts: nat)
      requires Sound() && t in threads && threads[t].Idle? && ByOthers(schedule, t) && free != {}
      modifies this
      ensures Entered(t, PutOp(value)) && threads[t] == Idle(Stored)
      ensures attempts + |schedule| <= old(|schedule|) + 1
      ensures windowHeld ==> Finished(old(journal), journal, t, PutOp(value), Done)
      ensures tries == old(tries) + attempts
    {
      var newNode, newTop := PrepareNode(t, value);
      attempts := LinkLoop(t, newNode, value, newTop);
      CountUp(t);
      if windowHeld { ReturnFinishes(old(journal), State(Now(), history, journal), t, PutOp(value)); }
    }

    // ---------- Pop ----------

    method BeginPopping(t: Tid)
      requires Sound() && t in threads && threads[t].Idle? && ByOthers(schedule, t)
      modifies this
      ensures Entered(t, TakeOp) && threads[t] == PopCheck
      ensures tries == old(tries)
    {
      ghost var before := Now();
      threads := threads[t := PopCheck];
      Note(before, BeginPop(t));
      Interfere(t);
    }

    /** `oldCount = count; if (oldCount <= 0) return 0;` */
    method ReadCount(t: Tid) returns (oldCount: int)
      requires Sound() && t in threads && threads[t] == PopCheck && ByOthers(schedule, t)
      modifies this
      ensures oldCount == old(Signed32(count))
      ensures Later(t) && threads[t] == if oldCount <= 0 then Idle(NoCount) else PopReserve(oldCount)
      ensures old(windowHeld) ==> (oldCount <= 0 <==> old(AllSpokenFor(history)))
      ensures Signed32(count) != oldCount ==> |schedule| < old(|schedule|)
      ensures tries == old(tries)
    {
      ghost var before := Now();
      if windowHeld { NoCountMeansAllSpokenFor(before, history, t); }
      oldCount := Signed32(count);
      threads := threads[t := if oldCount <= 0 then Idle(NoCount) else PopReserve(oldCount)];
      Note(before, Run(t));
      Interfere(t);
    }

    /** `InterlockedCompareExchange(&count, oldCount - 1, oldCount)` */
    method ReserveCount(t: Tid, oldCount: int) returns (won: bool)
      requires Sound() && t in threads && threads[t] == PopReserve(oldCount) && ByOthers(schedule, t)
      modifies this
      ensures Later(t) && won == (old(Signed32(count)) == oldCount)
      ensures threads[t] == if won then PopTop else PopCheck
      ensures tries == old(tries)
    {
      ghost var before := Now();
      won := Signed32(count) == oldCount;
      if won { count := (oldCount - 1) % TWO32; }
      threads := threads[t := if won then PopTop else PopCheck];
      Note(before, Run(t));
      Interfere(t);
    }

    /** `top.raw = Top.raw; if (top.part.address == 0) return 0;` With a reservation Top is not null. */
    method SeeTop(t: Tid) returns (w: Word)
      requires Sound() && t in threads && threads[t] == PopTop && ByOthers(schedule, t)
      modifies this
      ensures Later(t) && threads[t] == if w.addr == NULL then Idle(NoTop) else PopNext(w)
      ensures w.addr == NULL ==> !windowHeld
      ensures top != w ==> |schedule| < old(|schedule|)
      ensures tries == old(tries)
    {
      ghost var before := Now();
      if windowHeld { ReservedPopFindsTop(before, history, t); }
      w := top;
      threads := threads[t := if w.addr == NULL then Idle(NoTop) else PopNext(w)];
      Note(before, Run(t));
      Interfere(t);
    }

    /** `newTop.raw = delNode->next.raw` */
    method ReadNext(t: Tid, w: Word) returns (next: Word)
      requires Sound() && t in threads && threads[t] == PopNext(w) && ByOthers(schedule, t)
      modifies this
      ensures Later(t) && threads[t] == PopCas(w, next)
      ensures top != w ==> old(top) != w || |schedule| < old(|schedule|)
      ensures tries == old(tries)
    {
      ghost var before := Now();
      next := Load(Now(), w.addr).next;
      threads := threads[t := PopCas(w, next)];
      Note(before, Run(t));
      Interfere(t);
    }

    /** The atomic part of RemoveTop. */
    method RemoveTopAtOnce(t: Tid, w: Word, next: Word) returns (won: bool)
      requires Sound() && t in threads && threads[t] == PopCas(w, next) && ByOthers(schedule, t)
      modifies this
      ensures Later(t) && schedule == old(schedule) && won == (old(top) == w)
      ensures CellFor(history, t) == old(CellFor(history, t))
      ensures threads[t] == if won then PopData(w.addr) else PopTop
      ensures won && windowHeld ==>
        journal.events == old(journal.events) + [Took(Current(journal, t), CellFor(history, t).value)]
      ensures tries == old(tries) + 1
    {
      ghost var before := Now();
      PopCasKeepsCell(before, history, t);
      won := top == w;
      if windowHeld && won && InWindow(before, history, Run(t)) { WinningEvent(State(before, history, journal), t); }
      if won { top := next; }
      threads := threads[t := if won then PopData(w.addr) else PopTop];
      tries := tries + 1;
      Note(before, Run(t));
    }

    /** `InterlockedCompareExchange64(&Top.raw, newTop.raw, top.raw)` in Pop. If it wins, the next event
        is this call's removal of the node it read; the others may run before its value is read. */
    method RemoveTop(t: Tid, w: Word, next: Word) returns (won: bool)
      requires Sound() && t in threads && threads[t] == PopCas(w, next) && ByOthers(schedule, t)
      modifies this
      ensures Later(t) && won == (old(top) == w)
      ensures threads[t] == if won then PopData(w.addr) else PopTop
      ensures won && windowHeld ==>
        && |old(journal.events)| < |journal.events|
        && journal.events[|old(journal.events)|] == Took(Current(journal, t), CellFor(history, t).value)
      ensures tries == old(tries) + 1
    {
      won := RemoveTopAtOnce(t, w, next);
      Interfere(t);
    }

    /** `data = delNode->data` */
    method ReadData(t: Tid, delNode: Addr) returns (data: Value)
      requires Sound() && t in threads && threads[t] == PopData(delNode) && ByOthers(schedule, t)
      modifies this
      ensures Later(t) && threads[t] == PopFree(delNode, data)
      ensures CellFor(history, t) == old(CellFor(history, t))
      ensures windowHeld ==> data == CellFor(history, t).value
      ensures tries == old(tries)
    {
      ghost var before := Now();
      if windowHeld { assert LocalOk(before, history, t); }
      data := Load(Now(), delNode).data;
      threads := threads[t := PopFree(delNode, data)];
      Note(before, Run(t));
      Interfere(t);
    }

    /** `Free(delNode)`, and the return */
    method Release(t: Tid, delNode: Addr, data: Value)
      requires Sound() && t in threads && threads[t] == PopFree(delNode, data) && ByOthers(schedule, t)
      modifies this
      ensures Later(t) && threads[t] == Idle(Popped(data))
      ensures tries == old(tries)
    {
      ghost var before := Now();
      free := free + {delNode};
      threads := threads[t := Idle(Popped(data))];
      Note(before, Run(t));
      Interfere(t);
    }

    /** The reservation loop of Pop. */
    method ReserveLoop(t: Tid) returns (reserved: bool)
      requires Sound() && t in threads && threads[t] == PopCheck && ByOthers(schedule, t)
      modifies this
      ensures Later(t) && threads[t] == if reserved then PopTop else Idle(NoCount)
      ensures tries == old(tries)
    {
      reserved := false;
      while !reserved
        invariant Later(t) && (threads[t] == if reserved then PopTop else PopCheck) && tries == old(tries)
        decreases !reserved, |schedule|
      {
        var oldCount := ReadCount(t);
        if oldCount <= 0 {
          return false;
        }
        reserved := ReserveCount(t, oldCount);
      }
    }

    /** One pass of the removal loop; a pass that saw a node and lost was interfered with. */
    method RemovePass(t: Tid) returns (w: Word, won: bool)
      requires Sound() && t in threads && threads[t] == PopTop && ByOthers(schedule, t)
      modifies this
      ensures Later(t) && (w.addr == NULL ==> !won && !windowHeld)
      ensures threads[t] == if won then PopData(w.addr) else if w.addr == NULL then Idle(NoTop) else PopTop
      ensures won || w.addr == NULL || |schedule| < old(|schedule|)
      ensures won && windowHeld ==>
        Since(journal, |old(journal.events)|, Took(Current(journal, t), CellFor(history, t).value))
      ensures tries == old(tries) + (if w.addr == NULL then 0 else 1)
    {
      w := SeeTop(t);
      if w.addr == NULL {
        return w, false;
      }
      var next := ReadNext(t, w);
      won := RemoveTop(t, w, next);
    }

    /** The removal loop of Pop, up to the Top CAS that succeeds. */
    method RemoveLoop(t: Tid) returns (delNode: Addr, attempts: nat)
      requires Sound() && t in threads && threads[t] == PopTop && ByOthers(schedule, t)
      modifies this
      ensures Later(t)
      ensures threads[t] == (if delNode == NULL then Idle(NoTop) else PopData(delNode)) && attempts > 0
      ensures attempts + |schedule| <= old(|schedule|) + 1
      ensures windowHeld ==> delNode != NULL
      ensures windowHeld ==>
        Since(journal, |old(journal.events)|, Took(Current(journal, t), CellFor(history, t).value))
      ensures tries == old(tries) + attempts - (if delNode == NULL then 1 else 0)
    {
      attempts := 0;
      while true
        invariant Later(t) && threads[t] == PopTop && tries == old(tries) + attempts
        invariant attempts + |schedule| <= old(|schedule|)
        decreases |schedule|
      {
        attempts := attempts + 1;
        var w, won := RemovePass(t);
        if won || w.addr == NULL {
          return w.addr, attempts;
        }
      }
    }

    /** The end of Pop: read the value of the removed node and give the node back. */
    method TakeAway(t: Tid, delNode: Addr) returns (data: Value)
      requires Sound() && t in threads && threads[t] == PopData(delNode) && ByOthers(schedule, t)
      modifies this
      ensures Later(t) && threads[t] == Idle(Popped(data))
      ensures windowHeld ==> data == old(CellFor(history, t)).value
      ensures tries == old(tries)
    {
      data := ReadData(t, delNode);
      Release(t, delNode, data);
    }

    /** The rest of Pop, after its reservation. */
    method Remove(t: Tid) returns (result: Option<Value>, attempts: nat)
      requires Sound() && t in threads && threads[t] == PopTop && ByOthers(schedule, t)
      modifies this
      ensures Later(t) && attempts + |schedule| <= old(|schedule|) + 1
      ensures threads[t] == match result case Some(v) => Idle(Popped(v)) case None => Idle(NoTop)
      ensures windowHeld ==>
        result.Some? && Since(journal, |old(journal.events)|, Took(Current(journal, t), result.value))
      ensures tries == old(tries) + attempts - (if result.None? then 1 else 0)
    {
      var delNode;
      delNode, attempts := RemoveLoop(t);
      if delNode == NULL {
        return None, attempts;
      }
      var data := TakeAway(t, delNode);
      return Some(data), attempts;
    }

    /** Pop without its first step: either finds no count, or reserves and removes. */
    method ReserveAndRemove(t: Tid) returns (result: Option<Value>, attempts: nat)
      requires Sound() && t in threads && threads[t] == PopCheck && ByOthers(schedule, t)
      modifies this
      ensures Later(t) && attempts + |schedule| <= old(|schedule|) + 1
      ensures result.Some? ==> threads[t] == Idle(Popped(result.value))
      ensures result.None? ==> threads[t] == Idle(NoCount) || (threads[t] == Idle(NoTop) && !windowHeld)
      ensures result.Some? ==> tries == old(tries) + attempts
    {
      var reserved := ReserveLoop(t);
      if !reserved {
        return None, 0;
      }
      result, attempts := Remove(t);
    }

    /** Pop either finds no count, or returns the value that its call took off the top by one event
        of its own; it needs at most one try of the Top CAS more than the interference accounts for. */
    method Pop(t: Tid) returns (result: Option<Value>, attempts: nat)
      requires Sound() && t in threads && threads[t].Idle? && ByOthers(schedule, t)
      modifies this
      ensures Entered(t, TakeOp)
      ensures attempts + |schedule| <= old(|schedule|) + 1
      ensures result.Some? ==> threads[t] == Idle(Popped(result.value))
      ensures result.None? ==> threads[t] == Idle(NoCount) || (threads[t] == Idle(NoTop) && !windowHeld)
      ensures windowHeld ==>
        Finished(old(journal), journal, t, TakeOp, match result case Some(v) => Gave(v) case None => TurnedAway)
      ensures result.Some? ==> tries == old(tries) + attempts
    {
      BeginPopping(t);
      result, attempts := ReserveAndRemove(t);
      if windowHeld { ReturnFinishes(old(journal), State(Now(), history, journal), t, TakeOp); }
    }

    /** `GetSize`: the number of elements but for the calls in flight; exact when there are none. */
    method GetSize() returns (n: int)
      requires Sound()
      ensures -0x8000_0000 <= n < 0x8000_0000 || !windowHeld
      ensures windowHeld ==> (n - (|Contents(history)| - |history.reserved| - |history.linked|)) % 0x1_0000_0000 == 0
      ensures windowHeld && |history.chain| < TWO31 ==>
        n == |Contents(history)| - |history.reserved| - |history.linked|
      ensures windowHeld ==> forall t :: t in threads ==>
        (t in history.reserved <==> PhaseOf(threads[t]).Reserves?) && (t in history.linked <==> PhaseOf(threads[t]).Linked?)
      ensures windowHeld && |history.chain| < TWO31 && (forall t :: t in threads ==> threads[t].Idle?) ==>
        n == |Contents(history)|
    {
      n := Signed32(count);
      if windowHeld {
        CountAccounts(Now(), history);
        SignedOfWrapped(Available(history));
        if |history.chain| < TWO31 && (forall t :: t in threads ==> threads[t].Idle?) { QuietSize(Now(), history); }
      }
    }
  }
}
