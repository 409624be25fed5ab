/** The journal of the queues: what their callers see, written from what the machine does. */
module QueueJournal {
  import opened Words
  import opened QueueMachine
  import opened QueueInvariant
  import opened QueueSteps
  import opened QueueGuard
  import opened Journals

  function ReplyOf(r: Result): Reply {
    match r
    case Ready => Done
    case Enqueued => Done
    case Empty => FoundEmpty
    case Refused => TurnedAway
    case Got(v) => Gave(v)
  }

  /** The event of a step: a Put at a link CAS that wins; a Took at a head CAS that wins, of the value
      copied before it, or for the one consumer of the value in the node head moves to; a SawEmpty
      where the one consumer reads a null successor. */
  function EventOf(m: Machine, t: Tid, call: nat): Option<Event>
    requires t in m.threads
  {
    match m.threads[t]
    case EnqLink(_, v, _, _, _) => if LinksNow(m, t) then Some(Put(call, v)) else None
    case SoloCas(oldHead, next) => if m.head == oldHead then Some(Took(call, Load(m, next.addr).data)) else None
    case ManyCas(oldHead, _, v) => if m.head == oldHead then Some(Took(call, v)) else None
    case DeqNext(oldHead) =>
      if m.variant.SingleConsumer? && Load(m, oldHead.addr).next.addr == NULL then Some(SawEmpty(call)) else None
    case _ => None
  }

  function Recorded(m: Machine, j: Journal, t: Tid): Journal
    requires t in m.threads
  {
    var e := EventOf(m, t, Current(j, t));
    if e.Some? then Mark(j, t, e.value) else j
  }

  function Returned(j: Journal, t: Tid, l: Local): Journal {
    if l.Idle? then Close(j, t, ReplyOf(l.result)) else j
  }

  /** How the journal grows when `act` is taken in `m`. */
  function Write(m: Machine, j: Journal, act: Action): Journal
    requires Callable(m, act)
  {
    match act
    case BeginEnqueue(t, v, _) => Open(j, t, PutOp(v))
    case BeginDequeue(t) => Open(j, t, TakeOp)
    case Recycle(_, _) => j
    case Run(t) => Returned(Recorded(m, j, t), t, LocalAfter(m, t))
  }

  function LocalAfter(m: Machine, t: Tid): Local
    requires t in m.threads
  {
    var m' := if Enqueuing(m.threads[t]) then EnqueueStep(m, t) else DequeueStep(m, t);
    if t in m'.threads then m'.threads[t] else m.threads[t]
  }

  // ---------- the journal is right ----------

  /** The value of the node after the one `t` is looking at. */
  function NextValue(h: History, t: Tid): Value {
    if Seen(h, t) + 1 < |h.chain| then h.chain[Seen(h, t) + 1].value else 0
  }

  function StatusOf(l: Local, taken: Value): Status {
    if l.Idle? then Away(ReplyOf(l.result))
    else if NodeOf(l).Some? then Putting(ValueOf(l))
    else if l.EnqSwing? || l.EnqCount? then HasPut
    else if l.SoloData? then HasTaken(taken)
    else if l.SoloDelete? || l.SoloCount? || l.ManyFree? then HasTaken(l.value)
    else Taking
  }

  function ValueOf(l: Local): Value
    requires NodeOf(l).Some?
  {
    match l
    case EnqData(_, v) => v
    case EnqNull(_, v) => v
    case EnqTag(_, v) => v
    case EnqTail(_, v, _) => v
    case EnqNext(_, v, _, _) => v
    case EnqLink(_, v, _, _, _) => v
    case EnqHelp(_, v, _, _, _) => v
  }

  function Statuses(m: Machine, h: History): map<Tid, Status> {
    map t | t in m.threads :: StatusOf(m.threads[t], NextValue(h, t))
  }

  ghost predicate JournalOk(m: Machine, h: History, j: Journal) {
    Right(j, Statuses(m, h))
  }

  /** What another thread has seen keeps its value. */
  lemma OthersValue(m: Machine, h: History, act: Action, t: Tid)
    requires Inv(m, h) && Enabled(m, act) && t in m.threads && !ActsFor(act, t)
    ensures t in Step(m, act).threads
    ensures StatusOf(Step(m, act).threads[t], NextValue(Record(m, h, act), t)) == StatusOf(m.threads[t], NextValue(h, t))
  {
    OthersLeaveView(m, h, act, t);
    assert LocalOk(m, h, t);
    StepGrows(m, h, act);
  }

  /** A step adds to the chain exactly when it links, moves head exactly when it unlinks. */
  lemma StepGrows(m: Machine, h: History, act: Action)
    requires Callable(m, act)
    ensures Grows(h, Record(m, h, act), act.Run? && LinksNow(m, act.t), act.Run? && UnlinksNow(m, act.t))
  {
    if act.Run? {
      if Enqueuing(m.threads[act.t]) { EnqueueGrows(m, h, act.t); } else { DequeueGrows(m, h, act.t); }
    }
  }

  lemma ThreadsStay(m: Machine, act: Action)
    requires Callable(m, act)
    ensures Step(m, act).threads.Keys == m.threads.Keys
  {
    if act.Run? {
      if Enqueuing(m.threads[act.t]) { EnqueueMovesThread(m, act.t); } else { DequeueMovesThread(m, act.t); }
    }
  }

  /** An action changes the status of its own thread only. */
  lemma StatusChanges(m: Machine, h: History, act: Action, s: Status)
    requires Inv(m, h) && Enabled(m, act) && !act.Recycle?
    requires act.t in Step(m, act).threads
    requires s == StatusOf(Step(m, act).threads[act.t], NextValue(Record(m, h, act), act.t))
    ensures Statuses(Step(m, act), Record(m, h, act)) == Statuses(m, h)[act.t := s]
  {
    ThreadsStay(m, act);
    forall u | u in m.threads && u != act.t
      ensures StatusOf(Step(m, act).threads[u], NextValue(Record(m, h, act), u)) == StatusOf(m.threads[u], NextValue(h, u))
    {
      OthersValue(m, h, act, u);
    }
  }

  /** The status just after an event. */
  function Past(s: Status, e: Option<Event>): Status {
    match e
    case None => s
    case Some(Put(_, _)) => HasPut
    case Some(Took(_, v)) => HasTaken(v)
    case Some(SawEmpty(_)) => HasSeenNone
  }

  /** The status a thread reaches by its step, through the event of the step if there is one. */
  ghost predicate Reaches(m: Machine, t: Tid, call: nat, s: Status, s': Status)
    requires t in m.threads
  {
    var e, l' := EventOf(m, t, call), LocalAfter(m, t);
    var mid := Past(s, e);
    && (e.Some? ==> e.value.call == call && Moves(s, e.value, mid))
    && (if l'.Idle? then Allows(mid, ReplyOf(l'.result)) && s' == Away(ReplyOf(l'.result)) else s' == mid)
  }

  lemma RunKeepsJournal(m: Machine, h: History, j: Journal, t: Tid, s': Status)
    requires Inv(m, h) && JournalOk(m, h, j) && Enabled(m, Run(t))
    requires t in Step(m, Run(t)).threads
    requires s' == StatusOf(Step(m, Run(t)).threads[t], NextValue(Record(m, h, Run(t)), t))
    requires Reaches(m, t, Current(j, t), StatusOf(m.threads[t], NextValue(h, t)), s')
    ensures JournalOk(Step(m, Run(t)), Record(m, h, Run(t)), Write(m, j, Run(t)))
  {
    var st, e, l' := Statuses(m, h), EventOf(m, t, Current(j, t)), LocalAfter(m, t);
    var mid := Past(st[t], e);
    StatusChanges(m, h, Run(t), s');
    if e.Some? { MarkKeeps(j, st, t, e.value, mid); } else { assert st[t := mid] == st; }
    if l'.Idle? {
      CloseKeeps(Recorded(m, j, t), st[t := mid], t, ReplyOf(l'.result));
      assert st[t := mid][t := s'] == st[t := s'];
    }
  }

  lemma EnqueueReaches(m: Machine, h: History, t: Tid, call: nat)
    requires Inv(m, h) && t in m.threads && Enqueuing(m.threads[t])
    ensures t in EnqueueStep(m, t).threads
    ensures Reaches(m, t, call, StatusOf(m.threads[t], NextValue(h, t)),
                    StatusOf(EnqueueStep(m, t).threads[t], NextValue(RecordEnqueue(m, h, t), t)))
  {
  }

  lemma UnlinkReaches(m: Machine, h: History, t: Tid, call: nat)
    requires Inv(m, h) && UnlinksNow(m, t) && CasInReach(m, h, Run(t))
    ensures t in DequeueStep(m, t).threads
    ensures Reaches(m, t, call, StatusOf(m.threads[t], NextValue(h, t)),
                    StatusOf(DequeueStep(m, t).threads[t], NextValue(RecordDequeue(m, h, t), t)))
  {
    UnlinkedValue(m, h, t);
    UnlinkRecords(m, h, t);
    assert NextValue(RecordDequeue(m, h, t), t) == NextValue(h, t);
    TakingReaches(m, t, call, NextValue(h, t));
  }

  /** A winning head CAS, seen from the machine alone. */
  lemma TakingReaches(m: Machine, t: Tid, call: nat, v: Value)
    requires UnlinksNow(m, t) && Load(m, m.threads[t].next.addr).data == v
    requires m.threads[t].ManyCas? ==> m.threads[t].value == v
    ensures t in DequeueStep(m, t).threads
    ensures Reaches(m, t, call, StatusOf(m.threads[t], v), StatusOf(DequeueStep(m, t).threads[t], v))
  {
    UnlinkGoes(m, t);
    EventKind(m, t, call);
  }

  lemma UnlinkGoes(m: Machine, t: Tid)
    requires UnlinksNow(m, t)
    ensures t in DequeueStep(m, t).threads && LocalAfter(m, t) == DequeueStep(m, t).threads[t]
    ensures var l := m.threads[t];
      DequeueStep(m, t).threads[t] == if l.SoloCas? then SoloData(l.oldHead, l.next) else ManyFree(l.oldHead, l.value)
  {
  }

  /** The value in the node that becomes the new dummy, copied or not, is the one that was put. */
  lemma UnlinkedValue(m: Machine, h: History, t: Tid)
    requires Inv(m, h) && UnlinksNow(m, t) && CasInReach(m, h, Run(t))
    ensures h.headPos + 1 < |h.chain| && NextValue(h, t) == h.chain[h.headPos + 1].value
    ensures Load(m, m.threads[t].next.addr).data == NextValue(h, t)
    ensures m.threads[t].ManyCas? ==> m.threads[t].value == NextValue(h, t)
  {
    UnlinkIsAtHead(m, h, t);
    assert PosOk(m, h, h.headPos + 1);
    SuccessorInMemory(m, h, h.headPos + 1);
  }

  lemma EmptyReaches(m: Machine, h: History, t: Tid, call: nat)
    requires Inv(m, h) && t in m.threads && m.threads[t].DeqNext?
    ensures t in DequeueStep(m, t).threads
    ensures Reaches(m, t, call, StatusOf(m.threads[t], NextValue(h, t)),
                    StatusOf(DequeueStep(m, t).threads[t], NextValue(RecordDequeue(m, h, t), t)))
  {
  }

  lemma DequeueReaches(m: Machine, h: History, t: Tid, call: nat)
    requires Inv(m, h) && t in m.threads && !Enqueuing(m.threads[t]) && !m.threads[t].Idle? && CasInReach(m, h, Run(t))
    ensures t in DequeueStep(m, t).threads
    ensures Reaches(m, t, call, StatusOf(m.threads[t], NextValue(h, t)),
                    StatusOf(DequeueStep(m, t).threads[t], NextValue(RecordDequeue(m, h, t), t)))
  {
    if UnlinksNow(m, t) {
      UnlinkReaches(m, h, t, call);
    } else if m.threads[t].DeqNext? {
      EmptyReaches(m, h, t, call);
    } else {
      QuietDequeueReaches(m, h, t, call);
    }
  }

  lemma QuietDequeueReaches(m: Machine, h: History, t: Tid, call: nat)
    requires Inv(m, h) && t in m.threads && !Enqueuing(m.threads[t]) && !m.threads[t].Idle?
    requires !UnlinksNow(m, t) && !m.threads[t].DeqNext?
    ensures t in DequeueStep(m, t).threads
    ensures Reaches(m, t, call, StatusOf(m.threads[t], NextValue(h, t)),
                    StatusOf(DequeueStep(m, t).threads[t], NextValue(RecordDequeue(m, h, t), t)))
  {
    var v := NextValue(RecordDequeue(m, h, t), t);
    if m.threads[t].SoloData? { SoloReadsTaken(m, h, t); }
    if m.threads[t].SoloDelete? || m.threads[t].ManyFree? || m.threads[t].SoloCount? {
      ReleaseReaches(m, h, t, call, v);
    } else {
      SearchReaches(m, h, t, call, v);
    }
  }

  lemma ReleaseReaches(m: Machine, h: History, t: Tid, call: nat, v: Value)
    requires t in m.threads && (m.threads[t].SoloDelete? || m.threads[t].ManyFree? || m.threads[t].SoloCount?)
    ensures t in DequeueStep(m, t).threads
    ensures Reaches(m, t, call, StatusOf(m.threads[t], NextValue(h, t)), StatusOf(DequeueStep(m, t).threads[t], v))
  {
  }

  lemma SearchReaches(m: Machine, h: History, t: Tid, call: nat, v: Value)
    requires t in m.threads && !Enqueuing(m.threads[t]) && !m.threads[t].Idle? && !UnlinksNow(m, t)
    requires !m.threads[t].DeqNext? && !m.threads[t].SoloDelete? && !m.threads[t].ManyFree? && !m.threads[t].SoloCount?
    requires m.threads[t].SoloData? ==> Load(m, m.threads[t].next.addr).data == NextValue(h, t)
    ensures t in DequeueStep(m, t).threads
    ensures Reaches(m, t, call, StatusOf(m.threads[t], NextValue(h, t)), StatusOf(DequeueStep(m, t).threads[t], v))
  {
  }

  /** The one consumer reads the value of the node its head CAS made the new dummy. */
  lemma SoloReadsTaken(m: Machine, h: History, t: Tid)
    requires Inv(m, h) && t in m.threads && m.threads[t].SoloData?
    ensures Load(m, m.threads[t].next.addr).data == NextValue(h, t) && Seen(h, t) + 1 < |h.chain|
  {
    assert LocalOk(m, h, t);
    assert PosOk(m, h, Seen(h, t) + 1);
    SuccessorInMemory(m, h, Seen(h, t) + 1);
  }

  lemma BeginKeepsJournal(m: Machine, h: History, j: Journal, act: Action)
    requires Inv(m, h) && JournalOk(m, h, j) && Enabled(m, act) && (act.BeginEnqueue? || act.BeginDequeue?)
    ensures JournalOk(Step(m, act), Record(m, h, act), Write(m, j, act))
  {
    var op := if act.BeginEnqueue? then PutOp(act.value) else TakeOp;
    OpenKeeps(j, Statuses(m, h), act.t, op);
    StatusChanges(m, h, act, if op.PutOp? then Putting(op.value) else Taking);
  }

  lemma StepKeepsJournal(m: Machine, h: History, j: Journal, act: Action)
    requires Inv(m, h) && JournalOk(m, h, j) && Enabled(m, act) && CasInReach(m, h, act)
    ensures JournalOk(Step(m, act), Record(m, h, act), Write(m, j, act))
  {
    match act
    case BeginEnqueue(_, _, _) => BeginKeepsJournal(m, h, j, act);
    case BeginDequeue(_) => BeginKeepsJournal(m, h, j, act);
    case Run(t) =>
      if Enqueuing(m.threads[t]) {
        EnqueueReaches(m, h, t, Current(j, t));
      } else {
        DequeueReaches(m, h, t, Current(j, t));
      }
      RunKeepsJournal(m, h, j, t, StatusOf(Step(m, act).threads[t], NextValue(Record(m, h, act), t)));
    case Recycle(_, _) => assert Statuses(Step(m, act), Record(m, h, act)) == Statuses(m, h);
  }

  lemma InitJournal(m: Machine)
    requires Init(m)
    ensures JournalOk(m, Start(m), BLANK)
  {
  }

  /** Whatever is done, but for a new call of `t`, the latest call of `t` goes on. */
  lemma WriteContinues(m: Machine, j: Journal, act: Action, t: Tid)
    requires Callable(m, act) && (act.BeginEnqueue? || act.BeginDequeue? ==> act.t != t)
    ensures Continues(j, Write(m, j, act), t)
  {
  }

  // ---------- the order of events is that of a queue ----------

  function Values(cells: seq<Cell>): (r: seq<Value>)
    ensures |r| == |cells| && forall i :: 0 <= i < |cells| ==> r[i] == cells[i].value
  {
    if cells == [] then [] else Values(cells[..|cells| - 1]) + [cells[|cells| - 1].value]
  }

  /** The abstract queue, front first. */
  function Contents(h: History): seq<Value> {
    if h.headPos < |h.chain| then Values(h.chain[h.headPos + 1..]) else []
  }

  /** An event is an enqueue at the back, a dequeue of the front, or finds the queue empty; without
      one, or with the last, nothing changes. */
  lemma EventFits(m: Machine, h: History, t: Tid, call: nat)
    requires Inv(m, h) && Callable(m, Run(t)) && CasInReach(m, h, Run(t))
    ensures var e, q, q' := EventOf(m, t, call), Contents(h), Contents(Record(m, h, Run(t)));
      match e
      case None => q' == q
      case Some(Put(k, v)) => k == call && q' == q + [v]
      case Some(Took(k, v)) => k == call && q != [] && v == q[0] && q' == q[1..]
      case Some(SawEmpty(k)) => k == call && q == [] && q' == q
  {
    EventKind(m, t, call);
    if LinksNow(m, t) {
      LinkAppends(m, h, t);
    } else if UnlinksNow(m, t) {
      UnlinkedValue(m, h, t);
      UnlinkTakesFront(m, h, t);
    } else {
      ContentsStay(m, h, t);
      if EventOf(m, t, call).Some? { EmptyMeansEmpty(m, h, t); }
    }
  }

  lemma EventKind(m: Machine, t: Tid, call: nat)
    requires t in m.threads
    ensures EventOf(m, t, call) ==
      if LinksNow(m, t) then Some(Put(call, m.threads[t].value))
      else if UnlinksNow(m, t) then
        Some(Took(call, if m.threads[t].ManyCas? then m.threads[t].value else Load(m, m.threads[t].next.addr).data))
      else if EventOf(m, t, 0).Some? then Some(SawEmpty(call))
      else None
    ensures EventOf(m, t, 0).Some? && !LinksNow(m, t) && !UnlinksNow(m, t) ==>
      m.threads[t].DeqNext? && m.variant.SingleConsumer?
  {
  }

  lemma ContentsStay(m: Machine, h: History, t: Tid)
    requires Inv(m, h) && Callable(m, Run(t)) && !LinksNow(m, t) && !UnlinksNow(m, t)
    ensures Contents(Record(m, h, Run(t))) == Contents(h)
  {
    StepGrows(m, h, Run(t));
  }

  lemma LinkAppends(m: Machine, h: History, t: Tid)
    requires Inv(m, h) && LinksNow(m, t)
    ensures Contents(RecordEnqueue(m, h, t)) == Contents(h) + [m.threads[t].value]
  {
    var h' := RecordEnqueue(m, h, t);
    assert h'.chain == h.chain + [Cell(m.threads[t].node, MyStamp(h, t), m.threads[t].value)];
  }

  lemma UnlinkTakesFront(m: Machine, h: History, t: Tid)
    requires Inv(m, h) && UnlinksNow(m, t) && CasInReach(m, h, Run(t))
    ensures Contents(h) != [] && Contents(h)[0] == NextValue(h, t)
    ensures Contents(RecordDequeue(m, h, t)) == Contents(h)[1..]
  {
    UnlinkedValue(m, h, t);
    DequeueRecords(m, h, t);
    var q := h.chain[h.headPos + 1..];
    assert h.chain[h.headPos + 2..] == q[1..];
    assert Values(q[1..]) == Values(q)[1..];
  }

  /** `MPSCQueue::Dequeue` reads a null successor exactly when the abstract queue is empty. */
  lemma EmptyMeansEmpty(m: Machine, h: History, t: Tid)
    requires Inv(m, h) && t in m.threads && m.threads[t].DeqNext? && m.variant.SingleConsumer?
    ensures DequeueStep(m, t).threads[t] == Idle(Empty) <==> Contents(h) == []
    ensures EventOf(m, t, 0).Some? <==> Contents(h) == []
  {
    assert LocalOk(m, h, t);
    assert PosOk(m, h, h.headPos);
    SuccessorInMemory(m, h, Seen(h, t));
  }

  lemma WriteAppends(m: Machine, j: Journal, t: Tid)
    requires Callable(m, Run(t)) && Current(j, t) < |j.calls|
    ensures Write(m, j, Run(t)).events ==
      match EventOf(m, t, Current(j, t)) case None => j.events case Some(e) => j.events + [e]
  {
  }

  lemma StepKeepsOrder(m: Machine, h: History, j: Journal, act: Action)
    requires Inv(m, h) && JournalOk(m, h, j) && Enabled(m, act) && CasInReach(m, h, act)
    requires ReplayQueue(j.events) == Some(Contents(h))
    ensures ReplayQueue(Write(m, j, act).events) == Some(Contents(Record(m, h, act)))
  {
    if act.Run? {
      var t := act.t;
      assert t in Statuses(m, h) && ThreadFits(j, t, Statuses(m, h)[t]);
      EventFits(m, h, t, Current(j, t));
      WriteAppends(m, j, t);
      if EventOf(m, t, Current(j, t)).Some? { ReplayQueueNext(j.events, EventOf(m, t, Current(j, t)).value); }
    }
  }
}
