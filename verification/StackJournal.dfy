/** The journal of the stack: what its callers see, written from what the machine does. */
module StackJournal {
  import opened Words
  import opened StackMachine
  import opened StackInvariant
  import opened StackSteps
  import opened Journals

  /** What the call just ended answered. A null Top stands for an empty stack. */
  function ReplyOf(r: Result): Reply {
    match r
    case Stored => Done
    case NoCount => TurnedAway
    case NoTop => FoundEmpty
    case Popped(v) => Gave(v)
  }

  /** The event of a step: a Put at a Push CAS that wins; at a Pop CAS that wins, a Took of the
      value in the node whose word was read from Top. */
  function EventOf(m: Machine, t: Tid, call: nat): Option<Event>
    requires t in m.threads
  {
    match m.threads[t]
    case PushCas(_, v, _, seen) => if m.top == seen then Some(Put(call, v)) else None
    case PopCas(w, _) => if m.top == w then Some(Took(call, Load(m, w.addr).data)) else None
    case _ => None
  }

  function WriteRun(m: Machine, j: Journal, t: Tid): Journal
    requires t in m.threads
  {
    var e := EventOf(m, t, Current(j, t));
    var j1 := if e.Some? then Mark(j, t, e.value) else j;
    if RunStep(m, t).threads[t].Idle? && !m.threads[t].Idle?
    then Close(j1, t, ReplyOf(RunStep(m, t).threads[t].result))
    else j1
  }

  /** How the journal grows when `act` is taken in `m`. */
  function Write(m: Machine, j: Journal, act: Action): Journal
    requires Enabled(m, act)
  {
    match act
    case BeginPush(t, v, _) => Open(j, t, PutOp(v))
    case BeginPop(t) => Open(j, t, TakeOp)
    case Scribble(_, _) => j
    case Run(t) => WriteRun(m, j, t)
  }

  // ---------- the journal is right ----------

  function StatusOf(l: Local, c: Cell): Status {
    match l
    case Idle(r) => Away(ReplyOf(r))
    case PushData(_, v) => Putting(v)
    case PushTag(_, v) => Putting(v)
    case PushRead(_, v, _) => Putting(v)
    case PushLink(_, v, _, _) => Putting(v)
    case PushCas(_, v, _, _) => Putting(v)
    case PushCount => HasPut
    case PopData(_) => HasTaken(c.value)
    case PopFree(_, _) => HasTaken(c.value)
    case _ => Taking
  }

  function Statuses(m: Machine, h: History): map<Tid, Status> {
    map t | t in m.threads :: StatusOf(m.threads[t], CellFor(h, t))
  }

  ghost predicate JournalOk(m: Machine, h: History, j: Journal) {
    Right(j, Statuses(m, h))
  }

  lemma RunMovesOne(m: Machine, t: Tid)
    requires t in m.threads
    ensures t in RunStep(m, t).threads && RunStep(m, t).threads == m.threads[t := RunStep(m, t).threads[t]]
  {
  }

  lemma RecordMovesOne(m: Machine, h: History, t: Tid, u: Tid)
    requires t in m.threads && u != t
    ensures CellFor(RecordRun(m, h, t), u) == CellFor(h, u)
  {
  }

  /** A step changes the status of its own thread only. */
  lemma StatusChanges(m: Machine, h: History, t: Tid)
    requires t in m.threads
    ensures t in RunStep(m, t).threads
    ensures Statuses(RunStep(m, t), RecordRun(m, h, t))
         == Statuses(m, h)[t := StatusOf(RunStep(m, t).threads[t], CellFor(RecordRun(m, h, t), t))]
  {
    var m', h' := RunStep(m, t), RecordRun(m, h, t);
    RunMovesOne(m, t);
    forall u | u in m.threads && u != t ensures CellFor(h', u) == CellFor(h, u) { RecordMovesOne(m, h, t, u); }
  }

  /** The value in the node whose word is on Top again is the value that was pushed with it. */
  lemma TakenValue(m: Machine, h: History, t: Tid)
    requires Inv(m, h) && t in m.threads && m.threads[t].PopCas? && m.top == m.threads[t].top && InWindow(m, h, Run(t))
    ensures h.chain != [] && h.chain[|h.chain| - 1] == CellFor(h, t) == CellFor(RecordRun(m, h, t), t)
    ensures Load(m, m.top.addr).data == CellFor(h, t).value
  {
    MatchIsTheSeenTop(m, h, t);
    assert LocalOk(m, h, t);
    assert ChainOk(m, h, |h.chain| - 1);
  }

  /** A step that no caller can see. */
  lemma UnseenStep(m: Machine, h: History, j: Journal, t: Tid)
    requires JournalOk(m, h, j) && t in m.threads
    requires EventOf(m, t, Current(j, t)).None?
    requires t in RunStep(m, t).threads && (RunStep(m, t).threads[t].Idle? ==> m.threads[t].Idle?)
    requires StatusOf(RunStep(m, t).threads[t], CellFor(RecordRun(m, h, t), t)) == StatusOf(m.threads[t], CellFor(h, t))
    ensures JournalOk(RunStep(m, t), RecordRun(m, h, t), WriteRun(m, j, t))
  {
    var st := Statuses(m, h);
    StatusChanges(m, h, t);
    assert st[t := st[t]] == st;
  }

  lemma PushKeepsJournal(m: Machine, h: History, j: Journal, t: Tid)
    requires Inv(m, h) && JournalOk(m, h, j) && t in m.threads && InPush(m.threads[t])
    ensures JournalOk(RunStep(m, t), RecordRun(m, h, t), WriteRun(m, j, t))
  {
    if EventOf(m, t, Current(j, t)).Some? {
      StatusChanges(m, h, t);
      MarkKeeps(j, Statuses(m, h), t, EventOf(m, t, Current(j, t)).value, HasPut);
    } else if m.threads[t].PushCount? {
      StatusChanges(m, h, t);
      CloseKeeps(j, Statuses(m, h), t, Done);
    } else {
      UnseenStep(m, h, j, t);
    }
  }

  lemma TakeKeepsJournal(m: Machine, h: History, j: Journal, t: Tid)
    requires Inv(m, h) && JournalOk(m, h, j) && t in m.threads && m.threads[t].PopCas? && InWindow(m, h, Run(t))
    requires m.top == m.threads[t].top
    ensures JournalOk(RunStep(m, t), RecordRun(m, h, t), WriteRun(m, j, t))
  {
    var c, e := CellFor(h, t), Took(Current(j, t), CellFor(h, t).value);
    TakenValue(m, h, t);
    assert EventOf(m, t, Current(j, t)) == Some(e) && RunStep(m, t).threads[t].PopData?;
    MarkKeeps(j, Statuses(m, h), t, e, HasTaken(c.value));
    assert WriteRun(m, j, t) == Mark(j, t, e);
    StatusChanges(m, h, t);
  }

  lemma AnswerKeepsJournal(m: Machine, h: History, j: Journal, t: Tid)
    requires Inv(m, h) && JournalOk(m, h, j) && t in m.threads && (m.threads[t].PopCheck? || m.threads[t].PopFree?)
    requires RunStep(m, t).threads[t].Idle?
    ensures JournalOk(RunStep(m, t), RecordRun(m, h, t), WriteRun(m, j, t))
  {
    assert LocalOk(m, h, t);
    StatusChanges(m, h, t);
    CloseKeeps(j, Statuses(m, h), t, ReplyOf(RunStep(m, t).threads[t].result));
  }

  lemma PopKeepsJournal(m: Machine, h: History, j: Journal, t: Tid)
    requires Inv(m, h) && JournalOk(m, h, j) && t in m.threads && !InPush(m.threads[t]) && InWindow(m, h, Run(t))
    ensures JournalOk(RunStep(m, t), RecordRun(m, h, t), WriteRun(m, j, t))
  {
    if m.threads[t].PopTop? { ReservedPopFindsTop(m, h, t); }
    if m.threads[t].PopCas? && m.top == m.threads[t].top {
      TakeKeepsJournal(m, h, j, t);
    } else if m.threads[t].PopFree? || (m.threads[t].PopCheck? && Signed32(m.count) <= 0) {
      AnswerKeepsJournal(m, h, j, t);
    } else {
      UnseenStep(m, h, j, t);
    }
  }

  lemma BeginKeepsJournal(m: Machine, h: History, j: Journal, act: Action)
    requires JournalOk(m, h, j) && Enabled(m, act) && (act.BeginPush? || act.BeginPop?)
    ensures JournalOk(Step(m, act), Record(m, h, act), Write(m, j, act))
  {
    var op := if act.BeginPush? then PutOp(act.value) else TakeOp;
    OpenKeeps(j, Statuses(m, h), act.t, op);
    assert Statuses(Step(m, act), Record(m, h, act))
        == Statuses(m, h)[act.t := if op.PutOp? then Putting(op.value) else Taking];
  }

  lemma StepKeepsJournal(m: Machine, h: History, j: Journal, act: Action)
    requires Inv(m, h) && JournalOk(m, h, j) && Enabled(m, act) && InWindow(m, h, act)
    ensures JournalOk(Step(m, act), Record(m, h, act), Write(m, j, act))
  {
    match act
    case BeginPush(_, _, _) => BeginKeepsJournal(m, h, j, act);
    case BeginPop(_) => BeginKeepsJournal(m, h, j, act);
    case Run(t) => if InPush(m.threads[t]) { PushKeepsJournal(m, h, j, t); } else { PopKeepsJournal(m, h, j, t); }
    case Scribble(_, _) => assert Statuses(Step(m, act), h) == Statuses(m, h);
  }

  /** Whatever is done, but for a new call of `t`, the latest call of `t` goes on. */
  lemma WriteContinues(m: Machine, j: Journal, act: Action, t: Tid)
    requires Enabled(m, act) && (act.BeginPush? || act.BeginPop? ==> act.t != t)
    ensures Continues(j, Write(m, j, act), t)
  {
  }

  lemma InitJournal(m: Machine)
    requires Init(m)
    ensures JournalOk(m, Start(m), BLANK)
  {
  }

  // ---------- the order of events is that of a stack ----------

  function Values(cells: seq<Cell>): (r: seq<Value>)
    ensures |r| == |cells| && forall i :: 0 <= i < |cells| ==> r[i] == cells[i].value
  {
    if cells == [] then [] else Values(cells[..|cells| - 1]) + [cells[|cells| - 1].value]
  }

  /** The abstract stack, bottom up. */
  function Contents(h: History): seq<Value> {
    Values(h.chain)
  }

  /** An event is a push of the pushed value or a pop of the top value; without one nothing changes. */
  lemma EventFits(m: Machine, h: History, t: Tid, call: nat)
    requires Inv(m, h) && t in m.threads && InWindow(m, h, Run(t))
    ensures var e, c, c' := EventOf(m, t, call), Contents(h), Contents(RecordRun(m, h, t));
      match e
      case None => c' == c
      case Some(Put(k, v)) => k == call && c' == c + [v]
      case Some(Took(k, v)) => k == call && c != [] && v == c[|c| - 1] && c' == c[..|c| - 1]
      case Some(SawEmpty(_)) => false
  {
    assert LocalOk(m, h, t);
    if EventOf(m, t, call).Some? {
      if m.threads[t].PopCas? { TakenValue(m, h, t); } else { assert RecordRun(m, h, t).chain[..|h.chain|] == h.chain; }
    } else {
      assert RecordRun(m, h, t).chain == h.chain;
    }
  }

  lemma WriteAppends(m: Machine, j: Journal, t: Tid)
    requires t in m.threads && Current(j, t) < |j.calls|
    ensures WriteRun(m, j, t).events ==
      match EventOf(m, t, Current(j, t)) case None => j.events case Some(e) => j.events + [e]
  {
  }

  lemma StepKeepsOrder(m: Machine, h: History, j: Journal, act: Action)
    requires Inv(m, h) && JournalOk(m, h, j) && Enabled(m, act) && InWindow(m, h, act)
    requires ReplayStack(j.events) == Some(Contents(h))
    ensures ReplayStack(Write(m, j, act).events) == Some(Contents(Record(m, h, act)))
  {
    if act.Run? {
      var t := act.t;
      assert t in Statuses(m, h) && ThreadFits(j, t, Statuses(m, h)[t]);
      EventFits(m, h, t, Current(j, t));
      WriteAppends(m, j, t);
      if EventOf(m, t, Current(j, t)).Some? { ReplayStackNext(j.events, EventOf(m, t, Current(j, t)).value); }
    }
  }
}
