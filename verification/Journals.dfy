/** What the callers of a container can see: the calls they make, what the calls answer, and the
    moment inside each call at which it takes effect. */
module Journals {
  import opened Words

  /** A call puts a value in or takes one out. */
  datatype Op = PutOp(value: Value) | TakeOp

  datatype Reply =
    | Done
    | Gave(value: Value)
    | FoundEmpty        // nothing was there
    | TurnedAway        // nothing could be reserved

  /** What a call did to the container, at one step of the run. */
  datatype Event = Put(call: nat, value: Value) | Took(call: nat, value: Value) | SawEmpty(call: nat)

  /** A call by `t`. `start` and `end` count the events that had happened when it began and when it
      returned; `point` is the event it is responsible for. */
  datatype Call = Call(t: Tid, op: Op, start: nat, point: Option<nat>, end: nat, reply: Option<Reply>)

  /** `current[t]` is the latest call of thread `t`. */
  datatype Journal = Journal(calls: seq<Call>, current: map<Tid, nat>, events: seq<Event>)

  const BLANK: Journal := Journal([], map[], [])

  function Current(j: Journal, t: Tid): nat {
    if t in j.current then j.current[t] else 0
  }

  function Open(j: Journal, t: Tid, op: Op): Journal {
    j.(calls := j.calls + [Call(t, op, |j.events|, None, 0, None)], current := j.current[t := |j.calls|])
  }

  function Mark(j: Journal, t: Tid, e: Event): Journal {
    var k := Current(j, t);
    if k < |j.calls| then j.(calls := j.calls[k := j.calls[k].(point := Some(|j.events|))], events := j.events + [e])
    else j
  }

  function Close(j: Journal, t: Tid, reply: Reply): Journal {
    var k := Current(j, t);
    if k < |j.calls| then j.(calls := j.calls[k := j.calls[k].(end := |j.events|, reply := Some(reply))]) else j
  }

  // ---------- what makes a journal right ----------

  /** A finished call: its event lies between its start and its end, is its own, and fits its answer. */
  predicate Answered(j: Journal, k: nat)
    requires k < |j.calls|
  {
    var c := j.calls[k];
    && c.reply.Some? && c.start <= c.end <= |j.events|
    && (c.point.Some? ==> c.start <= c.point.value < c.end)
    && match c.reply.value
       case Done => c.op.PutOp? && c.point.Some? && j.events[c.point.value] == Put(k, c.op.value)
       case Gave(v) => c.op.TakeOp? && c.point.Some? && j.events[c.point.value] == Took(k, v)
       case FoundEmpty => c.op.TakeOp? && c.point.Some? && j.events[c.point.value] == SawEmpty(k)
       case TurnedAway => c.op.TakeOp? && c.point.None?
  }

  /** Each event belongs to one call, which has no other. */
  predicate OwnEvent(j: Journal, i: nat)
    requires i < |j.events|
  {
    j.events[i].call < |j.calls| && j.calls[j.events[i].call].point == Some(i)
  }

  /** Every call that has returned took effect once, by an event of its own between its start and
      its end; and no event is without a call. With a legal order of the events, that is
      linearizability. */
  ghost predicate Linearized(j: Journal) {
    && (forall k :: 0 <= k < |j.calls| && j.calls[k].reply.Some? ==> Answered(j, k))
    && (forall i :: 0 <= i < |j.events| ==> OwnEvent(j, i))
  }

  /** If one call returned before another began, its event comes first. */
  lemma RealTimeOrder(j: Journal, k: nat, l: nat)
    requires Linearized(j) && k < |j.calls| && l < |j.calls|
    requires j.calls[k].reply.Some? && j.calls[l].reply.Some? && j.calls[k].end <= j.calls[l].start
    requires j.calls[k].point.Some? && j.calls[l].point.Some?
    ensures j.calls[k].point.value < j.calls[l].point.value
  {
    assert Answered(j, k) && Answered(j, l);
  }

  // ---------- how a journal stays right ----------

  /** How far a thread is in its call. */
  datatype Status =
    | Away(reply: Reply)      // its last call, if any, answered this
    | Putting(value: Value)
    | HasPut
    | Taking
    | HasTaken(value: Value)
    | HasSeenNone

  predicate Fits(j: Journal, k: nat, s: Status)
    requires k < |j.calls|
  {
    var c := j.calls[k];
    && c.reply.None? && c.start <= |j.events|
    && (c.point.Some? ==> c.start <= c.point.value < |j.events|)
    && match s
       case Away(_) => false
       case Putting(v) => c.op == PutOp(v) && c.point.None?
       case HasPut => c.op.PutOp? && c.point.Some? && j.events[c.point.value] == Put(k, c.op.value)
       case Taking => c.op.TakeOp? && c.point.None?
       case HasTaken(v) => c.op.TakeOp? && c.point.Some? && j.events[c.point.value] == Took(k, v)
       case HasSeenNone => c.op.TakeOp? && c.point.Some? && j.events[c.point.value] == SawEmpty(k)
  }

  /** The latest call of a thread is the thread's, and is finished just when the thread is away. */
  predicate ThreadFits(j: Journal, t: Tid, s: Status) {
    if t in j.current then
      var k := j.current[t];
      k < |j.calls| && j.calls[k].t == t && if s.Away? then j.calls[k].reply == Some(s.reply) else Fits(j, k, s)
    else s.Away?
  }

  predicate CallFits(j: Journal, st: map<Tid, Status>, k: nat)
    requires k < |j.calls|
  {
    var c := j.calls[k];
    if c.reply.Some? then Answered(j, k) else c.t in st && c.t in j.current && j.current[c.t] == k
  }

  ghost predicate Right(j: Journal, st: map<Tid, Status>) {
    && (forall k {:trigger CallFits(j, st, k)} :: 0 <= k < |j.calls| ==> CallFits(j, st, k))
    && (forall i {:trigger OwnEvent(j, i)} :: 0 <= i < |j.events| ==> OwnEvent(j, i))
    && (forall t {:trigger ThreadFits(j, t, st[t])} :: t in st ==> ThreadFits(j, t, st[t]))
  }

  lemma RightIsLinearized(j: Journal, st: map<Tid, Status>)
    requires Right(j, st)
    ensures Linearized(j)
  {
    forall k | 0 <= k < |j.calls| && j.calls[k].reply.Some? ensures Answered(j, k) { assert CallFits(j, st, k); }
  }

  lemma OpenKeeps(j: Journal, st: map<Tid, Status>, t: Tid, op: Op)
    requires Right(j, st) && t in st && st[t].Away?
    ensures Right(Open(j, t, op), st[t := if op.PutOp? then Putting(op.value) else Taking])
  {
    var j', st' := Open(j, t, op), st[t := if op.PutOp? then Putting(op.value) else Taking];
    assert ThreadFits(j, t, st[t]);
    forall k | 0 <= k < |j'.calls| ensures CallFits(j', st', k) { assert k < |j.calls| ==> CallFits(j, st, k); }
    forall i | 0 <= i < |j'.events| ensures OwnEvent(j', i) { assert OwnEvent(j, i); }
    forall u | u in st' ensures ThreadFits(j', u, st'[u]) { assert u in st && ThreadFits(j, u, st[u]); }
  }

  /** The event that takes a status to the next one. */
  predicate Moves(s: Status, e: Event, s': Status) {
    match s
    case Putting(v) => e == Put(e.call, v) && s' == HasPut
    case Taking => (e.Took? && s' == HasTaken(e.value)) || (e.SawEmpty? && s' == HasSeenNone)
    case _ => false
  }

  lemma MarkKeeps(j: Journal, st: map<Tid, Status>, t: Tid, e: Event, s: Status)
    requires Right(j, st) && t in st && Moves(st[t], e, s) && e.call == Current(j, t)
    ensures Right(Mark(j, t, e), st[t := s]) && Mark(j, t, e).events == j.events + [e]
  {
    var j', st' := Mark(j, t, e), st[t := s];
    assert ThreadFits(j, t, st[t]);
    assert e.call < |j.calls| && j.calls[e.call].point.None?;
    forall k | 0 <= k < |j'.calls| ensures CallFits(j', st', k) { assert CallFits(j, st, k); }
    forall i | 0 <= i < |j'.events| ensures OwnEvent(j', i) { assert i < |j.events| ==> OwnEvent(j, i); }
    forall u | u in st' ensures ThreadFits(j', u, st'[u]) {
      assert u in st && ThreadFits(j, u, st[u]) && ThreadFits(j, t, st[t]);
      if u != t && u in j.current { assert j.calls[j.current[u]].t == u; }
    }
  }

  /** The answer a status allows. */
  predicate Allows(s: Status, reply: Reply) {
    match reply
    case Done => s == HasPut
    case Gave(v) => s == HasTaken(v)
    case FoundEmpty => s == HasSeenNone
    case TurnedAway => s == Taking
  }

  lemma CloseKeeps(j: Journal, st: map<Tid, Status>, t: Tid, reply: Reply)
    requires Right(j, st) && t in st && Allows(st[t], reply)
    ensures Right(Close(j, t, reply), st[t := Away(reply)])
  {
    var j', st' := Close(j, t, reply), st[t := Away(reply)];
    assert ThreadFits(j, t, st[t]);
    forall k | 0 <= k < |j'.calls| ensures CallFits(j', st', k) { assert CallFits(j, st, k); }
    forall i | 0 <= i < |j'.events| ensures OwnEvent(j', i) { assert OwnEvent(j, i); }
    forall u | u in st' ensures ThreadFits(j', u, st'[u]) {
      assert u in st && ThreadFits(j, u, st[u]) && ThreadFits(j, t, st[t]);
      if u != t && u in j.current { assert j.calls[j.current[u]].t == u; }
    }
  }

  // ---------- one call over time ----------

  /** What of a call is settled when it begins. */
  datatype Identity = Identity(number: nat, t: Tid, op: Op, start: nat)

  function Latest(j: Journal, t: Tid): Option<Identity> {
    var k := Current(j, t);
    if t in j.current && k < |j.calls| then Some(Identity(k, j.calls[k].t, j.calls[k].op, j.calls[k].start)) else None
  }

  /** The latest call of `t` is still the same one, and no event was undone. */
  predicate Continues(j: Journal, j': Journal, t: Tid) {
    j.events <= j'.events && Current(j', t) == Current(j, t) && (Latest(j, t).Some? ==> Latest(j', t) == Latest(j, t))
  }

  /** The latest call of `t` has just begun. */
  predicate Begun(j: Journal, j': Journal, t: Tid, op: Op) {
    j.events <= j'.events && Latest(j', t) == Some(Identity(|j.calls|, t, op, |j.events|))
  }

  /** The call that began in `j` has returned, with this answer and one event of its own to show
      for it, if the answer needs one. */
  predicate Finished(j: Journal, j': Journal, t: Tid, op: Op, reply: Reply) {
    && Begun(j, j', t, op) && |j.calls| < |j'.calls|
    && j'.calls[|j.calls|].reply == Some(reply) && Answered(j', |j.calls|)
  }

  lemma RightIsFinished(j: Journal, j': Journal, st: map<Tid, Status>, t: Tid, op: Op, reply: Reply)
    requires Right(j', st) && Begun(j, j', t, op) && t in st && st[t] == Away(reply)
    ensures Finished(j, j', t, op, reply)
  {
    assert ThreadFits(j', t, st[t]) && CallFits(j', st, |j.calls|);
  }

  /** An event that happened at or after position `n`. */
  ghost predicate Since(j: Journal, n: nat, e: Event) {
    exists i :: n <= i < |j.events| && j.events[i] == e
  }

  // ---------- legal orders of events ----------

  /** What a sequential stack holds, bottom up, after the events in order. */
  function ReplayStack(events: seq<Event>): (r: Option<seq<Value>>) {
    if events == [] then Some([]) else
    match (ReplayStack(events[..|events| - 1]), events[|events| - 1])
    case (None, _) => None
    case (Some(s), Put(_, v)) => Some(s + [v])
    case (Some(s), Took(_, v)) => if s != [] && s[|s| - 1] == v then Some(s[..|s| - 1]) else None
    case (Some(s), SawEmpty(_)) => if s == [] then Some(s) else None
  }

  /** What a sequential queue holds, front first, after the events in order. */
  function ReplayQueue(events: seq<Event>): (r: Option<seq<Value>>) {
    if events == [] then Some([]) else
    match (ReplayQueue(events[..|events| - 1]), events[|events| - 1])
    case (None, _) => None
    case (Some(q), Put(_, v)) => Some(q + [v])
    case (Some(q), Took(_, v)) => if q != [] && q[0] == v then Some(q[1..]) else None
    case (Some(q), SawEmpty(_)) => if q == [] then Some(q) else None
  }

  lemma ReplayStackNext(events: seq<Event>, e: Event)
    ensures (events + [e])[..|events|] == events
    ensures ReplayStack(events).Some? && e.Put? ==> ReplayStack(events + [e]) == Some(ReplayStack(events).value + [e.value])
    ensures ReplayStack(events).Some? && e.Took? ==>
      var s := ReplayStack(events).value;
      ReplayStack(events + [e]) == if s != [] && s[|s| - 1] == e.value then Some(s[..|s| - 1]) else None
  {
    assert (events + [e])[..|events|] == events;
  }

  lemma ReplayQueueNext(events: seq<Event>, e: Event)
    ensures (events + [e])[..|events|] == events
    ensures ReplayQueue(events).Some? ==>
      var q := ReplayQueue(events).value;
      ReplayQueue(events + [e]) ==
        match e
        case Put(_, v) => Some(q + [v])
        case Took(_, v) => if q != [] && q[0] == v then Some(q[1..]) else None
        case SawEmpty(_) => if q == [] then Some(q) else None
  {
    assert (events + [e])[..|events|] == events;
  }

  /** The events are a legal history of a sequential container and lead to the values `vs`. */
  predicate StackLeadsTo(events: seq<Event>, vs: seq<Value>) {
    ReplayStack(events) == Some(vs)
  }

  predicate QueueLeadsTo(events: seq<Event>, vs: seq<Value>) {
    ReplayQueue(events) == Some(vs)
  }

  function PutValues(events: seq<Event>): seq<Value> {
    if events == [] then [] else
    var e := events[|events| - 1];
    PutValues(events[..|events| - 1]) + if e.Put? then [e.value] else []
  }

  function TookValues(events: seq<Event>): seq<Value> {
    if events == [] then [] else
    var e := events[|events| - 1];
    TookValues(events[..|events| - 1]) + if e.Took? then [e.value] else []
  }

  /** A legal queue history takes out a prefix of what it put in, in the same order, and what is
      left is the rest. */
  lemma {:induction false} ReplayIsFifo(events: seq<Event>)
    requires ReplayQueue(events).Some?
    ensures PutValues(events) == TookValues(events) + ReplayQueue(events).value
  {
    if events != [] {
      var pre, e := events[..|events| - 1], events[|events| - 1];
      ReplayIsFifo(pre);
      var q := ReplayQueue(pre).value;
      match e
      case Put(_, v) => assert TookValues(pre) + q + [v] == TookValues(pre) + (q + [v]);
      case Took(_, v) => assert TookValues(pre) + q == TookValues(pre) + [v] + q[1..];
      case SawEmpty(_) =>
    }
  }
}
