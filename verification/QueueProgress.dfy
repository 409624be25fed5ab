/** How long the loops of the queues can run. */
module QueueProgress {
  import opened Words
  import opened QueueMachine
  import opened QueueInvariant
  import opened QueueSteps
  import opened QueueGuard
  import opened QueueJournal
  import opened QueueTheorems

  predicate FailsLink(m: Machine, act: Action, t: Tid) {
    act == Run(t) && t in m.threads && m.threads[t].EnqLink? && !LinksNow(m, t)
  }

  predicate Helps(m: Machine, act: Action, t: Tid) {
    act == Run(t) && t in m.threads && m.threads[t].EnqHelp?
  }

  /** Passes of the Enqueue loop of `t` that end in a lost link CAS. */
  function LostLinks(s: State, acts: seq<Action>, t: Tid): nat {
    if acts == [] then 0 else
    var pre, act := acts[..|acts| - 1], acts[|acts| - 1];
    LostLinks(s, pre, t) + if FailsLink(Exec(s, pre).m, act, t) then 1 else 0
  }

  /** Passes of the Enqueue loop of `t` that help to move tail. */
  function HelpPasses(s: State, acts: seq<Action>, t: Tid): nat {
    if acts == [] then 0 else
    var pre, act := acts[..|acts| - 1], acts[|acts| - 1];
    HelpPasses(s, pre, t) + if Helps(Exec(s, pre).m, act, t) then 1 else 0
  }

  /** Link CASes won in the run, by `t` itself or by the others. */
  function Links(s: State, acts: seq<Action>, t: Tid, own: bool): nat {
    if acts == [] then 0 else
    var pre, act := acts[..|acts| - 1], acts[|acts| - 1];
    Links(s, pre, t, own) + if EnqueuesNow(Exec(s, pre).m, act) && (act.t == t) == own then 1 else 0
  }

  predicate InLoop(l: Local) {
    l.EnqNext? || l.EnqLink? || l.EnqHelp?
  }

  /** What the loop of `t` has done so far is paid for by growth of the chain and of tail. */
  ghost predicate Paid(h0: History, m: Machine, h: History, t: Tid, lost: nat, helped: nat) {
    && |h0.chain| + lost <= |h.chain| && h0.tailPos + helped <= h.tailPos
    && (t in m.threads && InLoop(m.threads[t]) ==> h0.tailPos + helped <= Seen(h, t))
    && (t in m.threads && m.threads[t].EnqLink? ==> |h0.chain| + lost <= Seen(h, t) + 1)
  }

  /** After a help pass tail is past the node it was read at. */
  lemma HelpAdvances(m: Machine, h: History, t: Tid)
    requires Inv(m, h) && t in m.threads && m.threads[t].EnqHelp? && InReach(h, Seen(h, t))
    ensures Seen(h, t) + 1 <= RecordEnqueue(m, h, t).tailPos
    ensures !InLoop(EnqueueStep(m, t).threads[t])
  {
    assert LocalOk(m, h, t);
    assert PosOk(m, h, h.tailPos);
    if m.tail == m.threads[t].oldTail { SameWordSamePosition(m, h, h.tailPos, Seen(h, t)); }
  }

  /** A lost link CAS means that the chain has grown past the node since its successor was read. */
  lemma LossMeansGrowth(m: Machine, h: History, t: Tid)
    requires Inv(m, h) && t in m.threads && m.threads[t].EnqLink? && !LinksNow(m, t)
    ensures Seen(h, t) + 2 <= |h.chain|
    ensures RecordEnqueue(m, h, t) == h && !InLoop(EnqueueStep(m, t).threads[t])
  {
    assert LocalOk(m, h, t);
    SuccessorInMemory(m, h, Seen(h, t));
  }

  /** A null successor means that the node read as tail is the last one. */
  lemma NullMeansLast(m: Machine, h: History, t: Tid)
    requires Inv(m, h) && t in m.threads && m.threads[t].EnqNext?
    ensures EnqueueStep(m, t).threads[t].EnqLink? <==> Seen(h, t) + 1 == |h.chain|
    ensures RecordEnqueue(m, h, t) == h
  {
    assert LocalOk(m, h, t);
    SuccessorInMemory(m, h, Seen(h, t));
  }

  lemma DequeueStaysOutside(m: Machine, h: History, t: Tid)
    requires t in m.threads && !Enqueuing(m.threads[t])
    ensures t in DequeueStep(m, t).threads && !InLoop(DequeueStep(m, t).threads[t])
  {
  }

  /** One step of `t` itself, not a winning link. */
  lemma OwnStepPaid(h0: History, m: Machine, h: History, t: Tid, lost: nat, helped: nat)
    requires Inv(m, h) && t in m.threads && Enqueuing(m.threads[t]) && !LinksNow(m, t) && CasInReach(m, h, Run(t))
    requires Paid(h0, m, h, t, lost, helped)
    ensures Paid(h0, EnqueueStep(m, t), RecordEnqueue(m, h, t), t,
      lost + (if FailsLink(m, Run(t), t) then 1 else 0), helped + (if Helps(m, Run(t), t) then 1 else 0))
  {
    EnqueueGrows(m, h, t);
    match m.threads[t]
    case EnqNext(_, _, _, _) => NullMeansLast(m, h, t);
    case EnqLink(_, _, _, _, _) => LossMeansGrowth(m, h, t);
    case EnqHelp(_, _, _, _, _) => HelpAdvances(m, h, t);
    case _ =>
  }

  lemma StepPaid(h0: History, e: State, act: Action, t: Tid, lost: nat, helped: nat)
    requires Inv(e.m, e.h) && Enabled(e.m, act) && t in e.m.threads && CasInReach(e.m, e.h, act)
    requires !(EnqueuesNow(e.m, act) && act.t == t)
    requires Paid(h0, e.m, e.h, t, lost, helped)
    ensures t in After(e, act).m.threads
    ensures Paid(h0, After(e, act).m, After(e, act).h, t,
      lost + (if FailsLink(e.m, act, t) then 1 else 0), helped + (if Helps(e.m, act, t) then 1 else 0))
  {
    StepGrows(e.m, e.h, act);
    if act.Recycle? || act.t != t {
      OthersLeaveView(e.m, e.h, act, t);
    } else if act.Run? {
      if Enqueuing(e.m.threads[t]) {
        OwnStepPaid(h0, e.m, e.h, t, lost, helped);
      } else {
        DequeueStaysOutside(e.m, e.h, t);
      }
    }
  }

  lemma {:induction false} RunPaid(s: State, acts: seq<Action>, t: Tid)
    requires Good(s) && ReachHeld(s, acts) && t in s.m.threads && !InLoop(s.m.threads[t])
    requires Links(s, acts, t, true) == 0
    ensures t in Exec(s, acts).m.threads
    ensures Paid(s.h, Exec(s, acts).m, Exec(s, acts).h, t, LostLinks(s, acts, t), HelpPasses(s, acts, t))
    ensures |Exec(s, acts).h.chain| == |s.h.chain| + Links(s, acts, t, false)
  {
    if acts != [] {
      var pre, act := acts[..|acts| - 1], acts[|acts| - 1];
      RunPaid(s, pre, t);
      RunKeepsInv(s, pre);
      var e := Exec(s, pre);
      if Enabled(e.m, act) {
        StepPaid(s.h, e, act, t, LostLinks(s, pre, t), HelpPasses(s, pre, t));
        StepGrows(e.m, e.h, act);
      }
    }
  }

  /** The Enqueue loop is paid for by the others: over any run in which `t` has not linked yet and
      the others won k link CASes, at most k passes ended in a lost CAS and at most k + 1 helped,
      so the pass that links is at the latest number 2k + 2. */
  lemma EnqueuePassesAreBounded(s: State, acts: seq<Action>, t: Tid)
    requires Good(s) && ReachHeld(s, acts) && t in s.m.threads && !InLoop(s.m.threads[t])
    requires Links(s, acts, t, true) == 0
    ensures var k := Links(s, acts, t, false);
      && LostLinks(s, acts, t) <= k && HelpPasses(s, acts, t) <= k + 1
      && LostLinks(s, acts, t) + HelpPasses(s, acts, t) + 1 <= 2 * k + 2
  {
    RunPaid(s, acts, t);
    RunKeepsInv(s, acts);
  }

  // ---------- Dequeue ----------

  predicate FailsUnlink(m: Machine, act: Action, t: Tid) {
    act == Run(t) && t in m.threads && Unlinks(m.threads[t]) && !UnlinksNow(m, t)
  }

  function LostUnlinks(s: State, acts: seq<Action>, t: Tid): nat {
    if acts == [] then 0 else
    var pre, act := acts[..|acts| - 1], acts[|acts| - 1];
    LostUnlinks(s, pre, t) + if FailsUnlink(Exec(s, pre).m, act, t) then 1 else 0
  }

  function OthersUnlinks(s: State, acts: seq<Action>, t: Tid): nat {
    if acts == [] then 0 else
    var pre, act := acts[..|acts| - 1], acts[|acts| - 1];
    OthersUnlinks(s, pre, t) + if DequeuesNow(Exec(s, pre).m, act) && act.t != t then 1 else 0
  }

  /** Thread `t` remembers a head that has moved on. */
  predicate StaleHead(m: Machine, t: Tid) {
    t in m.threads &&
    match m.threads[t]
    case DeqNext(w) => w != m.head
    case SoloCas(w, _) => w != m.head
    case ManyPeek(w, _) => w != m.head
    case ManyCas(w, _, _) => w != m.head
    case _ => false
  }

  lemma StaleHeadStep(m: Machine, act: Action, t: Tid)
    requires Enabled(m, act)
    ensures StaleHead(Step(m, act), t) ==> StaleHead(m, t) || (DequeuesNow(m, act) && act.t != t)
    ensures FailsUnlink(m, act, t) ==> StaleHead(m, t) && !StaleHead(Step(m, act), t)
  {
  }

  /** Head CASes lost by a dequeuer never exceed those the others won meanwhile. */
  lemma {:induction false} LostUnlinksArePaidFor(s: State, acts: seq<Action>, t: Tid)
    requires !StaleHead(s.m, t)
    ensures LostUnlinks(s, acts, t) + (if StaleHead(Exec(s, acts).m, t) then 1 else 0) <= OthersUnlinks(s, acts, t)
  {
    if acts != [] {
      var pre, act := acts[..|acts| - 1], acts[|acts| - 1];
      LostUnlinksArePaidFor(s, pre, t);
      if Enabled(Exec(s, pre).m, act) { StaleHeadStep(Exec(s, pre).m, act, t); }
    }
  }
}
