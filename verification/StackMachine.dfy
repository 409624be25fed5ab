/** `LockFreeStack` as a step machine: one step per shared read, write, increment or
    compare-exchange, any number of threads, any interleaving. */
module StackMachine {
  import opened Words

  /** What a thread's last call gave back. */
  datatype Result =
    | Stored            // Push returned (also the state before the first call)
    | NoCount           // Pop returned 0 because count was not positive
    | NoTop             // Pop returned 0 because Top was null
    | Popped(value: Value)

  /** Program counter and locals of one thread; the comment is the statement it executes next. */
  datatype Local =
    | Idle(result: Result)
    | PushData(node: Addr, value: Value)                              // newNode->data = value
    | PushTag(node: Addr, value: Value)                               // InterlockedIncrement(&index)
    | PushRead(node: Addr, value: Value, newTop: Word)                // oldTop = Top
    | PushLink(node: Addr, value: Value, newTop: Word, oldTop: Word)  // newNode->next = oldTop
    | PushCas(node: Addr, value: Value, newTop: Word, oldTop: Word)   // CAS(&Top, newTop, oldTop)
    | PushCount                                                       // InterlockedIncrement(&count)
    | PopCheck                                                        // oldCount = count; test
    | PopReserve(oldCount: int)                                       // CAS(&count, oldCount - 1, oldCount)
    | PopTop                                                          // top = Top; null test
    | PopNext(top: Word)                                              // newTop = delNode->next
    | PopCas(top: Word, newTop: Word)                                 // CAS(&Top, newTop, top)
    | PopData(node: Addr)                                             // data = delNode->data
    | PopFree(node: Addr, data: Value)                                // Free(delNode)

  /** `heap` is every node the pool can hand out, `free` those it holds now. */
  datatype Machine = Machine(
    top: Word, index: nat, count: nat,
    heap: map<Addr, Node>, free: set<Addr>, threads: map<Tid, Local>)

  datatype Action =
    | BeginPush(t: Tid, value: Value, node: Addr)  // the pool hands out `node`
    | BeginPop(t: Tid)
    | Run(t: Tid)
    | Scribble(node: Addr, junk: Node)             // the pool overwrites a node it holds

  /** Reading a node. Pool memory stays readable, so reading a free node is not an error. */
  function Load(m: Machine, a: Addr): Node {
    if a in m.heap then m.heap[a] else Node(ZERO, 0)
  }

  function Goto(m: Machine, t: Tid, l: Local): Machine {
    m.(threads := m.threads[t := l])
  }

  predicate Enabled(m: Machine, act: Action) {
    match act
    case BeginPush(t, _, a) => t in m.threads && m.threads[t].Idle? && a in m.free
    case BeginPop(t) => t in m.threads && m.threads[t].Idle?
    case Run(t) => t in m.threads && !m.threads[t].Idle?
    case Scribble(a, _) => a in m.free
  }

  function Step(m: Machine, act: Action): Machine
    requires Enabled(m, act)
  {
    match act
    case BeginPush(t, v, a) => Goto(m.(free := m.free - {a}), t, PushData(a, v))
    case BeginPop(t) => Goto(m, t, PopCheck)
    case Run(t) => RunStep(m, t)
    case Scribble(a, junk) => m.(heap := m.heap[a := junk])
  }

  function RunStep(m: Machine, t: Tid): Machine
    requires t in m.threads
  {
    match m.threads[t]
    case Idle(_) => m
    case PushData(a, v) =>
      Goto(m.(heap := m.heap[a := Load(m, a).(data := v)]), t, PushTag(a, v))
    case PushTag(a, v) =>
      var index := (m.index + 1) % TWO32;
      Goto(m.(index := index), t, PushRead(a, v, Word(Tag(index), a)))
    case PushRead(a, v, w) => Goto(m, t, PushLink(a, v, w, m.top))
    case PushLink(a, v, w, seen) =>
      Goto(m.(heap := m.heap[a := Load(m, a).(next := seen)]), t, PushCas(a, v, w, seen))
    case PushCas(a, v, w, seen) =>
      if m.top == seen then Goto(m.(top := w), t, PushCount) else Goto(m, t, PushRead(a, v, w))
    case PushCount => Goto(m.(count := (m.count + 1) % TWO32), t, Idle(Stored))
    case PopCheck =>
      var n := Signed32(m.count);
      if n <= 0 then Goto(m, t, Idle(NoCount)) else Goto(m, t, PopReserve(n))
    case PopReserve(n) =>
      if Signed32(m.count) == n then Goto(m.(count := (n - 1) % TWO32), t, PopTop) else Goto(m, t, PopCheck)
    case PopTop =>
      if m.top.addr == NULL then Goto(m, t, Idle(NoTop)) else Goto(m, t, PopNext(m.top))
    case PopNext(w) => Goto(m, t, PopCas(w, Load(m, w.addr).next))
    case PopCas(w, next) =>
      if m.top == w then Goto(m.(top := next), t, PopData(w.addr)) else Goto(m, t, PopTop)
    case PopData(a) => Goto(m, t, PopFree(a, Load(m, a).data))
    case PopFree(a, d) => Goto(m.(free := m.free + {a}), t, Idle(Popped(d)))
  }

  predicate InPush(l: Local) {
    l.PushData? || l.PushTag? || l.PushRead? || l.PushLink? || l.PushCas? || l.PushCount?
  }

  /** What a thread's position means to the rest of the system. */
  datatype Phase =
    | Outside
    | Holds(node: Addr)    // has a node from the pool, not stamped yet
    | Waits(node: Addr)    // has a stamped node, not linked yet
    | Linked               // has linked its node, `count` not incremented yet
    | Reserves             // has decremented `count`, no node removed yet
    | Takes(node: Addr)    // has removed a node, not returned to the pool yet

  function PhaseOf(l: Local): Phase {
    match l
    case PushData(a, _) => Holds(a)
    case PushTag(a, _) => Holds(a)
    case PushRead(a, _, _) => Waits(a)
    case PushLink(a, _, _, _) => Waits(a)
    case PushCas(a, _, _, _) => Waits(a)
    case PushCount => Linked
    case PopTop => Reserves
    case PopNext(_) => Reserves
    case PopCas(_, _) => Reserves
    case PopData(a) => Takes(a)
    case PopFree(a, _) => Takes(a)
    case _ => Outside
  }

  /** The node this thread alone may touch. */
  predicate Owns(p: Phase, a: Addr) {
    (p.Holds? || p.Waits? || p.Takes?) && p.node == a
  }

  /** The node whose fields the thread's next step reads, writes or gives back. */
  function Touches(l: Local): Option<Addr> {
    match l
    case PushData(a, _) => Some(a)
    case PushLink(a, _, _, _) => Some(a)
    case PopNext(w) => Some(w.addr)
    case PopData(a) => Some(a)
    case PopFree(a, _) => Some(a)
    case _ => None
  }

  predicate Init(m: Machine) {
    && m.top == ZERO && m.index == 0 && m.count == 0
    && NULL !in m.heap && m.free == m.heap.Keys
    && forall t :: t in m.threads ==> m.threads[t] == Idle(Stored)
  }
}
