/** `MPSCQueue` and `LockFreeQueue` as one step machine. Their Enqueue is the same code; the
    Dequeue of `MPSCQueue` (one consumer, `Solo...` below) reads the value after its CAS and
    lowers `count` last, that of `LockFreeQueue` (`Many...`) reserves a count first and
    reads the value before its CAS. */
module QueueMachine {
  import opened Words

  datatype Variant = SingleConsumer(consumer: Tid) | ManyConsumers

  datatype Result =
    | Ready             // before the first call
    | Enqueued
    | Empty             // MPSCQueue::Dequeue returned -1: null successor
    | Refused           // LockFreeQueue::Dequeue returned -1: count not positive
    | Got(value: Value)

  /** Program counter and locals; the comment is the statement the thread executes next. */
  datatype Local =
    | Idle(result: Result)
    | EnqData(node: Addr, value: Value)                                    // newNode->data = value
    | EnqNull(node: Addr, value: Value)                                    // newNode->next.raw = 0
    | EnqTag(node: Addr, value: Value)                                     // InterlockedIncrement(&index)
    | EnqTail(node: Addr, value: Value, word: Word)                        // oldTail = tail
    | EnqNext(node: Addr, value: Value, word: Word, oldTail: Word)         // tailNext = oldNode->next; test
    | EnqLink(node: Addr, value: Value, word: Word, oldTail: Word, tailNext: Word) // CAS(&oldNode->next, word, tailNext)
    | EnqHelp(node: Addr, value: Value, word: Word, oldTail: Word, tailNext: Word) // CAS(&tail, tailNext, oldTail)
    | EnqSwing(word: Word, oldTail: Word)                                  // CAS(&tail, word, oldTail)
    | EnqCount                                                             // InterlockedIncrement(&count)
    | ManyCheck                                                            // oldCount = count; test
    | ManyReserve(oldCount: int)                                           // CAS(&count, oldCount - 1, oldCount)
    | DeqHead                                                              // oldHead = head
    | DeqNext(oldHead: Word)                                               // next = delNode->next; null test
    | SoloCas(oldHead: Word, next: Word)                                   // CAS(&head, next, oldHead)
    | SoloData(oldHead: Word, next: Word)                                  // t = delNextNode->data
    | SoloDelete(oldHead: Word, value: Value)                              // delete delNode
    | SoloCount(value: Value)                                              // InterlockedDecrement(&count)
    | ManyPeek(oldHead: Word, next: Word)                                  // t = delNextNode->data
    | ManyCas(oldHead: Word, next: Word, value: Value)                     // CAS(&head, next, oldHead)
    | ManyFree(oldHead: Word, value: Value)                                // Free(delNode)

  datatype Machine = Machine(
    variant: Variant, head: Word, tail: Word, index: nat, count: nat,
    heap: map<Addr, Node>, free: set<Addr>, threads: map<Tid, Local>)

  datatype Action =
    | BeginEnqueue(t: Tid, value: Value, node: Addr)  // the allocator hands out `node`
    | BeginDequeue(t: Tid)
    | Run(t: Tid)
    | Recycle(node: Addr, junk: Node)                 // the allocator overwrites a released node

  function Load(m: Machine, a: Addr): Node {
    if a in m.heap then m.heap[a] else Node(ZERO, 0)
  }

  function Goto(m: Machine, t: Tid, l: Local): Machine {
    m.(threads := m.threads[t := l])
  }

  /** The word of the node a thread is looking at: its oldTailNode or toBeDeletedNode. */
  function Looking(l: Local): Option<Word> {
    match l
    case EnqNext(_, _, _, w) => Some(w)
    case EnqLink(_, _, _, w, _) => Some(w)
    case EnqHelp(_, _, _, w, _) => Some(w)
    case EnqSwing(_, w) => Some(w)
    case DeqNext(w) => Some(w)
    case SoloCas(w, _) => Some(w)
    case SoloData(w, _) => Some(w)
    case SoloDelete(w, _) => Some(w)
    case ManyPeek(w, _) => Some(w)
    case ManyCas(w, _, _) => Some(w)
    case ManyFree(w, _) => Some(w)
    case _ => None
  }

  /** The word of the node whose `next` field a producer is about to read or to link behind. */
  function Pinning(l: Local): Option<Word> {
    match l
    case EnqNext(_, _, _, w) => Some(w)
    case EnqLink(_, _, _, w, _) => Some(w)
    case _ => None
  }

  /** The allocator guard. A released node is neither handed out again nor overwritten while `tail`
      holds its address, or a producer is between its read of `tail` and its CAS of that node's `next`. */
  predicate Unpinned(m: Machine, a: Addr) {
    && m.tail.addr != a
    && forall t :: t in m.threads && Pinning(m.threads[t]).Some? ==> Pinning(m.threads[t]).value.addr != a
  }

  /** The full guard: nor while any thread, at any point, is looking at the node. */
  predicate Unreferenced(m: Machine, a: Addr) {
    && m.tail.addr != a
    && forall t :: t in m.threads && Looking(m.threads[t]).Some? ==> Looking(m.threads[t]).value.addr != a
  }

  /** The node whose fields the thread's next step reads, writes or gives back. */
  function Touches(l: Local): Option<Addr> {
    match l
    case EnqData(a, _) => Some(a)
    case EnqNull(a, _) => Some(a)
    case EnqNext(_, _, _, oldTail) => Some(oldTail.addr)
    case EnqLink(_, _, _, oldTail, _) => Some(oldTail.addr)
    case DeqNext(oldHead) => Some(oldHead.addr)
    case SoloData(_, next) => Some(next.addr)
    case SoloDelete(oldHead, _) => Some(oldHead.addr)
    case ManyPeek(_, next) => Some(next.addr)
    case ManyFree(oldHead, _) => Some(oldHead.addr)
    case _ => None
  }

  predicate MayDequeue(m: Machine, t: Tid) {
    m.variant.SingleConsumer? ==> t == m.variant.consumer
  }

  /** Enabled as far as the calls go, whatever the allocator does. */
  predicate Callable(m: Machine, act: Action) {
    match act
    case BeginEnqueue(t, _, a) => t in m.threads && m.threads[t].Idle? && a in m.free
    case BeginDequeue(t) => t in m.threads && m.threads[t].Idle? && MayDequeue(m, t)
    case Run(t) => t in m.threads && !m.threads[t].Idle?
    case Recycle(a, _) => a in m.free
  }

  /** Enabled under the allocator guard. */
  predicate Enabled(m: Machine, act: Action) {
    && Callable(m, act)
    && (act.BeginEnqueue? || act.Recycle? ==> Unpinned(m, act.node))
  }

  /** Enabled under the full guard. */
  predicate Guarded(m: Machine, act: Action) {
    && Callable(m, act)
    && (act.BeginEnqueue? || act.Recycle? ==> Unreferenced(m, act.node))
  }

  function Step(m: Machine, act: Action): Machine
    requires Callable(m, act)
  {
    match act
    case BeginEnqueue(t, v, a) => Goto(m.(free := m.free - {a}), t, EnqData(a, v))
    case BeginDequeue(t) => Goto(m, t, if m.variant.ManyConsumers? then ManyCheck else DeqHead)
    case Run(t) => if Enqueuing(m.threads[t]) then EnqueueStep(m, t) else DequeueStep(m, t)
    case Recycle(a, junk) => m.(heap := m.heap[a := junk])
  }

  predicate Enqueuing(l: Local) {
    l.EnqData? || l.EnqNull? || l.EnqTag? || l.EnqTail? || l.EnqNext? || l.EnqLink? || l.EnqHelp? || l.EnqSwing? || l.EnqCount?
  }

  function EnqueueStep(m: Machine, t: Tid): Machine
    requires t in m.threads && Enqueuing(m.threads[t])
  {
    match m.threads[t]
    case EnqData(a, v) => Goto(m.(heap := m.heap[a := Load(m, a).(data := v)]), t, EnqNull(a, v))
    case EnqNull(a, v) => Goto(m.(heap := m.heap[a := Load(m, a).(next := ZERO)]), t, EnqTag(a, v))
    case EnqTag(a, v) =>
      var index := (m.index + 1) % TWO64;
      Goto(m.(index := index), t, EnqTail(a, v, Word(Tag(index), a)))
    case EnqTail(a, v, w) => Goto(m, t, EnqNext(a, v, w, m.tail))
    case EnqNext(a, v, w, oldTail) =>
      var next := Load(m, oldTail.addr).next;
      Goto(m, t, if next.addr == NULL then EnqLink(a, v, w, oldTail, next) else EnqHelp(a, v, w, oldTail, next))
    case EnqLink(a, v, w, oldTail, next) =>
      var b := oldTail.addr;
      if Load(m, b).next == next
      then Goto(m.(heap := m.heap[b := Load(m, b).(next := w)]), t, EnqSwing(w, oldTail))
      else Goto(m, t, EnqTail(a, v, w))
    case EnqHelp(a, v, w, oldTail, next) =>
      Goto(if m.tail == oldTail then m.(tail := next) else m, t, EnqTail(a, v, w))
    case EnqSwing(w, oldTail) =>
      Goto(if m.tail == oldTail then m.(tail := w) else m, t, EnqCount)
    case EnqCount => Goto(m.(count := (m.count + 1) % TWO32), t, Idle(Enqueued))
  }

  function DequeueStep(m: Machine, t: Tid): Machine
    requires t in m.threads && !Enqueuing(m.threads[t])
  {
    match m.threads[t]
    case Idle(_) => m
    case ManyCheck =>
      var n := Signed32(m.count);
      Goto(m, t, if n <= 0 then Idle(Refused) else ManyReserve(n))
    case ManyReserve(n) =>
      if Signed32(m.count) == n then Goto(m.(count := (n - 1) % TWO32), t, DeqHead) else Goto(m, t, ManyCheck)
    case DeqHead => Goto(m, t, DeqNext(m.head))
    case DeqNext(oldHead) =>
      var next := Load(m, oldHead.addr).next;
      Goto(m, t,
           if m.variant.ManyConsumers? then (if next.addr == NULL then DeqHead else ManyPeek(oldHead, next))
           else (if next.addr == NULL then Idle(Empty) else SoloCas(oldHead, next)))
    case SoloCas(oldHead, next) =>
      if m.head == oldHead then Goto(m.(head := next), t, SoloData(oldHead, next)) else Goto(m, t, DeqHead)
    case SoloData(oldHead, next) => Goto(m, t, SoloDelete(oldHead, Load(m, next.addr).data))
    case SoloDelete(oldHead, v) => Goto(m.(free := m.free + {oldHead.addr}), t, SoloCount(v))
    case SoloCount(v) => Goto(m.(count := (m.count - 1) % TWO32), t, Idle(Got(v)))
    case ManyPeek(oldHead, next) => Goto(m, t, ManyCas(oldHead, next, Load(m, next.addr).data))
    case ManyCas(oldHead, next, v) =>
      if m.head == oldHead then Goto(m.(head := next), t, ManyFree(oldHead, v)) else Goto(m, t, DeqHead)
    case ManyFree(oldHead, v) => Goto(m.(free := m.free + {oldHead.addr}), t, Idle(Got(v)))
  }

  /** What the constructors build: one dummy node, head and tail on it, everything else released. */
  ghost predicate Init(m: Machine) {
    && m.head == m.tail && m.head.tag == 0 && m.head.addr in m.heap && m.head.addr != NULL
    && m.heap[m.head.addr].next == ZERO
    && m.index == 0 && m.count == 0
    && NULL !in m.heap && m.free == m.heap.Keys - {m.head.addr}
    && forall t :: t in m.threads ==> m.threads[t] == Idle(Ready)
  }
}
