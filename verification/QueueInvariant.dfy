/** The global invariant of the queue machine. */
module QueueInvariant {
  import opened Words
  import opened QueueMachine

  /** A node that was linked once. `stamp` is the unbounded value of `index` whose low 17 bits became
      its tag; the first dummy has stamp 0. */
  datatype Cell = Cell(addr: Addr, stamp: nat, value: Value)

  /** The tagged word that leads to a node. */
  function WordOf(c: Cell): Word {
    Word(Tag(c.stamp), c.addr)
  }

  /** Whose a stamp is: a producer's that has not linked its node yet, or a chain position's. */
  datatype Stamp = Waiting(t: Tid) | Linked(position: nat)

  /** What an address holds: `At(i)` says the node at chain position `i` lies there unharmed. */
  datatype Place = Pool | Hand(t: Tid) | At(position: nat)

  /** What became of the node at a position: still reachable from head, unlinked and about to be
      released by the thread that moved head past it, or released. */
  datatype Fate = Live | Removing(t: Tid) | Released(delivery: nat)

  /** A value handed to the caller of Dequeue, and the chain position it was linked at. */
  datatype Delivery = Delivery(position: nat, value: Value)

  /** History variables; no step of the machine reads them. `chain` lists every node ever linked,
      the first dummy first. `seen[t]` is the position of the node thread `t` is looking at, `mine[t]`
      the stamp of the node it builds; `last[a]` is the newest stamp put on address `a`.
      `linked`, `reserved` and `removed` are the threads between a link, a reservation or a removal
      and the bookkeeping that completes it; `counted` and `reservations` count completed ones. */
  datatype History = History(
    chain: seq<Cell>, headPos: nat, tailPos: nat, fate: seq<Fate>,
    place: map<Addr, Place>, seen: map<Tid, nat>,
    stamps: seq<Stamp>, last: map<Addr, nat>, mine: map<Tid, nat>, delivered: seq<Delivery>,
    linked: set<Tid>, reserved: set<Tid>, removed: set<Tid>, counted: nat, reservations: nat)

  /** What the node at position `i` has in its `next` field. */
  function NextWord(chain: seq<Cell>, i: nat): Word {
    if i + 1 < |chain| then WordOf(chain[i + 1]) else ZERO
  }

  function Seen(h: History, t: Tid): nat {
    if t in h.seen then h.seen[t] else 0
  }

  function MyStamp(h: History, t: Tid): nat {
    if t in h.mine then h.mine[t] else 0
  }

  function SetFate(h: History, i: nat, f: Fate): History {
    if i < |h.fate| then h.(fate := h.fate[i := f]) else h
  }

  // ---------- how the history grows ----------

  function Record(m: Machine, h: History, act: Action): History
    requires Callable(m, act)
  {
    match act
    case BeginEnqueue(t, _, a) => h.(place := h.place[a := Hand(t)])
    case BeginDequeue(_) => h
    case Recycle(a, _) => h.(place := h.place[a := Pool])
    case Run(t) => if Enqueuing(m.threads[t]) then RecordEnqueue(m, h, t) else RecordDequeue(m, h, t)
  }

  function Look(h: History, t: Tid, i: nat): History {
    h.(seen := h.seen[t := i])
  }

  function TakeStamp(h: History, t: Tid, a: Addr): History {
    var s := |h.stamps|;
    h.(stamps := h.stamps + [Waiting(t)], last := h.last[a := s], mine := h.mine[t := s])
  }

  function RecordEnqueue(m: Machine, h: History, t: Tid): History
    requires t in m.threads && Enqueuing(m.threads[t])
  {
    match m.threads[t]
    case EnqTag(a, _) => TakeStamp(h, t, a)
    case EnqTail(_, _, _) => Look(h, t, h.tailPos)
    case EnqLink(a, v, w, oldTail, next) =>
      if Load(m, oldTail.addr).next == next then RecordLink(h, t, Cell(a, MyStamp(h, t), v)) else h
    case EnqHelp(_, _, _, oldTail, _) => if m.tail == oldTail then h.(tailPos := h.tailPos + 1) else h
    case EnqSwing(_, oldTail) => if m.tail == oldTail then h.(tailPos := h.tailPos + 1) else h
    case EnqCount => h.(linked := h.linked - {t}, counted := h.counted + 1)
    case _ => h
  }

  function RecordLink(h: History, t: Tid, c: Cell): History {
    h.(chain := h.chain + [c], fate := h.fate + [Live], place := h.place[c.addr := At(|h.chain|)],
       stamps := if c.stamp < |h.stamps| then h.stamps[c.stamp := Linked(|h.chain|)] else h.stamps,
       linked := h.linked + {t})
  }

  function RecordReserve(h: History, t: Tid): History {
    h.(reserved := h.reserved + {t}, reservations := h.reservations + 1)
  }

  function RecordDequeue(m: Machine, h: History, t: Tid): History
    requires t in m.threads && !Enqueuing(m.threads[t])
  {
    match m.threads[t]
    case ManyReserve(n) => if Signed32(m.count) == n then RecordReserve(h, t) else h
    case DeqHead => Look(h, t, h.headPos)
    case SoloCas(oldHead, _) => if m.head == oldHead then RecordSoloUnlink(h, t) else h
    case ManyCas(oldHead, _, _) => if m.head == oldHead then RecordManyUnlink(h, t) else h
    case SoloDelete(_, v) => RecordRelease(h, t, v)
    case ManyFree(_, v) => RecordRelease(h, t, v)
    case SoloCount(_) => h.(removed := h.removed - {t})
    case _ => h
  }

  function RecordUnlink(h: History, t: Tid): History {
    SetFate(h, h.headPos, Removing(t)).(headPos := h.headPos + 1)
  }

  function RecordSoloUnlink(h: History, t: Tid): History {
    RecordUnlink(h, t).(removed := h.removed + {t})
  }

  function RecordManyUnlink(h: History, t: Tid): History {
    RecordUnlink(h, t).(reserved := h.reserved - {t})
  }

  function RecordRelease(h: History, t: Tid, v: Value): History {
    SetFate(h, Seen(h, t), Released(|h.delivered|)).(delivered := h.delivered + [Delivery(Seen(h, t) + 1, v)])
  }

  // ---------- what a thread's position means to the others ----------

  /** The node only this thread may touch: allocated, not linked yet. */
  function NodeOf(l: Local): Option<Addr> {
    match l
    case EnqData(a, _) => Some(a)
    case EnqNull(a, _) => Some(a)
    case EnqTag(a, _) => Some(a)
    case EnqTail(a, _, _) => Some(a)
    case EnqNext(a, _, _, _) => Some(a)
    case EnqLink(a, _, _, _, _) => Some(a)
    case EnqHelp(a, _, _, _, _) => Some(a)
    case _ => None
  }

  datatype Account = Settled | Owes | Reserves | Overdraws

  /** Whether a thread is between a change of the chain and the matching change of `count`. */
  function AccountOf(m: Machine, l: Local): Account {
    match l
    case EnqSwing(_, _) => Owes
    case EnqCount => Owes
    case SoloData(_, _) => Overdraws
    case SoloDelete(_, _) => Overdraws
    case SoloCount(_) => Overdraws
    case DeqHead => if m.variant.ManyConsumers? then Reserves else Settled
    case DeqNext(_) => if m.variant.ManyConsumers? then Reserves else Settled
    case ManyPeek(_, _) => Reserves
    case ManyCas(_, _, _) => Reserves
    case _ => Settled
  }

  predicate IsRemoving(l: Local) {
    l.SoloData? || l.SoloDelete? || l.ManyFree?
  }

  predicate VariantOk(m: Machine, t: Tid, l: Local) {
    if Enqueuing(l) || l.Idle? then true
    else if l.DeqHead? || l.DeqNext? then MayDequeue(m, t)
    else if l.SoloCas? || l.SoloData? || l.SoloDelete? || l.SoloCount? then m.variant == SingleConsumer(t)
    else m.variant.ManyConsumers?
  }

  // ---------- the invariant, one element at a time ----------

  ghost predicate Intact(h: History, i: nat)
    requires i < |h.chain|
  {
    h.chain[i].addr in h.place && h.place[h.chain[i].addr] == At(i)
  }

  ghost predicate PlaceOk(m: Machine, h: History, a: Addr) {
    && a in h.place && a in m.heap && |h.fate| == |h.chain|
    && a in h.last && h.last[a] < |h.stamps|
    && match h.place[a]
       case Pool => a in m.free
       case Hand(t) => a !in m.free && t in m.threads && NodeOf(m.threads[t]) == Some(a)
       case At(i) =>
         && i < |h.chain| && h.chain[i].addr == a && h.last[a] == h.chain[i].stamp
         && m.heap[a] == Node(NextWord(h.chain, i), h.chain[i].value)
         && (a in m.free <==> h.fate[i].Released?)
  }

  ghost predicate PosOk(m: Machine, h: History, i: nat)
    requires i < |h.chain| == |h.fate|
  {
    var c := h.chain[i];
    && c.addr != NULL && c.addr in h.last && c.stamp <= h.last[c.addr]
    && c.stamp < |h.stamps| && h.stamps[c.stamp] == Linked(i)
    && (h.fate[i].Live? <==> h.headPos <= i)
    && (!h.fate[i].Released? || i == h.tailPos ==> Intact(h, i))
    && match h.fate[i]
       case Live => true
       case Removing(t) => t in m.threads && IsRemoving(m.threads[t]) && Seen(h, t) == i
       case Released(k) => k < |h.delivered| && h.delivered[k].position == i + 1
  }

  ghost predicate DeliveredOk(h: History, k: nat)
    requires k < |h.delivered|
  {
    var p := h.delivered[k].position;
    && 0 < p < |h.chain| == |h.fate| && h.fate[p - 1] == Released(k)
    && h.delivered[k].value == h.chain[p].value
  }

  /** The node a thread is looking at is one it really saw. */
  ghost predicate Saw(h: History, i: nat, w: Word) {
    i < |h.chain| && WordOf(h.chain[i]) == w
  }

  ghost predicate Mine(m: Machine, h: History, t: Tid, a: Addr) {
    a in m.heap && a in h.place && h.place[a] == Hand(t)
  }

  ghost predicate NextIs(h: History, i: nat, w: Word) {
    i + 1 < |h.chain| && WordOf(h.chain[i + 1]) == w
  }

  /** The word of a node not linked yet: its stamp is the newest of its address, and its own. */
  ghost predicate Stamped(h: History, t: Tid, a: Addr, w: Word) {
    var s := MyStamp(h, t);
    && w == Word(Tag(s), a) && s < |h.stamps| && h.stamps[s] == Waiting(t)
    && a in h.last && h.last[a] == s
  }

  /** What holds at a program counter beyond the common clauses of `LocalOk`. */
  ghost predicate Detail(m: Machine, h: History, t: Tid, l: Local, i: nat)
    requires |h.fate| == |h.chain|
    requires NodeOf(l).Some? ==> Mine(m, h, t, NodeOf(l).value)
    requires Looking(l).Some? ==> Saw(h, i, Looking(l).value)
  {
    match l
    case EnqNull(a, v) => m.heap[a].data == v
    case EnqTag(a, v) => m.heap[a] == Node(ZERO, v)
    case EnqTail(a, v, w) => m.heap[a] == Node(ZERO, v) && Stamped(h, t, a, w)
    case EnqNext(a, v, w, _) => m.heap[a] == Node(ZERO, v) && Stamped(h, t, a, w) && i <= h.tailPos
    case EnqLink(a, v, w, _, next) => m.heap[a] == Node(ZERO, v) && Stamped(h, t, a, w) && i <= h.tailPos && next == ZERO
    case EnqHelp(a, v, w, _, next) => m.heap[a] == Node(ZERO, v) && Stamped(h, t, a, w) && i <= h.tailPos && NextIs(h, i, next)
    case EnqSwing(w, _) => i <= h.tailPos && NextIs(h, i, w)
    case ManyReserve(n) => 0 < n < TWO31
    case DeqNext(_) => i <= h.headPos && (m.variant.SingleConsumer? ==> i == h.headPos)
    case SoloCas(_, next) => i == h.headPos && NextIs(h, i, next)
    case SoloData(_, next) => i + 1 == h.headPos && NextIs(h, i, next) && h.fate[i] == Removing(t)
    case SoloDelete(_, v) => i + 1 < |h.chain| && v == h.chain[i + 1].value && h.fate[i] == Removing(t)
    case ManyPeek(_, next) => i <= h.headPos && (i == h.headPos ==> NextIs(h, i, next))
    case ManyCas(_, next, v) => i <= h.headPos && (i == h.headPos ==> NextIs(h, i, next) && v == h.chain[i + 1].value)
    case ManyFree(_, v) => i + 1 < |h.chain| && v == h.chain[i + 1].value && h.fate[i] == Removing(t)
    case _ => true
  }

  ghost predicate LocalOk(m: Machine, h: History, t: Tid)
    requires t in m.threads
  {
    var l, i := m.threads[t], Seen(h, t);
    && |h.fate| == |h.chain|
    && VariantOk(m, t, l)
    && (t in h.linked <==> AccountOf(m, l).Owes?)
    && (t in h.reserved <==> AccountOf(m, l).Reserves?)
    && (t in h.removed <==> AccountOf(m, l).Overdraws?)
    && (NodeOf(l).Some? ==> Mine(m, h, t, NodeOf(l).value))
    && (Looking(l).Some? ==> Saw(h, i, Looking(l).value))
    && (Pinning(l).Some? ==> Intact(h, i))
    && Detail(m, h, t, l, i)
  }

  // ---------- counting ----------

  /** Elements in the queue. */
  function Length(h: History): int {
    |h.chain| - 1 - h.headPos
  }

  /** What `count` stands for: the length, corrected by the operations in flight. */
  function Balance(h: History): int {
    Length(h) - |h.linked| - |h.reserved| + |h.removed|
  }

  ghost predicate CountOk(m: Machine, h: History) {
    && m.count == Balance(h) % TWO32
    && (m.variant.SingleConsumer? ==> h.reserved == {} && h.removed <= {m.variant.consumer})
    && (m.variant.ManyConsumers? ==> h.removed == {} && 0 <= Balance(h) == h.counted - h.reservations)
  }

  // ---------- all together ----------

  ghost predicate Ends(m: Machine, h: History) {
    && h.headPos < |h.chain| == |h.fate|
    && h.tailPos < |h.chain| <= h.tailPos + 2
    && h.headPos <= h.tailPos + 1
    && m.head == WordOf(h.chain[h.headPos]) && m.tail == WordOf(h.chain[h.tailPos])
  }

  ghost predicate Shape(m: Machine, h: History) {
    && NULL !in m.heap && m.free <= m.heap.Keys && h.place.Keys == m.heap.Keys
    && Ends(m, h) && 0 < |h.stamps| && m.index == (|h.stamps| - 1) % TWO64
    && h.linked <= m.threads.Keys && h.reserved <= m.threads.Keys && h.removed <= m.threads.Keys
    && (forall a {:trigger PlaceOk(m, h, a)} :: a in m.heap ==> PlaceOk(m, h, a))
    && (forall i {:trigger PosOk(m, h, i)} :: 0 <= i < |h.chain| ==> PosOk(m, h, i))
    && (forall k {:trigger DeliveredOk(h, k)} :: 0 <= k < |h.delivered| ==> DeliveredOk(h, k))
    && CountOk(m, h)
  }

  ghost predicate Locals(m: Machine, h: History) {
    forall t {:trigger LocalOk(m, h, t)} :: t in m.threads ==> LocalOk(m, h, t)
  }

  ghost predicate Inv(m: Machine, h: History) {
    Shape(m, h) && Locals(m, h)
  }
}
