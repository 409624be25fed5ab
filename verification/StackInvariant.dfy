/** The global invariant of the stack machine. */
module StackInvariant {
  import opened Words
  import opened StackMachine

  /** One incarnation of a node: an address between one stamping and the next.
      `stamp` is the unbounded value of `index` whose low 17 bits became its tag. */
  datatype Cell = Cell(addr: Addr, stamp: nat, value: Value)

  /** Who may touch an address. A function, so each address has exactly one answer. */
  datatype Place = Pool | Hand(t: Tid) | Stack

  /** What became of a stamped incarnation. A function, so no incarnation is delivered twice. */
  datatype Fate = Pending(t: Tid) | Stacked(position: nat) | Taken(t: Tid) | Delivered(position: nat)

  /** History variables. No step of the machine reads them. `chain` lists the stack from the
      bottom up, `born[s - 1]` is the cell stamped `s`, `last[a]` the newest stamp put on `a`,
      `cells[t]` the cell that thread `t` builds, has read, or took. `reserved` holds the threads
      with a count reservation whose node is not removed yet, `linked` those that have linked a
      node and not counted it yet. */
  datatype History = History(
    chain: seq<Cell>, born: seq<Cell>, fate: seq<Fate>,
    place: map<Addr, Place>, last: map<Addr, nat>,
    cells: map<Tid, Cell>, delivered: seq<Cell>,
    reserved: set<Tid>, linked: set<Tid>)

  function WordOf(c: Cell): Word {
    Word(Tag(c.stamp), c.addr)
  }

  /** The word that leads to the cell below position `i`. */
  function Below(chain: seq<Cell>, i: nat): Word
    requires i <= |chain|
  {
    if i == 0 then ZERO else WordOf(chain[i - 1])
  }

  function CellFor(h: History, t: Tid): Cell {
    if t in h.cells then h.cells[t] else Cell(NULL, 0, 0)
  }

  function SetFate(h: History, c: Cell, f: Fate): History {
    if 1 <= c.stamp <= |h.fate| then h.(fate := h.fate[c.stamp - 1 := f]) else h
  }

  /** How the history grows when `act` is taken in `m`. */
  function Record(m: Machine, h: History, act: Action): History
    requires Enabled(m, act)
  {
    match act
    case BeginPush(t, _, a) => h.(place := h.place[a := Hand(t)])
    case BeginPop(_) => h
    case Scribble(_, _) => h
    case Run(t) => RecordRun(m, h, t)
  }

  function RecordRun(m: Machine, h: History, t: Tid): History
    requires t in m.threads
  {
    match m.threads[t]
    case PushTag(a, v) =>
      var c := Cell(a, |h.born| + 1, v);
      h.(born := h.born + [c], fate := h.fate + [Pending(t)], last := h.last[a := c.stamp], cells := h.cells[t := c])
    case PushCas(a, v, w, seen) => if m.top == seen then RecordLink(h, t, a) else h
    case PushCount => h.(linked := h.linked - {t})
    case PopReserve(n) => if Signed32(m.count) == n then h.(reserved := h.reserved + {t}) else h
    case PopTop => if h.chain == [] then h else h.(cells := h.cells[t := h.chain[|h.chain| - 1]])
    case PopCas(w, next) => if m.top == w && h.chain != [] then RecordRemove(h, t) else h
    case PopFree(a, d) =>
      var c := CellFor(h, t);
      SetFate(h, c, Delivered(|h.delivered|)).(place := h.place[a := Pool], delivered := h.delivered + [c])
    case _ => h
  }

  function RecordLink(h: History, t: Tid, a: Addr): History {
    var c := CellFor(h, t);
    SetFate(h, c, Stacked(|h.chain|)).(
      chain := h.chain + [c], place := h.place[a := Stack], linked := h.linked + {t})
  }

  function RecordRemove(h: History, t: Tid): History
    requires h.chain != []
  {
    var n := |h.chain| - 1;
    var c := h.chain[n];
    SetFate(h, c, Taken(t)).(
      chain := h.chain[..n], place := h.place[c.addr := Hand(t)],
      reserved := h.reserved - {t})
  }

  // ---------- the invariant, one element at a time ----------

  /** `c` is a cell that was stamped, and `f` is its fate. */
  ghost predicate IsBorn(h: History, c: Cell, f: Fate) {
    && 1 <= c.stamp <= |h.born| && |h.fate| == |h.born|
    && h.born[c.stamp - 1] == c && h.fate[c.stamp - 1] == f
  }

  /** An address is in the pool, in the stack or in one thread's hands. */
  ghost predicate PlaceOk(m: Machine, h: History, a: Addr) {
    && a in h.place && a in h.last && h.last[a] <= |h.born| == |h.fate|
    && (a in m.free <==> h.place[a] == Pool)
    && match h.place[a]
       case Pool => true
       case Hand(t) => t in m.threads && Owns(PhaseOf(m.threads[t]), a)
       case Stack => h.last[a] > 0 && h.born[h.last[a] - 1].addr == a && h.fate[h.last[a] - 1].Stacked?
  }

  /** A stamp is with the thread, in the chain position or in the delivery its fate names. */
  ghost predicate StampOk(m: Machine, h: History, s: nat)
    requires s < |h.born| == |h.fate|
  {
    var c := h.born[s];
    && c.stamp == s + 1
    && match h.fate[s]
       case Pending(t) => t in m.threads && PhaseOf(m.threads[t]).Waits? && CellFor(h, t) == c
       case Stacked(i) => i < |h.chain| && h.chain[i] == c
       case Taken(t) => t in m.threads && PhaseOf(m.threads[t]).Takes? && CellFor(h, t) == c
       case Delivered(i) => i < |h.delivered| && h.delivered[i] == c
  }

  /** A cell of the chain lies in memory with its value and the word of the cell below it. */
  ghost predicate ChainOk(m: Machine, h: History, i: nat)
    requires i < |h.chain|
  {
    var c := h.chain[i];
    && IsBorn(h, c, Stacked(i))
    && c.addr in m.heap && m.heap[c.addr] == Node(Below(h.chain, i), c.value)
    && c.addr in h.place && h.place[c.addr] == Stack
    && c.addr in h.last && h.last[c.addr] == c.stamp
  }

  ghost predicate DeliveredOk(h: History, i: nat)
    requires i < |h.delivered|
  {
    IsBorn(h, h.delivered[i], Delivered(i))
  }

  ghost predicate Mine(m: Machine, h: History, t: Tid, a: Addr) {
    a in m.heap && a in h.place && h.place[a] == Hand(t)
  }

  /** A stamped node that waits in its pusher's hands. */
  ghost predicate Waiting(m: Machine, h: History, t: Tid, a: Addr, v: Value, w: Word) {
    var c := CellFor(h, t);
    && IsBorn(h, c, Pending(t)) && c.addr == a && c.value == v && w == WordOf(c)
    && Mine(m, h, t, a) && m.heap[a].data == v
    && a in h.last && h.last[a] == c.stamp
  }

  /** The node a successful Pop took, with the value it was pushed with. */
  ghost predicate InHand(m: Machine, h: History, t: Tid, a: Addr) {
    var c := CellFor(h, t);
    IsBorn(h, c, Taken(t)) && c.addr == a && Mine(m, h, t, a) && m.heap[a].data == c.value
  }

  /** A cell some Pop read from Top. It was linked, so no pusher waits with it. */
  ghost predicate Observed(m: Machine, h: History, c: Cell, w: Word) {
    && 1 <= c.stamp <= |h.born| == |h.fate|
    && h.born[c.stamp - 1] == c && !h.fate[c.stamp - 1].Pending?
    && c.addr != NULL && c.addr in m.heap && c.addr in h.last && c.stamp <= h.last[c.addr]
    && w == WordOf(c)
  }

  ghost predicate LocalOk(m: Machine, h: History, t: Tid)
    requires t in m.threads
  {
    && (t in h.reserved <==> PhaseOf(m.threads[t]).Reserves?)
    && (t in h.linked <==> PhaseOf(m.threads[t]).Linked?)
    && match m.threads[t]
    case Idle(r) => !r.NoTop?
    case PushData(a, _) => Mine(m, h, t, a)
    case PushTag(a, v) => Mine(m, h, t, a) && m.heap[a].data == v
    case PushRead(a, v, w) => Waiting(m, h, t, a, v, w)
    case PushLink(a, v, w, _) => Waiting(m, h, t, a, v, w)
    case PushCas(a, v, w, seen) => Waiting(m, h, t, a, v, w) && m.heap[a].next == seen
    case PushCount => true
    case PopCheck => true
    case PopReserve(n) => 0 < n < TWO31
    case PopTop => true
    case PopNext(w) => Observed(m, h, CellFor(h, t), w)
    case PopCas(w, next) =>
      var c := CellFor(h, t);
      Observed(m, h, c, w) && (h.fate[c.stamp - 1].Stacked? ==> next == m.heap[c.addr].next)
    case PopData(a) => InHand(m, h, t, a)
    case PopFree(a, d) => InHand(m, h, t, a) && d == CellFor(h, t).value
  }

  // ---------- counting ----------

  /** Nodes of the chain that are counted and not reserved. */
  function Available(h: History): int {
    |h.chain| - |h.reserved| - |h.linked|
  }

  // ---------- all together ----------

  /** Memory, chain and bookkeeping agree. */
  ghost predicate Shape(m: Machine, h: History) {
    && NULL !in m.heap && m.free <= m.heap.Keys
    && |h.fate| == |h.born| && m.index == |h.born| % TWO32
    && m.top == Below(h.chain, |h.chain|)
    && (forall a {:trigger PlaceOk(m, h, a)} :: a in m.heap ==> PlaceOk(m, h, a))
    && (forall s {:trigger StampOk(m, h, s)} :: 0 <= s < |h.born| ==> StampOk(m, h, s))
    && (forall i {:trigger ChainOk(m, h, i)} :: 0 <= i < |h.chain| ==> ChainOk(m, h, i))
    && (forall i {:trigger DeliveredOk(h, i)} :: 0 <= i < |h.delivered| ==> DeliveredOk(h, i))
    && h.reserved <= m.threads.Keys && h.linked <= m.threads.Keys
    && 0 <= Available(h) && m.count == Available(h) % TWO32
  }

  /** Every thread's locals mean what its program counter needs them to mean. */
  ghost predicate Locals(m: Machine, h: History) {
    forall t {:trigger LocalOk(m, h, t)} :: t in m.threads ==> LocalOk(m, h, t)
  }

  ghost predicate Inv(m: Machine, h: History) {
    Shape(m, h) && Locals(m, h)
  }
}
