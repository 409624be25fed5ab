# Verified model of the server's lock-free containers and byte ring

The IOCP game server passes sessions, jobs and packets between its threads through four containers:
a tagged Treiber stack (`LockFreeStack`), two linked queues (`MPSCQueue` for one consumer,
`LockFreeQueue` for many) and a byte ring (`RingBuffer`). This project models them in Dafny and
proves that they do what the server uses them for. `dafny verify dfyconfig.toml` checks everything.

## How it is built

| files | content |
|---|---|
| `Words` | the `NodePtr` union (17-bit tag, 47-bit address), 32- and 64-bit counters, arithmetic of tags |
| `Journals` | what callers see: calls with their start, end and answer, and the events by which they take effect; when a journal is linearized; sequential stacks and queues to compare with |
| `StackMachine`, `QueueMachine` | each container as a step machine: one step per shared read, write, increment or compare-exchange; any number of threads, each with a program counter and locals; any interleaving |
| `StackInvariant`, `QueueInvariant` | history variables (which no step reads) and the global invariant |
| `StackSteps`, `QueueSteps` | every step keeps the invariant |
| `StackJournal`, `QueueJournal` | the journal of a run, written from what the machine does alone; every step keeps it right |
| `StackTheorems`, `QueueTheorems`, `QueueProgress` | what follows for whole runs: linearizability, conservation, counting, progress |
| `QueueGuard` | what one thread's step leaves alone; what the full allocator guard adds |
| `QueueMemory` | which addresses the queue threads go through, and what keeps them within the nodes |
| `StackWindow`, `QueueWindow`, `QueueScenarios` | concrete runs showing that the assumptions cannot be dropped, and what happens without them |
| `StackObject`, `QueueObject` | the classes in the source's own form: shared fields updated in place by CAS loops; every method is tied to the step machine |
| `RingSpec`, `RingBuffer`, `RingRuns` | the ring as a bounded byte sequence, the class over one array that refines it, and whole runs of it |
| `RingConcurrent` | one producer and one consumer on a ring, byte step by byte step |
| `RingService` | what one Enqueue and one Dequeue are sure to do there while the other side runs |

In the stack a *cell* is one incarnation of a node: an address together with the unbounded value of
`index` that produced its tag. In the queues the *chain* is the list of all nodes ever linked, and head
and tail are positions in it. Refinement is stated on memory itself: `MemoryHolds` says which sequence of
values the list from Top, or from head, carries.

An *event* is written when the machine wins a Top, link or head CAS, or when the one consumer of `MPSCQueue`
reads a null successor. It names the call it belongs to and the value in the node concerned, or copied
before the CAS; the history variables have no part in it. A journal is *linearized* when every call that
returned has one event of its own between its start and its end that fits its answer, and every event belongs
to a call. Whether the order of events is one a sequential container allows is then a matter of proof
(`ReplayStack`, `ReplayQueue`). A Pop that returns 0 and a Dequeue of `LockFreeQueue` that returns -1 because
of `count` have no event; what they mean is stated separately.

The class methods have a `schedule` of actions that the other threads are still going to take. After
each shared access of the running call, every CAS included, an arbitrary part of the schedule is taken. (A
method whose name ends in `AtOnce` is the atomic part of the one that follows it.) A bound such as
`attempts + |schedule| <= old(|schedule|) + 1` therefore reads: at most one attempt more than there was
interference; the ghost field `tries` counts the compare-exchanges themselves, and the attempts are their number.

## What is assumed

- Single accesses are atomic and sequentially consistent.
- Stack: memory of the pool stays readable, but a pooled node may be reissued at once and overwritten at
  will. Safety is proved for runs in which, at each CAS of Top by a Pop, fewer than 2^17 increments of
  `index` have happened since the one that stamped the node it read (`StackSteps.InWindow`). The window
  starts when the node was stamped, not when Pop read it: a node may lie deep in the stack for long.
- Queues: Dequeue releases the old dummy without looking whether `tail` still points at it, so the allocator
  has to leave some released nodes alone. The guard `QueueMachine.Unpinned` is small: not the node whose
  address `tail` holds, and not the node a producer is about to link behind, between its read of `tail` and
  its CAS of that node's `next` (the points `EnqNext` and `EnqLink`). Each of these is needed
  (`QueueScenarios.SelfLoopWithoutGuard`, `QueueScenarios.LostWithoutPin`). At all other points (the help and
  swing CAS of tail, the reads and the head CAS of Dequeue) the node may be reissued and the tags protect
  the CAS, as long as it is *in reach*: the node seen is still there, or fewer than 2^17 increments have
  happened since it was stamped (`QueueSteps.CasInReach`). Under the full guard `QueueMachine.Unreferenced`,
  which covers every point, all CASes are in reach whatever the tags, and nothing more is asked of the
  allocator's tidiness below. The queue class is under the full guard.
- Queues, memory: released nodes stay readable, and a producer's CAS into one is not an error. For
  `LockFreeQueue` the pool provides for that; MPSCQueue.h:112 is a `delete`, so there it is an assumption on the
  heap, and it is used: `QueueMemory.TouchesReleased` gives the only points at which a thread goes through a
  released node, and `QueueScenarios.VictimTouchesReleased` a run that reaches one. The tags do not protect
  LockFreeQueue.h:131, which follows the word read at line 123 before any CAS can reject it. So under the small
  guard the allocator must also be *tidy* (`QueueMemory.Tidy`): while a dequeuer is about to read the successor
  of a released node, it leaves there null or the address of a node. `QueueMemory.TidyExactly` says that this is
  exactly what is needed, and `QueueScenarios.FollowsNoNode` shows what happens otherwise. Neither the full
  guard nor `MPSCQueue` needs it.
- `MPSCQueue` has one consumer, as README.md:81-83 of the repository asks.
- Ring: the buffer size is between 1 and the largest `int`, both indices start at 0 and stay below it
  (RingBuffer.h is not part of this model). The caller's buffer is long enough for the bytes
  moved and is not the ring's own storage.
- The pool and the allocator always have a node to hand out.

## Where the code falls short of what one might expect

- The tag window of the stack is tight: one increment more and a Pop puts a node that lies in the pool on
  Top, in a run whose every other CAS was inside the window (`StackWindow.WindowIsTight`); with one more Pop
  the events are no history of a stack (`StackWindow.NoStackOutsideTheWindow`). When a Pop CAS succeeds at
  all, window or not, is given exactly by `StackSteps.CasMatchesExactly`.
- A Pop can return 0 while the stack holds a value (`StackWindow.NoCountWhileNotEmpty`). It does so exactly
  when every node is reserved or uncounted (`StackTheorems.NoCountMeansAllSpokenFor`), and the stack is then
  empty exactly when no Push and no Pop is between its two halves (`StackTheorems.NoCountMeansEmptyExactly`).
- The window of the queues is tight as well: with a tail CAS one increment out of reach, and everything else
  as assumed, tail is taken off the list to a released node (`QueueWindow.TailWindowIsTight`). When a CAS of
  head or tail matches at all is given exactly by `QueueSteps.WordsMatchExactly`.
- A stale dequeuer of `LockFreeQueue` can follow a word that leads to no node
  (`QueueScenarios.FollowsNoNode`), and a producer of either queue can go through a node that was released
  (`QueueScenarios.VictimTouchesReleased`).
- The self-loop that README.md:75-77 of the repository reports: head can overtake tail, the consumer
  then releases the node that tail points at, and an Enqueue that is handed that node links it to itself
  (`QueueScenarios.SelfLoopWithoutGuard`). An Enqueue that runs alone makes its node its own successor if
  and only if the allocator gave it the node that tail points at
  (`QueueScenarios.SelfLoopExactlyWhenTailIsReissued`).
- `LockFreeQueue::Dequeue` can return -1 while the queue holds an element
  (`QueueScenarios.RefusedWhileNotEmpty`). It returns -1 exactly when the reservations have used up the
  counted enqueues, on an empty queue or not (`QueueTheorems.RefusedMeansAllReserved`); and a -1 means that
  the queue is empty exactly when no enqueue is linked but uncounted and no dequeue has reserved without
  removing (`QueueTheorems.RefusedMeansEmptyExactly`). In `MPSCQueue` -1 always means empty.
- `RingBuffer::Dequeue` reads the used size twice. With a concurrent producer it can hand out more bytes
  than were asked for. Whatever the producer is in the middle of when Dequeue is called, some interleaving
  does it exactly if the request is for at least one byte, for less than the ring can hold, for no less than
  is there, and, if nothing is there, for no less than is on its way
  (`RingConcurrent.DequeueExceedsExactly`).
- `MoveHead` and `MoveTail` accept negative sizes. They then lose or repeat bytes, except when the move
  wraps the 64-bit index and lands on the same cell (`RingRuns.OpConservesExactly`); a run conserves bytes
  from beginning to end exactly when it contains no other negative move (`RingRuns.RunConservesExactly`).

## Model

| member | source | states |
|---|---|---|
| Words.RawRoundTrip | IOCP Server/IOCPTCPFighter/LockFreeStack.h:10-17 | packing tag and address into `raw` loses nothing: the low 17 bits are the tag, the 47 bits above the address, and only the null word is 0 |
| Words.RawCovers | IOCP Server/IOCPTCPFighter/MPSCQueue.h:6-13 | every 64-bit integer is the `raw` of a tag and an address |
| Words.RawEquality | IOCP Server/IOCPTCPFighter/MPSCQueue.h:6-13 | comparing `raw`, as every CAS does, is comparing both fields |
| Words.TagIsMasked | IOCP Server/IOCPTCPFighter/LockFreeStack.h:47 | the tag is what the mask 0x1FFFF leaves of the index: below 2^17 the index itself, and otherwise less by whole multiples of 2^17 |
| Words.SignedOfWrapped | IOCP Server/IOCPTCPFighter/LockFreeStack.h:74-110 | the signed view of a wrapped 32-bit counter is the one 32-bit integer that differs from what was counted by a multiple of 2^32 |
| Words.SameTagInWindow | IOCP Server/IOCPTCPFighter/LockFreeStack.h:47 | equal tags less than 2^17 increments apart come from one increment |
| Words.SameTagExactly | IOCP Server/IOCPTCPFighter/LockFreeStack.h:47 | two increments give the same tag if and only if they lie whole tag cycles apart |
| Words.TagOfWrapped | IOCP Server/IOCPTCPFighter/LockFreeStack.h:114 | the wrap of the index field, of 32 or 64 bits, does not disturb the tags |
| StackSteps.InitInv | IOCP Server/IOCPTCPFighter/LockFreeStack.h:26-35 | the state the constructor builds satisfies the invariant |
| StackSteps.StepKeeps | IOCP Server/IOCPTCPFighter/LockFreeStack.h:36-107 | every step of every thread, and every overwriting of pooled nodes, keeps the invariant inside the tag window |
| StackSteps.MatchIsTheSeenTop | IOCP Server/IOCPTCPFighter/LockFreeStack.h:79-93 | ABA safety: inside the window a winning Pop CAS finds the very incarnation it read on top, and installs the word of the cell below it |
| StackSteps.CasMatchesExactly | IOCP Server/IOCPTCPFighter/LockFreeStack.h:89-93 | with or without the window a Pop CAS wins if and only if the top cell has the read address and a stamp whole tag cycles away; a wrong win needs 2^17 increments |
| StackSteps.ReservedPopFindsTop | IOCP Server/IOCPTCPFighter/LockFreeStack.h:79-84 | a Pop that passed the count check never finds Top null |
| StackTheorems.RunKeepsInv | IOCP Server/IOCPTCPFighter/LockFreeStack.h:36-107 | the invariant holds after every run inside the window |
| StackTheorems.StackInMemory | IOCP Server/IOCPTCPFighter/LockFreeStack.h:53-61 | following `next` from Top gives the abstract stack: finite, ends in null, no node twice, no pooled node, the right values |
| StackTheorems.OneHome | IOCP Server/IOCPTCPFighter/LockFreeStack.h:44-107 | each node is in the pool, in the stack or in one thread's hands, and in one of them only |
| StackTheorems.EachPushOnce | IOCP Server/IOCPTCPFighter/LockFreeStack.h:47-106 | each stamped push is waiting, stacked, taken or delivered, in one of these only, and is delivered at most once |
| StackTheorems.StepRefines | IOCP Server/IOCPTCPFighter/LockFreeStack.h:57-61 | on memory: a step pushes its value onto the list from Top exactly when it wins the Push CAS; it takes the top value off exactly when it wins the Pop CAS, and that value lies in the node it then holds; otherwise the list carries the same values |
| StackTheorems.PopReturnsWhatItTook | IOCP Server/IOCPTCPFighter/LockFreeStack.h:94-106 | a Pop returns the value it took at its CAS, and that delivery is new |
| StackTheorems.TakenIsStable | IOCP Server/IOCPTCPFighter/LockFreeStack.h:89-105 | no other thread disturbs what a Pop has taken before it returns: neither its locals nor the node and its value in memory, nor is the node released |
| StackTheorems.RunRefinesStack | IOCP Server/IOCPTCPFighter/LockFreeStack.h:36-107 | linearizability: after every run inside the window each call that returned took effect at one event of its own within its interval and answered with that value, the events are a legal history of a sequential stack, memory holds what they lead to, and no reserved Pop came back empty; every address a thread goes through is that of a node |
| StackTheorems.HoldsExactly | IOCP Server/IOCPTCPFighter/LockFreeStack.h:53-61 | the list in memory from Top carries the abstract stack, and no other sequence of values |
| StackTheorems.InvTouchesNodes | IOCP Server/IOCPTCPFighter/LockFreeStack.h:45-105 | every address a thread's next step goes through is that of a node |
| StackTheorems.StepTouchesNoOther | IOCP Server/IOCPTCPFighter/LockFreeStack.h:45-105 | a step depends on the content of no other node, changes no other and gives no other back |
| StackTheorems.CountAccounts | IOCP Server/IOCPTCPFighter/LockFreeStack.h:63-77 | count plus reserved Pops plus uncounted Pushes is the chain length modulo 2^32, and the last two never exceed it |
| StackTheorems.NoCountMeansAllSpokenFor | IOCP Server/IOCPTCPFighter/LockFreeStack.h:73-77 | Pop returns 0 for want of count if and only if every node is reserved or uncounted |
| StackTheorems.NoCountMeansEmptyExactly | IOCP Server/IOCPTCPFighter/LockFreeStack.h:63-77 | a 0 for want of count means that the stack is empty if and only if no Push is linked but uncounted and no Pop has reserved without removing |
| StackTheorems.QuietSize | IOCP Server/IOCPTCPFighter/LockFreeStack.h:108-111 | with no call in flight, count is the number of elements |
| StackTheorems.FailuresArePaidFor | IOCP Server/IOCPTCPFighter/LockFreeStack.h:53-93 | over any run a thread loses no more Top CASes than others win: at most k + 1 attempts against k wins |
| StackTheorems.ReservationFailuresArePaidFor | IOCP Server/IOCPTCPFighter/LockFreeStack.h:73-77 | the reservation loop repeats only when another thread changed count |
| StackWindow.SpinIndex | IOCP Server/IOCPTCPFighter/LockFreeStack.h:47 | k Push/Pop rounds on a spare node advance the index by k and change nothing else |
| StackWindow.WindowIsTight | IOCP Server/IOCPTCPFighter/LockFreeStack.h:79-93 | one increment outside the window a Pop can put a pooled node on Top |
| StackWindow.NoStackOutsideTheWindow | IOCP Server/IOCPTCPFighter/LockFreeStack.h:79-94 | after it, one more Pop gives a sequence of events that no sequential stack can produce |
| StackWindow.NoCountWhileNotEmpty | IOCP Server/IOCPTCPFighter/LockFreeStack.h:57-77 | a run in which Pop returns 0 and the stack holds a value |
| StackObject.LockFreeStack.constructor | IOCP Server/IOCPTCPFighter/LockFreeStack.h:26-35 | an empty stack in a state that satisfies the invariant |
| StackObject.LockFreeStack.LinkTop | IOCP Server/IOCPTCPFighter/LockFreeStack.h:57-61 | the CAS wins if and only if Top is what was read; a win makes the next event this call's push; other threads may run before the call goes on |
| StackObject.LockFreeStack.LinkLoop | IOCP Server/IOCPTCPFighter/LockFreeStack.h:53-61 | the loop ends with this call's push among the events since it began, after at most one attempt more than the interference |
| StackObject.LockFreeStack.Push | IOCP Server/IOCPTCPFighter/LockFreeStack.h:36-64 | under interference between any two accesses Push returns with one event of its own call, between its start and its end, that pushes its value |
| StackObject.LockFreeStack.ReadCount | IOCP Server/IOCPTCPFighter/LockFreeStack.h:74-76 | the early return is taken if and only if every node is spoken for |
| StackObject.LockFreeStack.RemoveTop | IOCP Server/IOCPTCPFighter/LockFreeStack.h:89-93 | the CAS wins if and only if Top is what was read; a win makes the next event this call's removal of the cell it holds; other threads may run before the call goes on |
| StackObject.LockFreeStack.RemoveLoop | IOCP Server/IOCPTCPFighter/LockFreeStack.h:79-93 | inside the window the loop never leaves through its null test and ends with this call's removal among the events since it began, after at most one attempt more than the interference |
| StackObject.LockFreeStack.TakeAway | IOCP Server/IOCPTCPFighter/LockFreeStack.h:94-106 | the value returned is that of the cell removed |
| StackObject.LockFreeStack.Pop | IOCP Server/IOCPTCPFighter/LockFreeStack.h:65-107 | a value returned is that of the one event of this very call, between its start and its end; nothing is returned only for want of count |
| StackObject.LockFreeStack.GetSize | IOCP Server/IOCPTCPFighter/LockFreeStack.h:108-111 | in any state the number of elements, less the nodes reserved and the links not counted, modulo 2^32 and exactly below 2^31; exact when no call is in flight |
| QueueSteps.InitInv | IOCP Server/IOCPTCPFighter/MPSCQueue.h:22-32 | the state the constructors build satisfies the invariant |
| QueueSteps.StepKeeps | IOCP Server/IOCPTCPFighter/LockFreeQueue.h:61-143 | every step of every thread of either queue, and of the allocator under the small guard, keeps the invariant as long as the CASes of head and tail are in reach |
| QueueSteps.LinkIsAtTail | IOCP Server/IOCPTCPFighter/MPSCQueue.h:66-75 | a winning link CAS links behind the last node, and that node is the one tail points at |
| QueueSteps.TailIsSeen | IOCP Server/IOCPTCPFighter/MPSCQueue.h:73-79 | a winning tail CAS in reach moves tail to the true next node of the chain |
| QueueSteps.WordsMatchExactly | IOCP Server/IOCPTCPFighter/MPSCQueue.h:73-79 | when the word a thread saw is that of head or tail again, in reach or not: same address and a stamp whole tag cycles away; on another node only after 2^17 increments |
| QueueSteps.UnlinkIsAtHead | IOCP Server/IOCPTCPFighter/LockFreeQueue.h:121-132 | a winning head CAS in reach moves head one node on, and the value copied before it is the new dummy's |
| QueueSteps.ReservedSeesSuccessor | IOCP Server/IOCPTCPFighter/LockFreeQueue.h:113-129 | a dequeuer with a reservation reads a null successor only from a node that was reissued since it read head: otherwise the `continue` is unreachable |
| QueueSteps.SoloCasSucceeds | IOCP Server/IOCPTCPFighter/MPSCQueue.h:98-116 | the one consumer never loses its head CAS: the loop runs once |
| QueueSteps.ReleaseFacts | IOCP Server/IOCPTCPFighter/LockFreeQueue.h:132-136 | the node released is the removed dummy, is not free already, and the value held is the next node's |
| QueueGuard.GuardKeepsIntact | IOCP Server/IOCPTCPFighter/LockFreeQueue.h:120-138 | under the full guard every node a thread is looking at stays the one it saw |
| QueueMemory.StepKeepsSane | IOCP Server/IOCPTCPFighter/LockFreeQueue.h:120-136 | every step under the small guard, with a tidy allocator, keeps what stale dequeuers are about to follow within the nodes |
| QueueMemory.SaneTouchesNodes | IOCP Server/IOCPTCPFighter/LockFreeQueue.h:81-136 | then every address that any thread's next step goes through is that of a node |
| QueueMemory.StepTouchesNoOther | IOCP Server/IOCPTCPFighter/LockFreeQueue.h:72-136 | a step depends on the content of no node but the one it is said to go through, changes no other and gives no other back |
| QueueMemory.TidyExactly | IOCP Server/IOCPTCPFighter/LockFreeQueue.h:121-131 | a dequeuer about to read the successor of an overwritten node goes on to an address that is no node if and only if the new successor word leads out of the nodes |
| QueueMemory.TouchesReleased | IOCP Server/IOCPTCPFighter/MPSCQueue.h:62-70 | the only points at which a thread goes through a released node: a producer at the node it saw as tail, a dequeuer of LockFreeQueue before its CAS |
| QueueTheorems.RunKeepsInv | IOCP Server/IOCPTCPFighter/LockFreeQueue.h:61-143 | the invariant, a right journal and a legal order of events hold after every run whose CASes are in reach |
| QueueTheorems.GuardedRunIsInReach | IOCP Server/IOCPTCPFighter/LockFreeQueue.h:61-143 | under the full guard every CAS of every run is in reach, whatever the tags |
| QueueTheorems.ChainInMemory | IOCP Server/IOCPTCPFighter/MPSCQueue.h:62-109 | from head memory holds one acyclic chain without self-loop or released node; tail is its last node or the one before; head is at most one past tail |
| QueueTheorems.NextChangesOnce | IOCP Server/IOCPTCPFighter/MPSCQueue.h:69-80 | the `next` of a linked node, before head or after it, changes at most once, from null, at the tail by a winning link CAS, and its value never, until the allocator overwrites it, which it can do only to a released node that neither tail nor a producer holds |
| QueueTheorems.StepRefines | IOCP Server/IOCPTCPFighter/LockFreeQueue.h:81-138 | on memory: a step appends its value to the list from head exactly when it wins the link CAS; it takes the front off exactly when it wins the head CAS, and that is the value it has copied or is about to read; otherwise the list carries the same values |
| QueueTheorems.HoldsExactly | IOCP Server/IOCPTCPFighter/MPSCQueue.h:60-116 | the list in memory from head carries the abstract queue, and no other sequence of values |
| QueueTheorems.DequeueReturnsTheFront | IOCP Server/IOCPTCPFighter/MPSCQueue.h:109-114 | the value returned is that of the node the head CAS made the new dummy |
| QueueTheorems.PeekedValueIsFront | IOCP Server/IOCPTCPFighter/LockFreeQueue.h:131-137 | the value copied before a winning head CAS is the front of the queue |
| QueueTheorems.DequeuedExactlyOnce | IOCP Server/IOCPTCPFighter/LockFreeQueue.h:120-138 | each position head has passed is delivered once with the value linked there, or in one dequeuer's hands; the others are neither |
| Journals.ReplayIsFifo | IOCP Server/IOCPTCPFighter/LockFreeQueue.h:81-138 | in a legal queue history the values put are the values taken, in order, followed by what is left |
| Journals.RealTimeOrder | IOCP Server/IOCPTCPFighter/LockFreeQueue.h:61-143 | if one call returned before another began, it took effect first |
| QueueTheorems.RunIsFifo | IOCP Server/IOCPTCPFighter/MPSCQueue.h:60-116 | linearizability with a tidy allocator under the small guard: each call that returned took effect at one event of its own within its interval and answered with that value, the -1 of MPSCQueue included; the values taken are a prefix of the values put; memory holds exactly the rest; and every address a thread goes through is that of a node |
| QueueTheorems.SoloRunIsFifo | IOCP Server/IOCPTCPFighter/MPSCQueue.h:47-117 | the same for MPSCQueue without asking the allocator to be tidy |
| QueueTheorems.GuardedRunIsFifo | IOCP Server/IOCPTCPFighter/LockFreeQueue.h:61-143 | the same under the full guard with no assumption on tags or tidiness; and no dequeuer with a reservation sees a null successor |
| QueueJournal.EmptyMeansEmpty | IOCP Server/IOCPTCPFighter/MPSCQueue.h:102-108 | the single consumer gets -1 if and only if the queue is empty when it reads the successor |
| QueueTheorems.RefusedMeansAllReserved | IOCP Server/IOCPTCPFighter/LockFreeQueue.h:102-117 | -1 is returned if and only if the reservations so far equal the completed count increments |
| QueueTheorems.RefusedMeansEmptyExactly | IOCP Server/IOCPTCPFighter/LockFreeQueue.h:102-117 | a -1 means that the queue is empty if and only if no enqueue is linked but uncounted and no dequeue has reserved without removing |
| QueueTheorems.ReservationsAreCovered | IOCP Server/IOCPTCPFighter/LockFreeQueue.h:102-117 | count plus reservations plus uncounted links is the length modulo 2^32, and the last two never exceed it |
| QueueTheorems.SizeIsWithinWindow | IOCP Server/IOCPTCPFighter/MPSCQueue.h:82-121 | count lies between the length minus the uncounted producers and the length plus one |
| QueueTheorems.QuietBooks | IOCP Server/IOCPTCPFighter/MPSCQueue.h:118-121 | with no call in flight count is the length, in both queues |
| QueueTheorems.SizeMeans | IOCP Server/IOCPTCPFighter/MPSCQueue.h:118-121 | in any state of either queue count is the length corrected by the calls in flight, modulo 2^32 and exactly below 2^31 |
| QueueProgress.LossMeansGrowth | IOCP Server/IOCPTCPFighter/MPSCQueue.h:66-75 | a lost link CAS means another node was linked since the read |
| QueueProgress.HelpAdvances | IOCP Server/IOCPTCPFighter/MPSCQueue.h:77-80 | after a helping pass tail is past the node it was read at |
| QueueProgress.EnqueuePassesAreBounded | IOCP Server/IOCPTCPFighter/LockFreeQueue.h:81-100 | against k links by others Enqueue needs at most 2k + 2 passes |
| QueueProgress.LostUnlinksArePaidFor | IOCP Server/IOCPTCPFighter/LockFreeQueue.h:120-138 | a dequeuer loses no more head CASes than others win |
| QueueScenarios.SelfLoopExactlyWhenTailIsReissued | README.md:75-77 | an Enqueue alone, handed a released node, ties it to itself if and only if tail points at it |
| QueueScenarios.HeadOvertakesTail | IOCP Server/IOCPTCPFighter/MPSCQueue.h:69-112 | the consumer can move head past a tail that was not swung yet |
| QueueScenarios.SelfLoopWithoutGuard | IOCP Server/IOCPTCPFighter/MPSCQueue.h:112 | the node tail points at can be released, and reissuing it creates the self-loop |
| QueueScenarios.LostWithoutPin | IOCP Server/IOCPTCPFighter/MPSCQueue.h:62-75 | if the node a producer is about to link behind is reissued, before or after the read of its successor, the producer's Enqueue returns and its value is not in the queue |
| QueueScenarios.VictimTouchesReleased | IOCP Server/IOCPTCPFighter/MPSCQueue.h:62-112 | a run in which a producer is about to go through a node that the consumer has released |
| QueueScenarios.FollowsNoNode | IOCP Server/IOCPTCPFighter/LockFreeQueue.h:121-131 | a run under the small guard in which an untidy allocator leads a stale dequeuer to an address that is no node |
| QueueScenarios.RefusedWhileNotEmpty | IOCP Server/IOCPTCPFighter/LockFreeQueue.h:102-117 | a run in which Dequeue returns -1 and the queue holds an element |
| QueueWindow.TailWindowIsTight | IOCP Server/IOCPTCPFighter/MPSCQueue.h:69-79 | one increment out of reach a swing of tail can win and take tail off the list to a released node |
| QueueObject.LinkedQueue.constructor | IOCP Server/IOCPTCPFighter/LockFreeQueue.h:32-47 | an empty queue in a state that satisfies the invariant |
| QueueObject.LinkedQueue.LinkNext | IOCP Server/IOCPTCPFighter/MPSCQueue.h:69-70 | the CAS wins if and only if `next` is what was read; a win makes the next event this call's; other threads may run before tail is swung |
| QueueObject.LinkedQueue.HelpTail | IOCP Server/IOCPTCPFighter/MPSCQueue.h:79 | without interference tail comes one node closer to the end if and only if it is where it was read |
| QueueObject.LinkedQueue.LinkLoop | IOCP Server/IOCPTCPFighter/LockFreeQueue.h:81-100 | the loop ends with this call's Put among the events since it began, after at most 2k + 2 passes against k steps of interference |
| QueueObject.LinkedQueue.Enqueue | IOCP Server/IOCPTCPFighter/MPSCQueue.h:47-83 | under interference between any two accesses Enqueue returns with one event of its own call, between its start and its end, that puts its value |
| QueueObject.LinkedQueue.SoloUnlinkLoop | IOCP Server/IOCPTCPFighter/MPSCQueue.h:98-109 | without a loop: the first pass adds this call's event, which finds the queue empty or takes its front |
| QueueObject.LinkedQueue.SoloDequeue | IOCP Server/IOCPTCPFighter/MPSCQueue.h:85-117 | a value returned is that of the one event of this very call; with -1 that event found the queue empty |
| QueueObject.LinkedQueue.ReadCount | IOCP Server/IOCPTCPFighter/LockFreeQueue.h:114-116 | the early return is taken if and only if everything counted is reserved |
| QueueObject.LinkedQueue.ManyReadNext | IOCP Server/IOCPTCPFighter/LockFreeQueue.h:123-129 | the successor is never null |
| QueueObject.LinkedQueue.ManyUnlinkLoop | IOCP Server/IOCPTCPFighter/LockFreeQueue.h:120-138 | the loop ends with this call's removal of the front among the events since it began, after at most one attempt more than the interference |
| QueueObject.LinkedQueue.ManyDequeue | IOCP Server/IOCPTCPFighter/LockFreeQueue.h:105-143 | with a reservation Dequeue always returns a value, that of the one event of this very call |
| QueueObject.LinkedQueue.GetSize | IOCP Server/IOCPTCPFighter/MPSCQueue.h:118-121 | the length, corrected by exactly the operations in flight; exact when there are none |
| RingSpec.StoreAppends | IOCP Server/IOCPTCPFighter/RingBuffer.cpp:96-106 | writing from tail on, wrapping, appends to the byte sequence |
| RingSpec.DropRemoves | IOCP Server/IOCPTCPFighter/RingBuffer.cpp:130-140 | moving head removes the oldest bytes |
| RingSpec.ExposeAppends | IOCP Server/IOCPTCPFighter/RingBuffer.cpp:234-247 | moving tail appends the bytes that lie behind it |
| RingSpec.DirectCopyIsStore | IOCP Server/IOCPTCPFighter/RingBuffer.cpp:234-257 | a block copy to the tail pointer plus MoveTail is an Enqueue |
| RingSpec.StoreInPieces | IOCP Server/IOCPTCPFighter/RingBuffer.cpp:96-106 | two Enqueues are one Enqueue of the concatenation |
| RingSpec.TwoDirectCopiesAreOneEnqueue | IOCP Server/IOCPTCPFighter/RingBuffer.cpp:187-257 | zero copy: two direct segments reach the very state, bytes and indices, of one Enqueue of the concatenation |
| RingSpec.TwoDirectWritesFill | IOCP Server/IOCPTCPFighter/RingBuffer.cpp:187-204 | two direct-size and MoveTail rounds fill the ring, whatever the wrap |
| RingSpec.TwoDirectReadsDrain | IOCP Server/IOCPTCPFighter/RingBuffer.cpp:206-217 | two direct-size and MoveHead rounds drain it |
| RingBuffers.RingBuffer.constructor | IOCP Server/IOCPTCPFighter/RingBuffer.cpp:9-13 | an empty ring of the given size with both indices at 0, free in one piece |
| RingBuffers.RingBuffer.GetBufferSize | IOCP Server/IOCPTCPFighter/RingBuffer.cpp:52-55 | the size of the allocation |
| RingBuffers.RingBuffer.GetUseSize | IOCP Server/IOCPTCPFighter/RingBuffer.cpp:57-65 | the number of unread bytes |
| RingBuffers.RingBuffer.GetFreeSize | IOCP Server/IOCPTCPFighter/RingBuffer.cpp:67-73 | one less than the allocation minus the unread bytes |
| RingBuffers.RingBuffer.Enqueue | IOCP Server/IOCPTCPFighter/RingBuffer.cpp:75-108 | appends exactly min(size, free) bytes of the request; the whole new state is given |
| RingBuffers.RingBuffer.Dequeue | IOCP Server/IOCPTCPFighter/RingBuffer.cpp:110-143 | hands out and removes exactly the min(size, use) oldest bytes; the rest of both buffers is untouched |
| RingBuffers.RingBuffer.Peek | IOCP Server/IOCPTCPFighter/RingBuffer.cpp:145-178 | the bytes of Dequeue with the ring unchanged |
| RingBuffers.RingBuffer.ClearBuffer | IOCP Server/IOCPTCPFighter/RingBuffer.cpp:180-184 | nothing is left to read and the whole ring is free |
| RingBuffers.RingBuffer.DirectEnqueueSize | IOCP Server/IOCPTCPFighter/RingBuffer.cpp:187-204 | bytes that are free and lie before the end of the allocation: all that are free, or all up to the end |
| RingBuffers.RingBuffer.DirectDequeueSize | IOCP Server/IOCPTCPFighter/RingBuffer.cpp:206-217 | bytes that are unread and lie before the end of the allocation: all that are unread, or all up to the end |
| RingBuffers.RingBuffer.MoveHead | IOCP Server/IOCPTCPFighter/RingBuffer.cpp:219-232 | removes exactly `size` bytes or refuses; what a negative size does to the index is stated too |
| RingBuffers.RingBuffer.MoveTail | IOCP Server/IOCPTCPFighter/RingBuffer.cpp:234-247 | accepts exactly the `size` bytes behind tail or refuses; likewise |
| RingBuffers.NegativeMoveHeadUnreads | IOCP Server/IOCPTCPFighter/RingBuffer.cpp:219-232 | a negative MoveHead brings read bytes back to the front |
| RingBuffers.MovedBelowZero | IOCP Server/IOCPTCPFighter/RingBuffer.cpp:229 | a move below cell 0 lands where the 64-bit index, wrapped at 2^64, falls on the ring |
| RingBuffers.PeekThenMoveHead | IOCP Server/IOCPTCPFighter/RingBuffer.cpp:145-232 | Peek then MoveHead gives the bytes and the state of Dequeue |
| RingRuns.OpConserves | IOCP Server/IOCPTCPFighter/RingBuffer.cpp:75-247 | what an operation removes followed by what is left is what was there followed by what it inserts |
| RingRuns.OpConservesExactly | IOCP Server/IOCPTCPFighter/RingBuffer.cpp:219-247 | bytes are conserved if and only if no move is negative, but for moves that land on the same cell |
| RingRuns.RunConserves | IOCP Server/IOCPTCPFighter/RingBuffer.cpp:75-247 | over any run without a harmful negative move the bytes removed followed by the contents are the initial contents followed by the bytes inserted |
| RingRuns.RunConservesExactly | IOCP Server/IOCPTCPFighter/RingBuffer.cpp:75-247 | over any run, negative sizes included, the bytes add up after every operation if and only if no move is negative, but for moves that land on the same cell |
| RingRuns.Perform | IOCP Server/IOCPTCPFighter/RingBuffer.cpp:75-247 | each method of the object does what the value-level operation says, hands out the very bytes and answers with their number |
| RingRuns.PerformAll | IOCP Server/IOCPTCPFighter/RingBuffer.cpp:75-247 | conservation on the object, for the bytes really handed out over any run, in particular any run without negative moves; and the used and free sizes it then answers add up to bufferSize - 1 |
| RingConcurrent.CopyDisturbsNothing | IOCP Server/IOCPTCPFighter/RingBuffer.cpp:96-105 | a byte the producer writes falls on no unread byte |
| RingConcurrent.PublishAppends | IOCP Server/IOCPTCPFighter/RingBuffer.cpp:106 | publishing tail appends exactly the copied bytes |
| RingConcurrent.ReleaseRemoves | IOCP Server/IOCPTCPFighter/RingBuffer.cpp:140 | publishing head removes exactly the bytes copied out, and delivers them |
| RingConcurrent.RunKeepsInv | IOCP Server/IOCPTCPFighter/RingBuffer.cpp:75-143 | the producer/consumer invariant holds after every interleaving |
| RingConcurrent.DeliveredIsPrefix | IOCP Server/IOCPTCPFighter/RingBuffer.cpp:75-143 | the bytes delivered are always a prefix of the bytes accepted, and the rest lies in the ring, whose size never changes |
| RingService.DequeueServes | IOCP Server/IOCPTCPFighter/RingBuffer.cpp:110-143 | whatever the producer does, a Dequeue that has returned handed out at least min(size, use at its call) bytes, exactly the request if more were there at its call, none for a request that is not positive; and these are the bytes delivered next |
| RingService.DequeueAloneIsDrop | IOCP Server/IOCPTCPFighter/RingBuffer.cpp:110-143 | with the producer at rest it hands out exactly the first min(size, use) bytes and head moves past them |
| RingService.DequeueReturns | IOCP Server/IOCPTCPFighter/RingBuffer.cpp:110-143 | it returns after at most bufferSize + 3 steps of its own, whatever the producer does |
| RingService.EnqueueAccepts | IOCP Server/IOCPTCPFighter/RingBuffer.cpp:75-108 | whatever the consumer does, an Enqueue that has returned published the first bytes of its data: at least min(size, free at its call), at most what was asked for and the ring can hold |
| RingService.EnqueueAloneIsStore | IOCP Server/IOCPTCPFighter/RingBuffer.cpp:75-108 | with the consumer at rest it stores exactly the first min(size, free) bytes |
| RingService.EnqueueReturns | IOCP Server/IOCPTCPFighter/RingBuffer.cpp:75-108 | it returns after at most bufferSize + 3 steps of its own, whatever the consumer does |
| RingConcurrent.AlwaysInBounds | IOCP Server/IOCPTCPFighter/RingBuffer.cpp:96-135 | every index the copy loops use is in bounds |
| RingConcurrent.DequeueExceedsExactly | IOCP Server/IOCPTCPFighter/RingBuffer.cpp:110-143 | some interleaving makes a Dequeue hand out more than it was asked for if and only if it asks for at least one byte, for less than the ring can hold, for no less than is there, and, if nothing is there, for no less than an Enqueue under way will publish |
| RingConcurrent.ModestNeverExceeds | IOCP Server/IOCPTCPFighter/RingBuffer.cpp:110-143 | in all other cases no interleaving does |
| RingConcurrent.DequeueMayExceedItsRequest | IOCP Server/IOCPTCPFighter/RingBuffer.cpp:121-142 | from the cleared ring it can happen to every request that leaves room for one byte more |

## Left out

- The completion-port, socket and thread code of `GameServer.h` and `main.cpp`, and `Logging`: input, output and foreign calls.
- The pool itself and its reclaim ticks (LockFreeStack.h:28-33 and 38-43, LockFreeQueue.h:34-39 and 63-68): TLSMemoryPool.h is not part of this model; the pool is the set of free nodes with the assumptions above.
- Weak memory order and compiler reordering of the plain reads and writes.
- Destructors (MPSCQueue.h:34-45, LockFreeQueue.h:48-60), and constructors racing with operations.
- The debug check at LockFreeStack.h:100-103 compares a copy with its original, which no thread can change.
- The element type: values are integers, and a Pop that returns 0 for "empty" is kept apart from one that returns a stored 0.
- The dummy's data and the other nodes' contents are arbitrary at construction; LockFreeQueue.h:41 sets the dummy's data to 0, which nobody reads.
- Several consumers on one `MPSCQueue`, which its design excludes.
- The ring's copy constructor, assignment and `Resize` (RingBuffer.cpp:20-50): storage management that does not relinearise wrapped contents. A failed `malloc` and a buffer size of 0, which the source does not check either.
- The raw pointer getters (RingBuffer.cpp:249-262) appear only as the block copy `CopyAtTail` at the tail index.
- Unsynchronised growth of the `int` sizes past their range: buffer sizes are taken to fit an `int`.
- `Sector.h`, the sector index and the packet builders of `GameLogic.h`: short functions whose users are elsewhere.
- QueueTheorems.RunIsFifo: under the small allocator guard, for CASes in reach and a tidy allocator, because the code does not check tail before it releases a node, tags repeat, and a stale dequeuer follows what it reads; without each of these it is false, see QueueScenarios.SelfLoopWithoutGuard, QueueScenarios.LostWithoutPin, QueueWindow.TailWindowIsTight and QueueScenarios.FollowsNoNode.
- QueueTheorems.StepRefines: under the same guard and for CASes in reach, for the same reason.
- StackTheorems.RunRefinesStack: inside the tag window only, because tags repeat after 2^17 increments; outside it the events need not be a stack's, see StackWindow.NoStackOutsideTheWindow.
- QueueTheorems.GuardedRunIsFifo: gives no event to a Dequeue of `LockFreeQueue` that `count` turns away, nor does StackTheorems.RunRefinesStack to such a Pop, because neither is linearizable as "empty"; StackTheorems.NoCountMeansEmptyExactly and QueueTheorems.RefusedMeansEmptyExactly say what they mean.
- QueueTheorems.SizeIsWithinWindow: for fewer than 2^31 - 1 elements and fewer than 2^31 uncounted producers, beyond which the signed view of count wraps.
- StackTheorems.QuietSize: for fewer than 2^31 elements, for the same reason.
- StackObject.LockFreeStack.Push: the caller finds at least one node in the pool when the call begins; exhaustion of memory is not modelled.
- QueueObject.LinkedQueue.Enqueue: the same for the allocator, under its guard.
