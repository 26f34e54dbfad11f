# Astral runtime: a verified model of its core

This project models the concurrent core of the Astral inference runtime in Dafny and proves what
that core promises:

- **Epoch reclamation** (`Epoch*.dfy`): registration, `enter`, `leave`, `defer_delete`, `collect`
  and the destructor, every shared access a step, any number of participants.
- **Queues** (`MpmcQueue`, `SlotRing`, `MpscRing`, `TicketRing`, `SpscRing`, `SpscCalls`,
  `SpscFanIn`, `FanInCalls`): the ticketed MPMC queue, the CAS ring, the ticket ring with batches,
  the single-producer ring with cached cursors, and the round-robin fan-in over the steps of several
  such rings.
- **Worker shutdown** (`WorkerPool`): the stop item behind all submitted work.
- **Handle table** (`Handles`, `HandleRace`): packing, registration, and the lookup that races with
  locked register and unregister calls.
- **Arena heap** (`SizeClass`, `ArenaState`, `ArenaHeap`, `ArenaCallers`): size classes, thread
  caches, shared free lists threaded through free memory, the bump arena and commit growth.
- **Chunking** (`SpaceScan`, `TextUnits`, `Chunks`): the eight-bytes-at-a-time space search, the
  unit scans and the chunk loops against their closed form.

## How it is built

Concurrent code is a transition system: a `State`, a set of `Action`s, a total `Step` (an action
whose guard does not hold leaves the state alone) and `Run` over a list of actions. A theorem about
`Run` therefore speaks of every interleaving of any number of threads. An invariant is split into
small predicates over values; a lemma per kind of step keeps it, `RunKeeps` carries it through all
runs, and the results are read off it. Some fields record history (what was pushed, the epochs a
scan was shown, the registrations of a slot, the registration a handle word was issued for). What
a step stores outside them and whether it can happen never depends on them.

What callers are told is stated against the schedule alone: the calls a thread began, with their
arguments, and what they returned are read off the list of actions and the thread's own position, and
each structure is proved to hold and to answer exactly that. Beside the interleavings stand calls that
nothing interrupts, with their whole effect, and bounds on the steps a call still takes.

Where the source updates objects in place, a class does the same and its methods are proved against
the functions of the transition system or against the abstract contents: retirement rings and the
collector, the queues, the rings, the handle table, the arena heap with its memory words, and the
chunk loops that fill a caller's array.

Atomic steps are sequentially consistent, spin locks are mutual exclusion, and positions and epochs
are unbounded naturals. Widths are written out where they matter: 32-bit generations and token
ranges, 64-bit handles, size arithmetic up to 2^64. Capacities are any number of slots for which the
claim holds; `RingIndex.MaskIsSlot` ties the remainder used here to the bit mask of the code.
Results of the system (whether `vm_commit` succeeds, whether a weak compare-exchange fails
spuriously) are arguments of the step.

## Findings

- A stale handle is answered again after exactly 2^32 - 1 re-registrations of its slot, and after
  every multiple of that and no other number, in a table of any size:
  `HandleRace.StaleHandleAnswered`.
- `unregister_handle` does not look at the kind bits of the handle, only at the expected kind:
  `Handles.HandleTable.UnregisterHandle` states what that clears.
- A token range is written wrongly exactly when its begin plus the chunk size reaches 2^32
  (`Chunks.TokenRangeExact`); `Chunks.WrappedTokenExample` is one.
- Words with overlap, trailing white space and a last chunk that ends with the last word produce one
  more, redundant chunk, and only they do (`Chunks.CountForWords`); `Chunks.RedundantExample` is
  "a b ".
- Sentences with overlap and something after the last of them never finish
  (`Chunks.EndlessNeverEnds`), and in all other cases the loop ends. `TextUnits.SentenceTailMeaning`
  reads the condition off the text; `Chunks.EndlessExample` is "Hi. ".

The static assertion that refuses an `MpmcQueue` of one slot is needed:
`MpmcQueue.OneSlotLosesAnItem` is a run of such a queue that overwrites an item.

## Model

| member | source | states |
|---|---|---|
| RingIndex.MaskIsSlot | src/concurrency/mpmc_queue.hpp:26-49 | For a power-of-two capacity the bit mask of a position is its slot, for every position |
| RingIndex.WindowDistinct | src/concurrency/mpmc_queue.hpp:46-88 | Positions of one window of the capacity's length occupy pairwise different slots |
| EpochProofs.StepSafe | src/concurrency/epoch.hpp:55-177 | Every step of registration, participants and collector keeps the protocol's invariant: the frontier stays under every validated reader, rings hold their unfreed entries, each pointer is in one place |
| EpochProofs.RunSafe | src/concurrency/epoch.hpp:55-305 | The invariant holds after every run |
| EpochProofs.StampKept | src/concurrency/epoch.hpp:280-299 | Reading one participant's epoch during the non-atomic scan keeps the candidate under every reader scanned so far |
| EpochProofs.FrontierKept | src/concurrency/epoch.hpp:280-305 | The frontier and the scan's candidate keep their distance from the global epoch and stay under active readers through every collector step |
| EpochProofs.ClaimIsExclusive | src/concurrency/epoch.hpp:55-84 | With registration and deregistration store by store: a slot is marked as registered only while no thread is registered, reading or retiring in it and it shows no epoch |
| EpochProofs.NoReaderHoldsFreed | src/concurrency/epoch.hpp:87-177 | Safety: in every run, no deleter has run on a pointer that a reader still inside its section has loaded |
| EpochProofs.DeletedOnce | src/concurrency/epoch.hpp:242-262 | A pointer's deleter is called at most once, and once exactly for the drained prefix of the ring that holds it |
| EpochCalls.RetiredAsAsked | src/concurrency/epoch.hpp:120-146 | In every run a ring's entries, and then the call under way, are the accepted retirements of its participant, with the pointers and deleters they were called with, in call order; accepted means nothing null, registered, and fewer than the capacity still in the ring |
| EpochCalls.DeleterIsItsOwn | src/concurrency/epoch.hpp:242-262 | The deleter about to run on a pointer is the one the pointer was retired with |
| EpochCalls.EnterAlone | src/concurrency/epoch.hpp:87-104 | A registered reader that enters undisturbed is inside and shows the global epoch |
| EpochCalls.EnterChecks | src/concurrency/epoch.hpp:98-103 | `enter` tries again exactly if the epoch has advanced since it was loaded |
| EpochCalls.LoadsAndLeaves | src/concurrency/epoch.hpp:106-113 | Inside, a reader gets any linked pointer; leaving, it shows no epoch and holds nothing |
| EpochCalls.RetireAlone | src/concurrency/epoch.hpp:120-146 | Undisturbed, a retirement with room publishes pointer, deleter and global epoch; without room it changes nothing |
| EpochCalls.RegisterAlone | src/concurrency/epoch.hpp:56-72 | Undisturbed, a registration takes the first free slot, and nothing else changes |
| EpochCalls.RegisterFails | src/concurrency/epoch.hpp:56-72 | With every slot taken it fails and changes nothing |
| EpochCalls.UnregisterAlone | src/concurrency/epoch.hpp:75-84 | A deregistration frees its slot and nothing else changes |
| EpochCalls.CollectGoesOn | src/concurrency/epoch.hpp:159-177 | No step of a collection waits: each brings it strictly closer to its end, where it counts as completed |
| EpochShutdown.DestructionCounts | src/concurrency/epoch.hpp:264-278 | The destructor's drains call the deleter once for each retirement that is left in a ring, and for nothing else |
| EpochShutdown.WholeLifeOnce | src/concurrency/epoch.hpp:43-48 | After any run and the destructor, a pointer's deleter has been called once if it was accepted for retirement and never otherwise |
| EpochGrace.NotBeforeGrace | src/concurrency/epoch.hpp:159-177 | An entry tagged r is not freed before the global epoch is r + 3 |
| EpochGrace.RetirementOrder | src/concurrency/epoch.hpp:120-146 | Tags in one ring never decrease, although the epoch is read after the room was checked |
| EpochGrace.RunLive | src/concurrency/epoch.hpp:159-305 | After every run, completed drains have taken everything their frontier covered |
| EpochGrace.FreedByFourthCollect | src/concurrency/epoch.hpp:159-305 | An entry published while n collections had started is freed by collection n + 3, unless the third scan was shown an active epoch at or under its tag |
| EpochManager.LeastIsMinimum | src/concurrency/epoch.hpp:286-299 | The least active epoch is a minimum, whatever the order of the participants |
| EpochManager.TakesExactly | src/concurrency/epoch.hpp:242-262 | With nondecreasing tags, stopping at the first entry above the frontier takes exactly the entries at or under it |
| EpochManager.RetireQueue.DeferDelete | src/concurrency/epoch.hpp:120-146 | Accepts exactly a registered caller's non-null pointer with room; the accepted entry is appended with the current epoch, a refusal changes nothing |
| EpochManager.RetireQueue.DrainThrough | src/concurrency/epoch.hpp:242-262 | Frees the longest prefix at or under the frontier, in order, in place |
| EpochManager.RetireQueue.DrainAll | src/concurrency/epoch.hpp:264-278 | Everything accepted and not yet freed is freed once, in order |
| EpochManager.CandidateIsGreatest | src/concurrency/epoch.hpp:280-299 | The scan's candidate is the greatest epoch that is three behind the new one and under every registered reader's |
| EpochManager.Collector.UpdateSafeFrontier | src/concurrency/epoch.hpp:280-305 | The frontier never falls; a new one is three epochs behind and under every registered reader the scan was shown, and no epoch with both properties is above it |
| EpochManager.Collector.Collect | src/concurrency/epoch.hpp:159-177 | Drains every ring with the frontier proved before and returns how many entries that freed, then advances the epoch, then makes the next frontier the greatest that is a grace period old and under every reader shown, unless the old one is above it; a call that finds another under way changes nothing and returns 0 |
| SlotSequence.PublishFlags | src/concurrency/mpmc_queue.hpp:54-61 | Storing a ticket's published number changes that ticket's status and no other, given two slots or more |
| SlotSequence.ReleaseFlags | src/concurrency/mpmc_queue.hpp:79-86 | Storing a ticket's released number changes that ticket's status and no other |
| MpmcQueue.StepKeeps | src/concurrency/mpmc_queue.hpp:46-88 | Every step keeps the ticket protocol's invariant |
| MpmcQueue.RunKeeps | src/concurrency/mpmc_queue.hpp:46-88 | The invariant holds after every schedule, for any capacity of two or more |
| MpmcQueue.TicketsPair | src/concurrency/mpmc_queue.hpp:46-88 | Dequeue ticket p delivers exactly the item of enqueue ticket p, as soon as its slot is released |
| MpmcQueue.DeliveredOnce | src/concurrency/mpmc_queue.hpp:68-88 | A delivered ticket is never delivered again |
| MpmcQueue.CallsTakeTickets | src/concurrency/mpmc_queue.hpp:46-69 | Ticket p is that of the p-th call begun of its kind, by the thread that called, with the item it called with |
| MpmcQueue.ReturnedIsServed | src/concurrency/mpmc_queue.hpp:46-88 | When a call has returned, its item is published, or its ticket's item was delivered |
| MpmcQueue.MutualExclusion | src/concurrency/mpmc_queue.hpp:54-86 | No two threads are ever inside the data access of the same slot |
| MpmcQueue.BlockedMeansEmptyOrFull | src/concurrency/mpmc_queue.hpp:46-88 | If all calls in progress are blocked, all are dequeues of tickets nobody enqueues or all are enqueues a full capacity ahead |
| MpmcQueue.StepsCountDown | src/concurrency/mpmc_queue.hpp:54-86 | A call that is not blocked is one step closer to its return after each step, three in all; a blocked one only waits |
| MpmcQueue.OneSlotLosesAnItem | src/concurrency/mpmc_queue.hpp:25-27 | With capacity one there is a run that overwrites an item and delivers the wrong one |
| MpmcQueue.Queue.constructor | src/concurrency/mpmc_queue.hpp:29-33 | The fresh queue in memory is the initial state |
| MpmcQueue.Queue.TakeEnqueueTicket | src/concurrency/mpmc_queue.hpp:46-49 | The fetch_add of an enqueue, in place, is the step of the model |
| MpmcQueue.Queue.TakeDequeueTicket | src/concurrency/mpmc_queue.hpp:68-75 | The fetch_add of a dequeue, in place, is the step of the model |
| MpmcQueue.Queue.Proceed | src/concurrency/mpmc_queue.hpp:54-86 | The next load or store of a thread, in place, is the step of the model |
| MpmcQueue.Queue.Execute | src/concurrency/mpmc_queue.hpp:46-88 | Any schedule executed in place is the run of the model, and its invariant holds at the end |
| SlotRing.Memory.Pop | src/concurrency/mpsc_ring.hpp:73-90 | A whole pop is refused exactly when the oldest position is unpublished, and otherwise returns its item |
| SlotRing.WholePop | src/concurrency/mpsc_ring.hpp:73-90 | The steps of a pop alone: back after two loads if the oldest position is unpublished, otherwise its item is handed out and the ring advanced in five |
| SlotRing.PublishFrame | src/concurrency/mpsc_ring.hpp:57-58 | Publishing one position disturbs no other producer's turn |
| SlotRing.ConsumerFrame | src/concurrency/mpsc_ring.hpp:85-87 | The consumer disturbs no slot whose turn is a producer's |
| MpscRing.CasHasItsTurn | src/concurrency/mpsc_ring.hpp:47-58 | A successful compare-exchange implies that the sequence number read earlier still equals the reserved position |
| MpscRing.RunKeeps | src/concurrency/mpsc_ring.hpp:44-90 | The ring's invariant holds after every schedule, spurious failures included |
| MpscRing.RefinesBoundedFifo | src/concurrency/mpsc_ring.hpp:44-90 | Every step of every run leaves the queue alone, appends one item where there is room, or takes the head |
| MpscRing.RefusedWhenFull | src/concurrency/mpsc_ring.hpp:65-67 | A push is given up only when the capacity's number of reserved positions is unreleased, and exactly then if its position is still current |
| MpscRing.AnswersAreTrue | src/concurrency/mpsc_ring.hpp:44-70 | In every run a producer's positions hold the items of its calls that returned true, once and in call order, then that of a call past its reservation; a call that returned false left nothing |
| MpscRing.OneCall | src/concurrency/mpsc_ring.hpp:44-70 | Between a call's start and its return its producer's items grow by the call's item if it returned true and by nothing if it returned false |
| MpscRing.ReturnedIsPublished | src/concurrency/mpsc_ring.hpp:57-60 | When no call of a producer is under way, everything it reserved is published |
| MpscRing.PushAlone | src/concurrency/mpsc_ring.hpp:44-70 | Undisturbed, a call returns false if the ring is full and otherwise appends, publishes and returns true in five steps |
| MpscRing.PopRefusedWhenUnpublished | src/concurrency/mpsc_ring.hpp:73-83 | Pop returns false exactly when the oldest position is not published |
| MpscRing.Ring.TryPush | src/concurrency/mpsc_ring.hpp:44-47 | Beginning a push, in place, is the step of the model |
| MpscRing.Ring.Proceed | src/concurrency/mpsc_ring.hpp:48-70 | The next load, compare-exchange or store, in place, is the step of the model |
| TicketRing.RunKeeps | src/concurrency/mpsc_ticket_ring.hpp:39-97 | The ring's invariant holds after every schedule, for batches of any size |
| TicketRing.PoppedInBatches | src/concurrency/mpsc_ticket_ring.hpp:58-97 | Popped items are a prefix of the batches in reservation order: none lost, doubled or mixed, also for batches larger than the ring |
| TicketRing.BatchIsContiguous | src/concurrency/mpsc_ticket_ring.hpp:58-81 | The items of one batch stand side by side and in order in the sequence of all batches |
| TicketRing.CallsReserve | src/concurrency/mpsc_ticket_ring.hpp:39-64 | The batches are those the pushes were called with, in call order, and every position belongs to its caller; an empty batch reserves nothing |
| TicketRing.ReturnedIsPublished | src/concurrency/mpsc_ticket_ring.hpp:58-81 | When a push has returned, all its items are published |
| TicketRing.StepsCountDown | src/concurrency/mpsc_ticket_ring.hpp:64-81 | A push whose slot has its turn is one step closer to its return after each step; otherwise it only waits |
| TicketRing.DistinctWork | src/concurrency/mpsc_ticket_ring.hpp:64-78 | Two producers never fill the same position |
| TicketRing.OldestCanStep | src/concurrency/mpsc_ticket_ring.hpp:69-78 | While the oldest reserved item is unpublished its producer is not blocked, so producers and consumer never wait in a cycle |
| TicketRing.Ring.PushBatch | src/concurrency/mpsc_ticket_ring.hpp:39-64 | The reserving fetch_add, in place, is the step of the model; an empty batch reserves nothing |
| TicketRing.Ring.Proceed | src/concurrency/mpsc_ticket_ring.hpp:65-81 | The next load or store of a push, in place, is the step of the model |
| TicketRing.Ring.Consume | src/concurrency/mpsc_ticket_ring.hpp:83-97 | The consumer's next load or store, in place, is the step of the model |
| WorkerPool.ShutdownDrains | src/core/init.cpp:781-798 | When the worker has returned it has run exactly the items before the first stop item, once each and in ticket order |
| WorkerPool.ExecutesInTicketOrder | src/core/init.cpp:781-840 | At every moment what has run is a prefix of what was submitted, in ticket order, without a null function |
| WorkerPool.QueuedIsSubmitted | src/core/init.cpp:815-840 | The queued items are the non-null items and stop items that were submitted, unchanged and in call order |
| WorkerPool.WorkerTakesNext | src/core/init.cpp:781-798 | With a published item before it the worker takes it in five steps, returns at a stop item, and otherwise runs the item once and goes back to the ring |
| WorkerPool.ShutdownProgress | src/core/init.cpp:1408-1417 | If the oldest item is unpublished, the thread submitting it can step: the drain is never stuck behind its producers |
| SpscRing.BatchCellIsSlot | src/concurrency/spsc_ring.hpp:165-175 | The two copied runs of a batch are the slots of consecutive positions |
| SpscRing.StepKeeps | src/concurrency/spsc_ring.hpp:63-284 | Every load, store and copied cell of either side keeps the ring's invariant |
| SpscRing.RunKeeps | src/concurrency/spsc_ring.hpp:63-352 | The invariant holds after every interleaving, with or without the extra looks of ARM builds |
| SpscRing.PoppedThenStored | src/concurrency/spsc_ring.hpp:63-284 | Popped items and the ring's cells are together what was pushed, in order, and the cached cursors never overtake the shared ones |
| SpscRing.StepsAreFifo | src/concurrency/spsc_ring.hpp:147-230 | Each step leaves the queue alone, appends the accepted part of a batch, or removes from the front what the consumer got |
| SpscRing.NoSharedCell | src/concurrency/spsc_ring.hpp:172-221 | Producer and consumer never touch the same cell |
| SpscRing.RefusalsAreExact | src/concurrency/spsc_ring.hpp:153-209 | A push is refused exactly if the ring is full at its load of the tail, a pop exactly if it is empty at its load of the head; the amounts are those that fit or exist then |
| SpscCalls.CallsAreExact | src/concurrency/spsc_ring.hpp:63-230 | In every run what was pushed is the accepted parts of the pushes, and what was popped is what the pops handed over, in call order; a call takes all it asked for or at least what fitted, or was there, when it began |
| SpscCalls.SidesGoOn | src/concurrency/spsc_ring.hpp:63-230 | Every step of a side brings its call strictly closer to its return, whatever the other side does |
| SpscRing.Ring.Push | src/concurrency/spsc_ring.hpp:63-88 | Appends the item, or refuses exactly when the ring is full |
| SpscRing.Ring.Pop | src/concurrency/spsc_ring.hpp:111-138 | Takes the oldest item, or none exactly when the ring is empty |
| SpscRing.Ring.PushBatch | src/concurrency/spsc_ring.hpp:147-184 | Appends as many items as fit, in order |
| SpscRing.Ring.PopBatch | src/concurrency/spsc_ring.hpp:193-230 | Copies out the oldest items, as many as asked for and there, and nothing beyond them |
| SpscRing.Ring.ConsumeBatch | src/concurrency/spsc_ring.hpp:239-284 | Shows the consumer the same items as a popped batch, in the same order |
| SpscRing.Ring.Reset | src/concurrency/spsc_ring.hpp:321-328 | Leaves a valid, empty ring |
| SpscFanIn.OutputMerges | src/concurrency/spsc_fan_in.hpp:30-73 | In every interleaving of the rings' own steps, what was handed out from a lane, what its pop in progress holds and what its ring still stores are together what its producer pushed, in order |
| FanInCalls.LanesAreRings | src/concurrency/spsc_fan_in.hpp:30-73 | Each lane of a run is the single-producer ring on its producer's actions as they were made and the pops of the scan |
| FanInCalls.LaneTakesPushes | src/concurrency/spsc_fan_in.hpp:30-44 | So what a lane took in is the accepted parts of its producer's pushes |
| FanInCalls.CallsAreServed | src/concurrency/spsc_fan_in.hpp:46-73 | The consumer's calls were handed exactly what is recorded, in call order, none more than it asked for, and the others are the misses |
| FanInCalls.LooksGoOn | src/concurrency/spsc_fan_in.hpp:46-73 | Every look brings a call closer to its return: within the pop on a lane, to the next lane, or to its end |
| SpscFanIn.WaitStep | src/concurrency/spsc_fan_in.hpp:46-57 | While a ring holds something published and is not served, it goes on waiting through every step of every ring, each batch handed out brings the scan strictly closer to it, and no call misses |
| SpscFanIn.ServedInTurn | src/concurrency/spsc_fan_in.hpp:46-73 | Over the rings' own steps: a lane with something published is served before as many batches as there are lanes went elsewhere, and until then every call finds something |
| SpscFanIn.FanIn.TryPush | src/concurrency/spsc_fan_in.hpp:30-36 | Appends to the producer's own lane; refuses a bad index or a full lane |
| SpscFanIn.FanIn.Pop | src/concurrency/spsc_fan_in.hpp:46-58 | Over real rings: takes the oldest item of the first lane in turn that has one, moves the turn behind it, changes no other lane, and finds nothing exactly when all are empty |
| SpscFanIn.FanIn.PopBatch | src/concurrency/spsc_fan_in.hpp:60-73 | The same for a batch, all of it from one lane; nothing also when nothing was asked for |
| Bits.OrOfDisjoint | src/core/handles.hpp:43-46 | Or-ing a shifted word with one that fits below the shift adds them |
| Handles.UnpackPacked | src/core/handles.hpp:43-58 | Unpacking a packed handle gives kind, index and generation back |
| Handles.PackUnpacked | src/core/handles.hpp:43-58 | Packing the fields of any 64-bit word gives the word back |
| Handles.GenerationClosed | src/core/handles.hpp:87-90 | The n-th registration of a slot carries generation (n - 1) mod (2^32 - 1) + 1 |
| Handles.SameGeneration | src/core/handles.hpp:87-90 | Two registrations share a generation exactly when a multiple of 2^32 - 1 lies between them |
| Handles.RegistrationResolves | src/core/handles.hpp:71-104 | A registration is found under its handle and changes no other handle's meaning |
| Handles.UnregistrationForgets | src/core/handles.hpp:106-141 | After unregistration the handle resolves under no kind and every other handle keeps its meaning |
| Handles.HandleTable.constructor | src/core/handles.hpp:62-69 | In a new table nothing resolves |
| Handles.HandleTable.RegisterPtr | src/core/handles.hpp:71-104 | Fails on valid input exactly when all slots are taken; otherwise takes the first free slot from the cursor on, with the next generation, and returns a handle that resolves to the pointer |
| Handles.HandleTable.UnregisterHandle | src/core/handles.hpp:106-141 | Clears exactly the registration of that slot, generation and expected kind |
| Handles.HandleTable.Lookup | src/core/handles.hpp:143-176 | Returns a pointer exactly if the word is of the expected kind and its slot holds that pointer under its generation and kind; null for every other word |
| HandleRace.StepKeeps | src/core/handles.hpp:71-176 | Every atomic access of register, unregister and lookup keeps the table's invariant |
| HandleRace.RunKeeps | src/core/handles.hpp:71-176 | The invariant holds after every interleaving |
| HandleRace.AnswerCameFromTheSlot | src/core/handles.hpp:143-176 | For every handle word and whatever the races, a pointer a lookup returns was registered in that slot, and the word's generation was the slot's then or at a later registration; for an issued handle that is a whole number of cycles after its own |
| HandleRace.LookupIsExact | src/core/handles.hpp:143-176 | Within a cycle of reuse a lookup returns null or exactly the handle's pointer: null if it was retired when the lookup began, null only if it is retired when it ends |
| HandleRace.IssuedIsFindable | src/core/handles.hpp:71-104 | An issued registration stays findable under its handle until retired; a call refuses only with all slots taken |
| HandleRace.AskedIsServed | src/core/handles.hpp:71-176 | Whatever the interleaving, what a thread registers, clears, looks up and answers is for its last call, with that call's kind, pointer, index and generation; a call is turned away at once exactly for arguments the code refuses |
| HandleRace.UnregisterRetires | src/core/handles.hpp:106-141 | When an unregistration has returned, the registration its handle was issued for is retired |
| HandleRace.UnregisterHitsItsOwn | src/core/handles.hpp:123-138 | Unregistration clears only a live registration of the expected kind and generation: within a cycle, the handle's own |
| HandleRace.StaleHandleAnswered | src/core/handles.hpp:87-94 | For a table of any size, every kind and thread, and every number of re-registrations of a slot there is a run whose late lookup with the first handle is answered if and only if the number is a multiple of 2^32 - 1 |
| SizeClass.NormalizedMeaning | src/core/init.cpp:282-292 | Accepts exactly a power-of-two alignment up to the maximum without overflow, and rounds to the least multiple of it that holds the size and a pointer |
| SizeClass.PowerTest | src/core/init.cpp:283 | The bit test is zero exactly for powers of two |
| SizeClass.IndexIsLeast | src/core/init.cpp:333-347 | A request's class is large enough and the class before it is not |
| SizeClass.Adjunction | src/core/init.cpp:333-347 | A request of up to 1 MiB fits bucket k exactly when its own bucket is k or an earlier one |
| SizeClass.SizesAgree | src/core/init.cpp:306-347 | The two independent size computations agree, and from 32 bytes on less than an eighth is wasted |
| SizeClass.GrowSize | src/core/init.cpp:353-361 | A bucket grows by blocks of exactly its size, and the buckets above 1 MiB never |
| SizeClass.OwnIndex | src/core/init.cpp:426-432 | Asking for exactly a bucket's size leads back to the bucket |
| SizeClass.ClassKeepsAlignment | src/core/init.cpp:333-347 | A class's block size is a multiple of every power of two that divides a request of the class |
| ArenaState.CommitTargetMeaning | src/core/init.cpp:387-395 | Doubling stays in the region and covers the requirement exactly if something was committed before, as `init_vm`'s caller sees to |
| ArenaState.PlanMeaning | src/core/init.cpp:370-407 | A growth takes the next aligned, unused, committed stretch; it takes none exactly when not one block fits or its pages cannot be committed |
| ArenaState.ReserveKeeps | src/core/init.cpp:370-410 | Reserving a chunk under the arena lock, with chunks of other buckets reserved and not yet linked, keeps all chunks and blocks disjoint, aligned and in bounds |
| ArenaState.LinkKeeps | src/core/init.cpp:412-420 | Linking a reserved chunk's blocks under the bucket's lock keeps conservation, disjointness and alignment, whatever happened since the chunk was reserved |
| ArenaState.GrowthIsBounded | src/core/init.cpp:370-421 | In every run a bucket's growth count is at most 1024; it is 0 or on the ladder 32, 64, ... 1024, or it was cut short and the region has no room for another block of the bucket |
| ArenaState.GrowKeeps | src/core/init.cpp:353-424 | A growth that nothing comes between keeps conservation, disjointness, bounds and alignment, and moves no block that is out |
| ArenaState.StepKeeps | src/core/init.cpp:72-274 | So does every locked section, every step on a thread's own cache, and each half of a growth on its own |
| ArenaState.RunKeeps | src/core/init.cpp:72-424 | The heap's invariant holds after every interleaving of any number of threads, resets included; growths of different buckets interleave between reserving and linking |
| ArenaState.EveryBlockInOnePlace | src/core/init.cpp:109-165 | Every block cut since the last reset is out or in one place of one free list, and the lists hold nothing else |
| ArenaState.BlocksApart | src/core/init.cpp:353-424 | Blocks are pairwise disjoint and lie in the used part; used <= committed <= size |
| ArenaState.BlockSuitsRequest | src/core/init.cpp:109-137 | A block of the bucket a request is sent to is large enough and aligned as asked |
| ArenaCallers.RefusedMeaning | src/core/init.cpp:109-124 | `allocate` turns away exactly a heap not set up, an empty request, and a size or alignment over 1 MiB, over the maximum or not a power of two |
| ArenaCallers.IgnoredMeaning | src/core/init.cpp:139-151 | `deallocate` passes over exactly null, a heap not set up, and what could not be allocated; a size of 0 counts as the smallest |
| ArenaCallers.RequestBucketMeaning | src/core/init.cpp:117-124 | A request goes to the least class whose blocks hold it and are a multiple of its alignment |
| ArenaCallers.VmHeapGrows | src/core/init.cpp:100-107 | After `init_vm` nothing is used; with something committed and the system committing more, a bucket can grow exactly when one block fits the region, and without, exactly when the first growth fits what is committed |
| ArenaCallers.FixedHeapGrows | src/core/init.cpp:87-98 | After `init` nothing is used, and a bucket can grow exactly when one block fits the region |
| ArenaCallers.CanGrowMeaning | src/core/init.cpp:370-410 | A bucket can grow exactly when a block fits behind the used part and what is taken is committed or can be |
| ArenaCallers.DoublingIsLeast | src/core/init.cpp:387-395 | The commit size is the least doubling of what is committed that covers the requirement, cut off at the region's size |
| ArenaCallers.GrowthCommits | src/core/init.cpp:385-405 | A growth commits nothing if its stretch is committed, and otherwise exactly what doubling reaches |
| ArenaCallers.WantedDoubles | src/core/init.cpp:370 | The n-th growth of a bucket wants 32 * 2^min(n, 5) blocks, counting from zero |
| ArenaCallers.GrownMeaning | src/core/init.cpp:353-421 | A growth turns the next aligned stretch into blocks laid end to end, as many as wanted or as fit, all on the shared list, highest address first |
| ArenaCallers.MovesHeads | src/core/init.cpp:208-218 | Moving up to n heads takes them off one list, puts them on the other in reverse, and touches no other list |
| ArenaCallers.AllocatedMeaning | src/core/init.cpp:127-137 | An allocation takes the head of the thread's list, or, after up to 32 shared blocks have moved over, the last of them |
| ArenaCallers.GrowsThenTakes | src/core/init.cpp:223-246 | With nothing cached and nothing shared it is the same as after a growth |
| ArenaCallers.FreedMeaning | src/core/init.cpp:139-165 | A released block is at the head of its thread's list or among the 32 that a full list hands on; no other block comes in and no other list changes |
| ArenaCallers.ReleasedComesBack | src/core/init.cpp:109-165 | Unless the release filled the list, the next allocation of the class on the thread hands the same block out, and the heap is as before the release |
| ArenaHeap.CallsAreRuns | src/core/init.cpp:203-264 | What a whole allocation or release does to the blocks is a run of the steps between which other threads may come |
| ArenaHeap.ArenaHeap.constructor | src/core/init.cpp:434-441 | The heap before it is set up |
| ArenaHeap.ArenaHeap.Reset | src/core/init.cpp:72-85 | Starts a new epoch with no blocks; caches of the old one count as empty |
| ArenaHeap.ArenaHeap.InitFixed | src/core/init.cpp:87-98 | A region that is committed from the start: every field of the new heap, as the step of the model |
| ArenaHeap.ArenaHeap.InitVm | src/core/init.cpp:100-107 | A reserved region with a committed first part, backed by virtual memory: every field of the new heap, as the step of the model |
| ArenaHeap.ArenaHeap.Touch | src/core/init.cpp:266-274 | A thread's cache from an earlier epoch is emptied and no block moves |
| ArenaHeap.ArenaHeap.Allocate | src/core/init.cpp:109-137 | Hands out a block that was not out, suits the request and leaves all others out; called alone it fails on an acceptable request exactly when cache, shared list and arena have nothing |
| ArenaHeap.ArenaHeap.AllocateSlow | src/core/init.cpp:203-246 | Refill, growth and second refill through linked words are the block moves of the model, and the count is right afterwards |
| ArenaHeap.ArenaHeap.Refill | src/core/init.cpp:208-219 | Moves up to 32 blocks, head by head, from the shared list to the thread's |
| ArenaHeap.ArenaHeap.Deallocate | src/core/init.cpp:139-165 | Puts the block at the head of the thread's list and hands 32 on when it reaches 64 |
| ArenaHeap.ArenaHeap.FlushCache | src/core/init.cpp:248-264 | Moves 32 blocks, head by head, to the shared list, with the count kept right |
| ArenaHeap.ArenaHeap.GrowBucket | src/core/init.cpp:353-424 | Cuts and links the planned blocks; succeeds exactly when something is shared already or a block can be cut |
| ArenaHeap.ArenaHeap.Doubled | src/core/init.cpp:388-395 | The commit loop computes the commit target |
| ArenaHeap.ArenaHeap.WriteBlock | src/core/init.cpp:61-67 | Blocks have no headers: what a caller writes into its block disturbs no list |
| SpaceScan.Constants | src/inference/chunking.cpp:22-24 | The repeated bytes and the modulus are the constants of the code |
| SpaceScan.MaskStep | src/inference/chunking.cpp:69-71 | A first byte that can be a space is flagged; otherwise it borrows nothing and the rest of the mask is the mask of the rest |
| SpaceScan.LowestFlag | src/inference/chunking.cpp:69-91 | The lowest flag of the mask is the first byte that can be a space, for words of any length, whatever borrows do above it |
| SpaceScan.FindAsciiSpaceCandidate | src/inference/chunking.cpp:83-97 | The word-wise search returns the first index whose byte can be a space, or the length |
| TextUnits.Utf8StepMeaning | src/inference/chunking.cpp:99-118 | Inside the text the step is the width that the lead byte announces if that many bytes are left, and one byte otherwise; it never leaves the text |
| TextUnits.CharUnitsTile | src/inference/chunking.cpp:138-146 | Character units lie end to end from the first byte to the last |
| TextUnits.SentenceUnitMeaning | src/inference/chunking.cpp:178-200 | A sentence unit begins at the next byte that is not white space and is a run of whole characters up to and with the first delimiter, or to the end of the text |
| TextUnits.WordUnitMeaning | src/inference/chunking.cpp:148-176 | A word unit is the next maximal run of bytes that are not white space |
| TextUnits.NextWordUnit | src/inference/chunking.cpp:148-176 | The scan over candidates finds the next word unit |
| TextUnits.FindDelimiter | src/inference/chunking.cpp:120-135 | The loop finds a byte exactly if it is one of the caller's delimiters, or of the four default ones if the caller names none |
| TextUnits.NextSentenceUnit | src/inference/chunking.cpp:178-200 | The scan finds the next sentence unit |
| TextUnits.UnitsFrom | src/inference/chunking.cpp:245-279 | Starting again at a unit's begin or end gives the units from there on |
| TextUnits.SentenceTailMeaning | src/inference/chunking.cpp:178-200 | After sentences something is left exactly if the text is not all white space and a delimiter at a character boundary is followed by white space only, and by some |
| TextUnits.TailMeaning | src/inference/chunking.cpp:275-278 | After words something is left exactly if the text ends in white space; characters leave nothing |
| Chunks.CountIsLeast | src/inference/chunking.cpp:49-59 | The 32-bit count never wraps and is the least number of chunks that reaches the last unit |
| Chunks.ChunksCover | src/inference/chunking.cpp:49-59 | Every unit is in some chunk of the count |
| Chunks.NeighboursShare | src/inference/chunking.cpp:352-360 | Neighbouring chunks share exactly the overlap |
| Chunks.TokenRangeExact | src/inference/chunking.cpp:352-361 | A written token range is right exactly when its begin plus the chunk size is under 2^32, and otherwise ends before it begins |
| Chunks.EmitTokenChunks | src/inference/chunking.cpp:346-365 | The count, the status, and every range written, field by field, for every buffer and every 32-bit count |
| Chunks.Gather | src/inference/chunking.cpp:312-329 | One chunk's end, scan position and overlap begin, in terms of the units |
| Chunks.RoundIs | src/inference/chunking.cpp:246-278 | A round from any unit on, also of a loop that never ends: which units its range spans, when it is the last, and where it goes on otherwise |
| Chunks.NextChunk | src/inference/chunking.cpp:246-278 | On any text, one executed round writes, field by field, the range of the units from its position on, stops exactly when `Round` has no next position and otherwise goes to it |
| Chunks.EmitRounds | src/inference/chunking.cpp:239-344 | Any number of executed rounds leaves the loop where `After` says; in the endless case it has not stopped and has counted one chunk a round |
| Chunks.EmitTextChunks | src/inference/chunking.cpp:239-344 | Ends whenever the text is not in the endless case; the count is the same for every buffer, and every range written has the descriptor's ids, its own number, no tokens, and the bytes from the begin of its first unit to the end of its last, which are never empty |
| Chunks.AnswerIs | src/inference/chunking.cpp:214-230 | What the k-th range of an answer says, field by field: the whole text, or a stretch from the first of the chunk's units to the last that is not empty and inside the text, also in the redundant chunk |
| Chunks.CountForWords | src/inference/chunking.cpp:239-283 | For characters the count is the plain one; for words it differs exactly with overlap, trailing white space and a last chunk that fits exactly |
| Chunks.EndlessNeverEnds | src/inference/chunking.cpp:320-339 | Sentences with overlap and something left: after any number of rounds of the loop there is another |
| Chunks.WrappedTokenExample | src/inference/chunking.cpp:352-361 | 2^32 - 1 tokens in chunks of 2^31 with an overlap of 2: the third range is written as ending before it begins |
| Chunks.RedundantExample | src/inference/chunking.cpp:239-283 | "a b " in chunks of two words with an overlap of one is answered with two ranges, the second repeating the last word |
| Chunks.EndlessExample | src/inference/chunking.cpp:320-339 | "Hi. " in chunks of two sentences with an overlap of one is at its start again after every round |

## Left out

- C++ memory orders: steps are sequentially consistent, so nothing is said about acquire, release or relaxed being enough.
- Wake-ups (`cpu_signal_event`, `cpu_wait_for_event`), pauses and back-off: no claim about lost wake-ups.
- 64-bit wrap-around of positions, epochs and heap epochs; signed differences of positions are plain differences.
- EpochProofs.NoReaderHoldsFreed: the client loads shared pointers only inside sections that are not nested and unlinks before retiring, as the class documents; other clients are outside the claim.
- EpochManager.Collector.Collect: the participants' answers to the scan are an argument; how calls and participants interleave is the transition system's matter, where `collecting_` is the collector not being idle.
- SpscFanIn.FanIn.Pop: one call at a time over the rings' memory; how the calls interleave with producers is `SpscFanIn.OutputMerges`.
- SpscRing.StepsAreFifo: the update of a side's own cached cursor is part of the step that stores the shared one.
- HandleRace.LookupIsExact: it speaks of handles issued for a registration visible when the lookup begins; what a made-up word can get is `HandleRace.AnswerCameFromTheSlot`.
- ArenaHeap.ArenaHeap.Allocate: one call at a time; how sections of several calls interleave is `ArenaState.RunKeeps`. Under concurrency another thread may take all freshly cut blocks, and then no claim is made that allocation succeeds.
- ArenaHeap.ArenaHeap.Deallocate: the caller gives back a block it holds with a size and alignment of the same class, as a heap without headers demands. One heap instance uses the per-thread caches, as in the runtime.
- ArenaHeap.ArenaHeap.WriteBlock: only the first word of a block is memory, the one a free list runs through; that blocks do not overlap is `ArenaState.BlocksApart`.
- ArenaState.BlocksApart: addresses do not wrap.
- Chunks.EmitTextChunks: the word loop and the loop for the other units are one method that keeps their one difference; validation of descriptors and the status for bad arguments are not modelled.
- WorkerPool.ShutdownDrains: one worker and its queue; the round-robin choice among workers and the failure path of thread start are not modelled.
- The arena partitioning in `astral_init`, the session block pool, nested error scopes, model, session and conversation bookkeeping, the backend registry and the toy tokenizers: they add only easier members.
- Memory index, prompt cache, toolset, agent, executor and sampler; llama.cpp providers, plugin loading, logging, benchmarks, scripts and engine integrations.
