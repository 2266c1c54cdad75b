# Verified models of the lock-free structures

This project models the concurrent structures under `include/lockless/` in Dafny and proves what they promise:
`RingBuffer`, `ArrayLockFreeStack`, `LockFreeObjectPool`, `EpochReclaimer`, `LockFreeHashMap`, `SPSCQueue`,
`SharedMemoryArena` with `ZeroCopyQueue`, and `OrderBook`. `dafny verify dfyconfig.toml` checks all of it.

Each structure is modelled twice.

* As a **state machine over single atomic actions** (modules `Ring`, `Stack`, `Pool`, `Epoch`, `HashTable`, `Spsc`,
  `Arena`, `ZeroCopy`, `BookRuns`). Every thread has a program counter and locals; a label is one scheduler choice;
  `Next` performs one load, store, compare-exchange or data copy; `Exec` runs a whole schedule. The number of threads
  is arbitrary and a label that is not enabled does nothing, so a theorem about `Exec(s, run)` for all `run` is a
  theorem about every interleaving. Every weak compare-exchange may fail spuriously at any time. The invariants are
  proved for every action and the main theorems follow for every run. For each machine the modules named `...Alone`
  prove what a whole call answers when it runs to its end undisturbed, from any state the invariant admits: together with
  the refinement theorems this fixes both what no run may do and what a call must do.
* As **imperative code** (classes `RingBuffer`, `ArrayStack`, `ObjectPool`, `EpochReclaimer`, `HashMap`, `SpscQueue`,
  `SharedMemoryArena`, `ZeroCopyQueue`, `OrderBook`) with the same fields, arrays and loops as the C++, for calls that
  do not overlap. Their `Valid()` is tied to the machine's invariant and their contracts state the abstract effect.
  A parameter `spurious` says how often a weak compare-exchange fails although it could succeed.

Some fields are history: `log`, `list`, `ver`, `claim`, `regions`, `appended` and the like record what happened and are
never tested by an action. Where the code works on machine words, the model does too: 32-bit tags, the packed 64-bit
head word, `size_t` sums in the arena, 64-bit totals in the order book. The ring buffer's 64-bit counters, `& mask_`
and signed difference are a second machine (`RingWrap`) that is proved to follow the unbounded one.

## Assumptions

* Memory is sequentially consistent.
* The signed difference of two counters in the ring buffer is the two's complement of the wrapped difference.
* `1 <= capacity <= UINT32_MAX` for the stack and the pool. Pool clients release only what they hold, once.
* Registration of reclaimer threads is serialised, sections of one thread are not nested, a thread stays registered
  while inside a section, and the epoch does not reach `UINT64_MAX`. Taking a list's mutex, changing the list and
  releasing the mutex is one action.
* The order book has one processing thread; submitters are arbitrary.

## Where the code does not keep a promise, and exactly when it does

* The ring buffer's static_assert admits `Size == 1`, where "published" and "free for the next lap" are the same number
  and a second push overwrites the first item. The capacity promise holds if and only if `Size >= 2`
  (`RingSizeOne.CapacityExactly`).
* The stack's 32-bit tag protects a compare-exchange if and only if fewer than 2^32 exchanges hit the head between the
  read and the exchange. With exactly 2^32 there is a run, from the constructor, that loses nodes
  (`StackAba.BoundExactly`).
* The reclaimer exchanges the epoch and swaps the list in two separate actions (lines 142 and 151-154), and the comment
  at line 147 calls what is swapped out safe. A pointer retired into that list in between can be freed under a reader
  that was already inside its section. This happens if and only if a swap of the current list is pending when `retire`
  reads the epoch (`EpochTheorems.ReclamationExactly`); `EpochWindow.UseAfterFreeReachable` is such a run from the
  constructor.
* The arena's bounds check adds in `size_t`. It is sound if and only if no request can wrap the sum
  (`Arena.RequestsExactly`).
* Two overlapping inserts of one key can both succeed (`HashRace.RacingInsertsDuplicate`). An insert that starts now can
  claim a slot for its key if and only if no slot is ready with that key and some slot is free
  (`HashClaims.ClaimExactly`); so a key can get a second slot exactly while no claim made for it is ready yet and a slot
  is left (`HashClaims.DuplicateExactly`). Finds stay stable regardless, and in runs where no two inserts of one key
  overlap the table is an atomic insert-only map (`HashAtomic.RefinesMap`).
* The order book uses 0 and `UINT64_MAX` for "no price". It is never crossed, whatever the sequence of orders, if and only
  if no buy is priced `UINT64_MAX` and no sell 0 (`Book.PricesExactly`).

## Model

| member | source | states |
|---|---|---|
| `RingInv.NextInv` | include/lockless/ring_buffer.hpp:31-95 | every action of every thread keeps the window invariant over all slots |
| `RingInv.SlotExclusive` | include/lockless/ring_buffer.hpp:39-44 | two threads that both claimed and not yet stored a sequence number never share a cell |
| `RingTheorems.SlotsAlways` | include/lockless/ring_buffer.hpp:35-44 | over every run: claimed positions show p or p+1, free ones p or p-Size+1, head - tail is within 0..Size, and cells have one owner |
| `RingTheorems.StepRefines` | include/lockless/ring_buffer.hpp:31-95 | each action is one step of an atomic FIFO of capacity Size or leaves it alone |
| `RingTheorems.RefinesFifo` | include/lockless/ring_buffer.hpp:31-95 | any number of producers and consumers, any schedule: the queue log[tail..head] behaves as an atomic bounded FIFO |
| `RingTheorems.HistoryFromInit` | include/lockless/ring_buffer.hpp:18-95 | from the constructor, what was popped is exactly the first `tail` items pushed, in order |
| `RingTheorems.PopDelivers` | include/lockless/ring_buffer.hpp:84-87 | the pop that claimed position p returns the item claimed at p, however late it copies |
| `RingTheorems.PopReturnsOldest` | include/lockless/ring_buffer.hpp:84-87 | a pop's event at its exchange dequeues the oldest item, and that item is what it returns, however long it takes |
| `RingTheorems.ClaimsIncrease` | include/lockless/ring_buffer.hpp:40-84 | of two claims on one counter the later one is at a larger position, so no position is claimed twice |
| `RingTheorems.PushFailure` | include/lockless/ring_buffer.hpp:45-46 | a false push read its slot at the head, with Size items claimed or the consumer of head - Size still copying |
| `RingTheorems.PopFailure` | include/lockless/ring_buffer.hpp:89-90 | a false pop found the queue empty or the producer of position tail still copying |
| `RingTheorems.FailureExact` | include/lockless/ring_buffer.hpp:36-46 | with no other call between claim and store, false means exactly full and exactly empty, both directions |
| `RingTheorems.SoloFinishes` | include/lockless/ring_buffer.hpp:34-50 | without interference a call ends within five actions and never retries, from any reachable state |
| `RingAlone.CallAlone` | include/lockless/ring_buffer.hpp:31-95 | with no other call between claim and store, five actions after its start a push has returned true exactly if there was room and its item is the newest, a pop exactly if there was an item and it returns the oldest |
| `RingAlone.FinishesAlone` | include/lockless/ring_buffer.hpp:34-50 | obstruction freedom: from any point of a call, whatever others hold, at most six actions of its own return |
| `RingTheorems.RetriesBounded` | include/lockless/ring_buffer.hpp:34-50 | the non-spurious retries of a call, running or returned true or false, number at most the growth of its counter since its first read |
| `RingSizeOne.SizeOneOverflows` | include/lockless/ring_buffer.hpp:15 | with one cell a run pushes twice without a pop, overwriting the first item |
| `RingSizeOne.CapacityExactly` | include/lockless/ring_buffer.hpp:15 | the capacity promise holds for every run if and only if Size >= 2 |
| `Arith.MaskIsMod` | include/lockless/ring_buffer.hpp:118 | `x & (2^k - 1)` is the remainder modulo 2^k, for all x |
| `RingWrap.MaskedSlot` | include/lockless/ring_buffer.hpp:35 | the mask of the wrapped position selects the slot of the true position |
| `RingWrap.SignedDiffExact` | include/lockless/ring_buffer.hpp:37 | the signed difference of wrapped words is the true difference while that fits |
| `RingWrap.ActWraps` | include/lockless/ring_buffer.hpp:31-95 | one action on 64-bit words is one action of the unbounded machine |
| `RingWrap.ExecWraps` | include/lockless/ring_buffer.hpp:31-118 | whole runs on 64-bit words follow the unbounded machine while no call outlasts 2^63 - Size claims |
| `RingBuffers.RingBuffer.constructor` | include/lockless/ring_buffer.hpp:18-24 | for every power of two slot i is numbered i and both counters are 0; with two cells or more that is an empty valid queue |
| `RingBuffers.RingBuffer.TryPush` | include/lockless/ring_buffer.hpp:31-51 | true exactly if not full, and then the item is appended; any number of spurious failures |
| `RingBuffers.RingBuffer.TryPop` | include/lockless/ring_buffer.hpp:75-95 | true exactly if not empty, and then the oldest item is removed and returned |
| `RingBuffers.RingBuffer.TryPushBatch` | include/lockless/ring_buffer.hpp:99-106 | appends a prefix of the items, all of them unless the queue became full |
| `RingBuffers.RingBuffer.TryPopBatch` | include/lockless/ring_buffer.hpp:108-115 | moves a prefix of the queue into the array, stopping early only on empty, and touches nothing beyond |
| `Fifo.FifoConserves` | include/lockless/ring_buffer.hpp:31-95 | contents plus enqueued equals dequeued plus what is left, in order |
| `Stack.PackFaithful` | include/lockless/array_stack.hpp:34-40 | packed words fit 64 bits and are equal exactly if index and tag are |
| `Stack.Pack` | include/lockless/array_stack.hpp:34-40 | unpacking a packed head gives back index and tag |
| `StackInv.InitInv` | include/lockless/array_stack.hpp:49-60 | the chained free list of the constructor satisfies the invariant |
| `StackInv.AbaSafe` | include/lockless/array_stack.hpp:127-149 | with fewer than 2^32 exchanges since the read, a head that compares equal was not exchanged at all and the new head is the true successor |
| `StackInv.ActInv` | include/lockless/array_stack.hpp:109-149 | every action keeps both lists linked, tags counted, and nodes owned |
| `StackTheorems.WalkVisits` | include/lockless/array_stack.hpp:109-149 | following next from a list head visits exactly the list and then NULL: acyclic and terminated |
| `StackTheorems.PartitionAlways` | include/lockless/array_stack.hpp:109-149 | in every run within the tag bound, data list, free list and nodes in flight partition 0..capacity-1, without duplicates |
| `StackTheorems.OnlyOwnerTouches` | include/lockless/array_stack.hpp:67-98 | data and link of a node are touched only by the one thread that holds it, while it is on neither list |
| `StackTheorems.StepRefines` | include/lockless/array_stack.hpp:67-149 | each action is one step of an atomic LIFO or leaves it alone |
| `StackTheorems.RefinesLifo` | include/lockless/array_stack.hpp:67-149 | every run within the tag bound is a behaviour of an atomic last-in first-out stack of values |
| `StackTheorems.PopReturnsTop` | include/lockless/array_stack.hpp:89-98 | a pop returns the value on top at its exchange, however long it takes afterwards |
| `StackTheorems.FailureMeans` | include/lockless/array_stack.hpp:68-71 | a false push saw no free node and a false pop an empty stack, at its last head read |
| `StackAlone.CallAlone` | include/lockless/array_stack.hpp:67-98 | a call that runs alone, whatever others hold: a push is refused exactly if no node is free and else its value is on top, a pop exactly if the stack is empty and else it returns and removes the top |
| `StackAlone.FinishesAlone` | include/lockless/array_stack.hpp:109-149 | obstruction freedom: from any point of a call, with a tag the bound admits, at most eight actions of its own return |
| `StackAba.BoundBreaks` | include/lockless/array_stack.hpp:117-143 | with exactly 2^32 exchanges a stale compare-exchange succeeds and nodes are lost |
| `StackAba.BoundExactly` | include/lockless/array_stack.hpp:28-40 | a bound on exchanges is safe for all runs if and only if it is at most the number of tags |
| `ArrayStacks.ArrayStack.constructor` | include/lockless/array_stack.hpp:49-60 | the chaining loop leaves an empty valid stack with all nodes free |
| `ArrayStacks.ArrayStack.PopIndex` | include/lockless/array_stack.hpp:127-149 | takes the top node of the given list, NULL exactly if there is none |
| `ArrayStacks.ArrayStack.PushIndex` | include/lockless/array_stack.hpp:109-125 | puts the node in hand on top of the given list |
| `ArrayStacks.ArrayStack.TryPush` | include/lockless/array_stack.hpp:67-76 | true exactly if fewer than capacity values are stored, and then the value is on top |
| `ArrayStacks.ArrayStack.TryPop` | include/lockless/array_stack.hpp:89-98 | true exactly if not empty, and then removes and returns the top value |
| `Pool.NextInv` | include/lockless/object_pool.hpp:34-53 | every action keeps each object in exactly one place and the count of free nodes |
| `Pool.ReleaseNeverFails` | include/lockless/object_pool.hpp:42-53 | in every run of disciplined clients free nodes = objects out + releases waiting for a node, so the ignored try_push never fails |
| `Pool.AcquireIsExclusive` | include/lockless/object_pool.hpp:34-40 | an acquired object was with no client, on no stack position and with no other thread |
| `PoolAlone.AcquireAlone` | include/lockless/object_pool.hpp:34-40 | an acquire that runs alone hands out the object released last, null exactly if none is free |
| `PoolAlone.ReleaseAlone` | include/lockless/object_pool.hpp:42-53 | a release that runs alone always succeeds and its object is the next to be handed out |
| `PoolFill.FillStarts` | include/lockless/object_pool.hpp:19-29 | what the fill loop leaves, joined by any idle clients, is the initial state of the pool machine |
| `ObjectPools.ObjectPool.FillOne` | include/lockless/object_pool.hpp:25-27 | a push of the fill loop succeeds, so the exception is never thrown |
| `ObjectPools.ObjectPool.Fill` | include/lockless/object_pool.hpp:24-28 | the fill loop leaves all indices on the stack, in order |
| `ObjectPools.ObjectPool.constructor` | include/lockless/object_pool.hpp:19-29 | all objects are free, in order, and none is held |
| `ObjectPools.ObjectPool.Acquire` | include/lockless/object_pool.hpp:34-40 | null exactly if none is free, otherwise an object nobody held |
| `ObjectPools.ObjectPool.Release` | include/lockless/object_pool.hpp:42-53 | a held object becomes free again; null and foreign pointers change nothing |
| `EpochInv.NextInv` | include/lockless/epoch_reclaimer.hpp:67-159 | every action of readers, retirers and advancers keeps the invariant, with stale loads, delayed appends and slot-by-slot scans |
| `EpochTheorems.EpochLag` | include/lockless/epoch_reclaimer.hpp:85-145 | a section published at epoch g keeps the global epoch at most g+1 until it is left, with no hypothesis |
| `EpochAlone.AdvanceAlone` | include/lockless/epoch_reclaimer.hpp:127-145 | a try_advance that runs alone exchanges the epoch if and only if every registered reader inside a section is in the current epoch, and otherwise changes nothing |
| `EpochAlone.RetireAlone` | include/lockless/epoch_reclaimer.hpp:99-159 | a whole retire that runs alone: its pointer joins the current list, and exactly if no reader blocks, the epoch moves on and the list of the new epoch is deleted, in order |
| `EpochAlone.FinishesAlone` | include/lockless/epoch_reclaimer.hpp:99-159 | obstruction freedom: from any point of a retire its own actions are enough to return |
| `EpochAlone.SectionRoundTrip` | include/lockless/epoch_reclaimer.hpp:85-95 | whatever runs between its actions, a section publishes the epoch it loaded, is inside until it leaves, and is outside again then |
| `EpochAlone.RegistrationRoundTrip` | include/lockless/epoch_reclaimer.hpp:67-82 | a slot that is registered and unregistered is free again |
| `EpochTheorems.SafeReclamation` | include/lockless/epoch_reclaimer.hpp:85-159 | if no swap of the current list is pending at the load of retire, the pointer is not freed before any reader then inside leaves, in any continuation |
| `EpochTheorems.SafeUnderWindowHypothesis` | include/lockless/epoch_reclaimer.hpp:99-159 | if no append falls between an advance's exchange and its swap of that list, nothing swapped out or deleted is guarded by a reader |
| `EpochTheorems.HazardFrees` | include/lockless/epoch_reclaimer.hpp:142-154 | whenever such a swap is pending, some continuation frees the pointer under the reader |
| `EpochTheorems.ReclamationExactly` | include/lockless/epoch_reclaimer.hpp:99-159 | a retire now can be freed under a reader now inside if and only if a swap of the current list is pending now |
| `EpochWindow.UseAfterFreeReachable` | include/lockless/epoch_reclaimer.hpp:140-154 | a run from the constructor in which a pointer is deleted while a reader that preceded its retire is inside |
| `EpochConserve.NextConserves` | include/lockless/epoch_reclaimer.hpp:99-159 | appended = waiting + swapped out + deleted, as multisets, after every action |
| `EpochConserve.ExecConserves` | include/lockless/epoch_reclaimer.hpp:99-159 | the same over every run, with exchange and swap apart |
| `EpochConserve.DestroyedOnce` | include/lockless/epoch_reclaimer.hpp:54-60 | after the destructor in a quiescent state every pointer is deleted exactly as often as the retire calls of the run name it |
| `EpochConserve.ExecGiven` | include/lockless/epoch_reclaimer.hpp:99-124 | over every run, pointers appended or about to be appended are exactly those of the retire calls made |
| `EpochReclaimers.RetireConserves` | include/lockless/epoch_reclaimer.hpp:99-112 | a retire adds exactly its pointer to what waits or is deleted |
| `EpochReclaimers.EpochReclaimer.constructor` | include/lockless/epoch_reclaimer.hpp:52-52 | epoch 0, no slot in use, three empty lists |
| `EpochReclaimers.EpochReclaimer.RegisterThread` | include/lockless/epoch_reclaimer.hpp:67-76 | claims the first free slot, -1 exactly if there is none |
| `EpochReclaimers.EpochReclaimer.UnregisterThread` | include/lockless/epoch_reclaimer.hpp:78-82 | frees the slot; an id out of range changes nothing |
| `EpochReclaimers.EpochReclaimer.EnterCritical` | include/lockless/epoch_reclaimer.hpp:85-91 | publishes the global epoch in the slot, which keeps every slot within one of it |
| `EpochReclaimers.EpochReclaimer.LeaveCritical` | include/lockless/epoch_reclaimer.hpp:93-95 | marks the slot inactive |
| `EpochReclaimers.EpochReclaimer.TryAdvance` | include/lockless/epoch_reclaimer.hpp:127-159 | advances exactly if no active reader holds another epoch, and then deletes exactly what was retired three epochs before the new one |
| `EpochReclaimers.EpochReclaimer.Retire` | include/lockless/epoch_reclaimer.hpp:99-112 | appends to the list of the current epoch, and the advance deletes only the list of the next one |
| `EpochReclaimers.EpochReclaimer.Destroy` | include/lockless/epoch_reclaimer.hpp:54-60 | deletes everything still waiting, list by list |
| `HashTable.NextInv` | include/lockless/hash_map.hpp:35-118 | every action keeps the probe-chain invariant: slots before a claimed one in its probe order are occupied, ready cells hold what was claimed |
| `HashTable.ExecInv` | include/lockless/hash_map.hpp:35-118 | over every run claims and flags only move forward and ready cells never change |
| `HashTheorems.FindsAgree` | include/lockless/hash_map.hpp:93-118 | once a find returned a value, every find of that key that returns true returns the same one |
| `HashTheorems.FoundForever` | include/lockless/hash_map.hpp:35-118 | a find that starts after another one returned a value does not fail and returns that same value, racing inserts or not |
| `HashTheorems.ClaimedIsFound` | include/lockless/hash_map.hpp:97-117 | from the claim on, no find of the key that has not returned can miss it |
| `HashTheorems.InsertedIsClaimed` | include/lockless/hash_map.hpp:54-59 | an insert that returned true left its key claimed |
| `HashTheorems.InsertedIsFound` | include/lockless/hash_map.hpp:35-118 | after an insert returned true every later find of the key does not fail and returns a value some insert supplied for it |
| `HashTheorems.FoundWasInserted` | include/lockless/hash_map.hpp:112-115 | a found value is the one supplied by the insert that claimed the slot |
| `HashTheorems.FindFailure` | include/lockless/hash_map.hpp:97-117 | a failing find: the key was claimed nowhere; after a full probe every slot is ready with another key |
| `HashTheorems.InsertFailure` | include/lockless/hash_map.hpp:44-63 | a failing insert met its key ready in a slot, or found every slot occupied |
| `HashAlone.FindAlone` | include/lockless/hash_map.hpp:93-118 | on a table with no claim pending, a find that runs alone returns within 3 * Size + 1 actions, with the value of the first slot of its key, and nothing exactly if no slot holds it |
| `HashAlone.InsertAlone` | include/lockless/hash_map.hpp:35-64 | likewise an insert returns true exactly if its key is absent and a slot is free, and then fills one free slot and changes no other |
| `HashAlone.FinishesAlone` | include/lockless/hash_map.hpp:35-118 | from any point of an insert, whatever is claimed and not ready, at most 3 * Size + 5 actions of its own return; from any point of a find likewise if every claimed slot is ready |
| `HashTheorems.LateInsertRejected` | include/lockless/hash_map.hpp:39-50 | an insert that starts when its key is ready stays at or before that slot and can only return false, over every run |
| `HashClaims.ClaimExactly` | include/lockless/hash_map.hpp:35-64 | an insert that starts now can claim a slot in some continuation if and only if no slot is ready with its key and some slot is free |
| `HashClaims.DuplicateExactly` | include/lockless/hash_map.hpp:35-64 | a key already claimed can get a second slot if and only if no claim for it is ready yet and a slot is free |
| `HashAtomic.StepRefines` | include/lockless/hash_map.hpp:35-118 | with inserts of one key apart, each action is one step of an atomic bounded insert-only map or leaves it alone |
| `HashAtomic.RefinesMap` | include/lockless/hash_map.hpp:35-118 | every run in which no two inserts of one key overlap behaves as that map: added, rejected, no room, found, missing, each at one action |
| `HashAtomic.KeysUnique` | include/lockless/hash_map.hpp:39-58 | in such runs from the constructor no key is ever ready in two slots |
| `HashRace.RacingInsertsDuplicate` | include/lockless/hash_map.hpp:35-64 | two overlapping inserts of one key both return true and leave two values |
| `HashMaps.HashMap.constructor` | include/lockless/hash_map.hpp:26-28 | an empty map |
| `HashMaps.HashMap.Insert` | include/lockless/hash_map.hpp:35-64 | true exactly if the key is absent and a slot is empty, and then the map gains the pair |
| `HashMaps.HashMap.Find` | include/lockless/hash_map.hpp:93-118 | the value of the key in the map, or none |
| `Spsc.IndexTests` | include/lockless/spsc_queue.hpp:38-41 | equal masked indices mean equal counters, and a successor that meets the tail means Size - 1 items |
| `Spsc.NextInv` | include/lockless/spsc_queue.hpp:36-75 | every action of producer and consumer keeps head = H mod Size, tail = T mod Size and 0 <= H - T <= Size - 1 |
| `Spsc.RefinesFifo` | include/lockless/spsc_queue.hpp:36-80 | every interleaving behaves as an atomic FIFO of capacity Size - 1 |
| `Spsc.FailureExact` | include/lockless/spsc_queue.hpp:41-70 | refusal exactly if full, or empty, at the load of the opposite index |
| `Spsc.TakesEffect` | include/lockless/spsc_queue.hpp:45-74 | over every run, a push that takes effect returns true and a pop that takes effect returns exactly the oldest item |
| `Spsc.AnswersMean` | include/lockless/spsc_queue.hpp:36-75 | false and nothing come only from a refusing load of a full, or empty, queue; every other answer is that of its event |
| `Spsc.PushAlone` | include/lockless/spsc_queue.hpp:36-48 | a push that runs alone, wherever the consumer stands, returns true exactly if the queue was not full and then appends |
| `Spsc.PopAlone` | include/lockless/spsc_queue.hpp:64-75 | a pop that runs alone returns and removes the oldest item, nothing exactly if there is none |
| `Spsc.NoCollision` | include/lockless/spsc_queue.hpp:45-72 | with stale indices, the producer writes only outside the queue, the consumer reads the oldest item, never the same cell |
| `Spsc.WaitFree` | include/lockless/spsc_queue.hpp:36-75 | a call ends after four of its own actions, whatever the other side does |
| `SpscQueues.SpscQueue.constructor` | include/lockless/spsc_queue.hpp:28-28 | an empty queue |
| `SpscQueues.SpscQueue.TryPush` | include/lockless/spsc_queue.hpp:36-48 | true exactly if fewer than the capacity are stored, and then the item is appended |
| `SpscQueues.SpscQueue.TryPop` | include/lockless/spsc_queue.hpp:64-75 | true exactly if not empty, and then the oldest item is removed and returned |
| `SpscQueues.SpscQueue.Empty` | include/lockless/spsc_queue.hpp:82-84 | true exactly if the queue has no item |
| `Arena.NextInv` | include/lockless/message_queue.hpp:27-42 | every action keeps the blocks packed from 0 to the offset |
| `Arena.BlocksDisjoint` | include/lockless/message_queue.hpp:27-42 | blocks ever returned to concurrent callers are pairwise disjoint and inside the arena |
| `Arena.AllocAlone` | include/lockless/message_queue.hpp:27-42 | an allocation that runs alone returns the block at the offset and moves the offset past it, or throws and changes nothing, by the wrapped sum |
| `Arena.FinishesAlone` | include/lockless/message_queue.hpp:30-41 | from any point of an allocation, however stale the offset it read, two actions of its own return the block at the current offset or throw exactly if it does not fit |
| `Arena.RequestsExactly` | include/lockless/message_queue.hpp:31-31 | blocks stay inside for all runs if and only if no request can wrap the sum |
| `Arena.AddressRoundTrip` | include/lockless/message_queue.hpp:44-53 | get and get_offset are inverse on the arena and recognise exactly what lies outside |
| `ZeroCopy.NextInv` | include/lockless/message_queue.hpp:64-77 | preparing, pushing and popping concurrently keep every handle naming its own block at one position |
| `ZeroCopy.RingFollows` | include/lockless/message_queue.hpp:68-77 | the queue part of any run is a run of the ring buffer |
| `ZeroCopy.MessagesDoNotInterfere` | include/lockless/message_queue.hpp:56-82 | over every run the handles popped are the first ones pushed, in order; each has the offset and size that allocate returned for its block, inside the arena, and any two name disjoint blocks |
| `ZeroCopyRuns.SentInOrder` | include/lockless/message_queue.hpp:68-73 | over every run the blocks enqueued are those whose push_message won its exchange, in the order of the exchanges |
| `ZeroCopyRuns.ArenaFollows` | include/lockless/message_queue.hpp:64-66 | the arena part of any run is a run of the arena |
| `ZeroCopyRuns.SendAlone` | include/lockless/message_queue.hpp:68-73 | an undisturbed push_message: with room its message is the newest, with the block's offset and size; without, the block is the producer's again |
| `ZeroCopyRuns.ReceiveAlone` | include/lockless/message_queue.hpp:75-77 | an undisturbed pop_message delivers and removes the oldest message, and fails exactly if there is none |
| `ZeroCopyQueues.SharedMemoryArena.constructor` | include/lockless/message_queue.hpp:23-23 | an empty arena |
| `ZeroCopyQueues.SharedMemoryArena.Allocate` | include/lockless/message_queue.hpp:27-42 | throws exactly if the wrapped sum exceeds the size; a block granted without wrap is inside and disjoint from all earlier ones |
| `ZeroCopyQueues.ZeroCopyQueue.constructor` | include/lockless/message_queue.hpp:62-62 | an empty queue over an empty arena |
| `ZeroCopyQueues.ZeroCopyQueue.PushMessage` | include/lockless/message_queue.hpp:68-73 | true exactly for a pointer into the arena while the queue is not full |
| `ZeroCopyQueues.ZeroCopyQueue.PopMessage` | include/lockless/message_queue.hpp:75-77 | removes and returns the oldest handle, false exactly on empty |
| `Book.FoldSplit` | include/lockless/order_book.hpp:57-66 | how a sequence of orders is cut into batches does not matter |
| `Book.BookIsResting` | include/lockless/order_book.hpp:97-144 | best bid and ask are the best prices of the orders that matched nothing, the others are counted, and the book is not crossed |
| `Book.PricesExactly` | include/lockless/order_book.hpp:49-50 | a set of sides and prices never crosses the book, for all sequences, if and only if it has no buy at UINT64_MAX and no sell at 0 |
| `Book.TotalsExact` | include/lockless/order_book.hpp:102-132 | while the quantities of each side and the orders fit 64 bits nothing wraps: the book equals the book on unbounded integers |
| `Book.TotalsBounded` | include/lockless/order_book.hpp:102-132 | each total is then at most what the resting orders of its side brought in |
| `Book.TotalsShow` | include/lockless/order_book.hpp:101-132 | while the quantities of each side fit 64 bits, its total is what its resting orders brought in less what the crossing orders of the other side took, each the smaller of its quantity and what was left |
| `BookRuns.NextInv` | include/lockless/order_book.hpp:53-66 | concurrent submission and batch processing keep book, batch and queue in step |
| `BookRuns.BookFollowsQueue` | include/lockless/order_book.hpp:53-144 | in every run, between calls, the book is the fold of exactly the drained orders in submission order |
| `BookRuns.CallRecord` | include/lockless/order_book.hpp:57-59 | a call counts from its start, and its early end is recorded only at a pop that returned false |
| `BookRuns.CallDrains` | include/lockless/order_book.hpp:57-66 | in every run a call drains at most its batch size and at most 100 orders, and fewer only because a pop was refused |
| `BookAlone.SubmitAlone` | include/lockless/order_book.hpp:53-55 | an undisturbed submit is accepted exactly if the queue is not full, and then its order is the newest |
| `BookAlone.ProcessAlone` | include/lockless/order_book.hpp:57-66 | an undisturbed call takes from the front as many orders as there are, at most the batch size and at most 100, and processes exactly these in order |
| `OrderBooks.OrderBook.constructor` | include/lockless/order_book.hpp:48-51 | the empty book over an empty queue |
| `OrderBooks.OrderBook.SubmitOrder` | include/lockless/order_book.hpp:53-55 | true exactly if the queue is not full |
| `OrderBooks.OrderBook.RaiseBid` | include/lockless/order_book.hpp:112-119 | the compare-exchange loop leaves the maximum |
| `OrderBooks.OrderBook.LowerAsk` | include/lockless/order_book.hpp:134-141 | the compare-exchange loop leaves the minimum |
| `OrderBooks.OrderBook.ProcessSingleOrder` | include/lockless/order_book.hpp:97-144 | the five atomics change as the specification step that the Book theorems are about |
| `OrderBooks.OrderBook.ProcessOrders` | include/lockless/order_book.hpp:57-66 | drains from the front as many orders as there are, at most the batch size and at most 100, and folds them into the book |

## Left out

- Weak memory: relaxed, acquire and release orderings, fences and data races in the C++ sense; the model is sequentially consistent.
- RingBuffers.RingBuffer.constructor: promises a queue for two cells or more only, because with one cell the queue promise is false (see `RingSizeOne.CapacityExactly`).
- RingWrap.ExecWraps: states sizes up to 2^62; for 2^63 cells the hypothesis of fewer than 2^63 - Size claims admits no call.
- ArrayStacks.ArrayStack.TryPush: the classes do not interleave calls; interleavings are the subject of the state machines.
- EpochReclaimers.EpochReclaimer.Retire: an epoch at UINT64_MAX - 1 is excluded, as that many advances are out of reach.
- EpochInv.NextInv: a slot's `in_use` and `local_epoch` are read in one action of the scan, since registration is serialised.
- BookRuns.BookFollowsQueue: one order is processed in one action, since no other thread writes the book; concurrent getters are not modelled.
- Races of register_thread and unregister_thread on the plain `in_use` flag, and nested guards of one thread.
- Several concurrent callers of process_orders, for which load and fetch_sub are not one step.
- Termination of the spin in the hash map's find, which depends on the scheduler letting the claimant finish.
- The overloads that take rvalues, and the second retire overload with a deleter: same control flow as the ones modelled.
- The getters get_index, get_by_index, capacity, is_lock_free and the totals of the order book are not modelled.
- include/lockless/cache_utils.hpp, include/lockless/common.hpp and padding: layout and diagnostics.
- include/lockless/ordering_validator.hpp, include/lockless/performance_monitor.hpp, benchmarks, examples, scripts and build files: clocks, I/O and build.
- include/lockless/stack.hpp: a type alias.
