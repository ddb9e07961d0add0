# RingBuf: a verified model of four ring buffers

RingBuf is a C library of bounded ring buffers over one flat block of memory: a lock-free ring for many
producers and many consumers (MPMC), one for many producers and a single consumer (MPSC), one for a
single producer and a single consumer (SPSC), and a blocking ring built on a mutex and two condition
variables. This project models each protocol step by step and proves what its users rely on.

Each ring comes as

- a protocol module: the state, the atomic steps (each load, compare-and-swap, store and copied byte is a
  step of its own), and the invariant. Any number of threads take steps in any order;
- lemmas over every step and every run: the invariant is kept, the run is a run of a bounded FIFO queue
  (`BoundedFifo`), results mean what they say;
- a class with the ring's own fields, updated in place: 64-bit words, the slot array, and one flat byte
  block addressed by `idx * objSize_ + i`. Each method performs one atomic step, and its contract says
  that the state the fields stand for moves exactly as the protocol says. The whole `Push` and `Pop` calls
  are methods composed of those steps.

| file | content |
|---|---|
| `words.dfy` | size_t arithmetic: wrap-around, masks, powers of two |
| `cells.dfy`, `operations.dfy`, `bounded_fifo.dfy` | the flat object area, results and codes, the reference queue |
| `layout.dfy` | what `get_buf` accepts, the offsets it computes, the first slot values |
| `mpmc_*.dfy` | protocol, invariant, runs, results, calls, quiescence and draining, callback pops, capacity one, the class |
| `mpsc_*.dfy` | protocol, invariant, runs, calls, the cached head, callback pops, the class |
| `spsc_*.dfy` | protocol with invariant, runs, the class |
| `block_*.dfy` | protocol, invariant, runs, calls, the class |

How the model reads the source:

- Head and tail are tickets. Ticket `k` lives in cell `Idx(k, n)`, which is `k & mask_`.
- MPMC loads of `head_`, `tail_` and the slots may return any value not newer than the current one, so the
  results hold under stale reads. MPSC and SPSC loads of the other side's index may be stale too, but not
  older than what took the thread's own index where it is; the results that need a current load say so. A cell's
  bytes are taken to be visible to the thread that synchronised with the release store of its slot, flag
  or index.
- MPMC and MPSC return tickets as `ssize_t`, which tells them from error codes only below 2^63
  (`Operations.TicketCodeIsTicket`), and MPMC compares them as `intptr_t`. Their classes
  therefore keep `head_ + objNum_ < 2^63`, and the claiming step asks for one more ticket below that bound.
  The SPSC and blocking classes have no such bound: their words wrap.
- A size check compares with the padded object size, so a pop may ask for more bytes than were pushed;
  it gets the pushed bytes first.
- The MPSC and SPSC caches are thread-local, not per ring, so they may hold what another ring left there.
  The MPSC results hold for any cached head. For SPSC, `SpscRuns.SafeExactly` says which caches are safe; a
  fresh consumer thread on a fresh ring is.
- A callback pop reads its cell at any offsets, any number of times, and does not write it. It returns what its
  callback returned; the model's result records the ticket it took and the bytes the callback saw.
- The constructors ask for sizes whose byte counts fit in 64 bits, because beyond them the computed block
  holds no cells; `get_buf` itself does not check this.

Where the code does less than one might expect, the model follows the code and a lemma shows it:

- an MPSC push may report FULL on an empty ring, when the consumer overtakes the head value it loaded
  (`MpscRuns.FullDespiteRoom`; `MpscRuns.FullMeans` says exactly when, stale loads included);
- `get_buf` accepts sizes whose byte count does not fit in 64 bits (`Layout.AcceptedButUnsound`;
  `Layout.SoundIffFits` says exactly when the layout is sound);
- an SPSC consumer whose cached head promises more than the ring holds pops objects never pushed, and a
  producer whose cached tail shows less overwrites unread ones (`SpscRuns.SafeExactly` says exactly when);
- the MPSC branch for `SLOT_UNKNOWN` is never taken (`MpscRuns.UnknownIsNeverReturned`);
- MPMC's EMPTY may be reported with completed pushes queued, and its FULL with room
  (`MpmcResults.EmptyDespiteCompletedPush`, `MpmcResults.FullDespiteRoom`; `MpmcResults.EmptyMeans` and
  `MpmcResults.FullMeans` say exactly when). With no operation in flight they mean an empty and a full queue
  (`MpmcQuiescence.SoloPop`, `MpmcQuiescence.SoloPush`);
- capacity one would lose objects, so the lower bound of two is needed (`MpmcCapacity.CapacityOneLosesObjects`).

## Model

| member | source | states |
|---|---|---|
| Words.PowerOfTwoTest | src/RingBuf_common.c:150-155 | the capacity test accepts exactly the powers of two |
| Words.MaskIsMod | src/RingBuf_common.c:193 | for such a capacity masking with `objNum - 1` is reduction modulo the capacity |
| Words.IdxApart | src/RingBuf_Mpmc.c:34 | tickets less than a capacity apart never share a cell |
| Words.IdxOfWrapped | src/RingBuf_Spsc.c:38-39 | masking a counter that wrapped at 2^64 still gives the cell of the unbounded ticket |
| Words.DistanceOfWrapped | src/RingBuf_Spsc.c:31-33 | unsigned subtraction of wrapped counters recovers the true distance |
| Words.SignedCast | src/RingBuf_Mpmc.c:39 | the cast to `intptr_t` keeps the word and lands in the signed range |
| Cells.StoreInCell | src/RingBuf_Mpmc.c:61 | a byte stored at its flat address changes that byte of that cell and no other cell |
| Operations.ErrorCodes | src/RingBuf_public.h:40-52 | the codes callers get for the errors |
| Layout.AlignsUp | src/RingBuf_common.c:43-47 | without overflow the aligned offset is a multiple of the alignment, not below the base, and no other multiple lies between |
| Layout.AlignsUpIffFits | src/RingBuf_common.c:43-47 | the aligned offset is not below its base if and only if the intermediate sum fits in a word |
| Layout.SoundIffFits | src/RingBuf_common.c:49-76 | header, cells and slots fit in order into the computed size if and only if neither the padded object size nor the block size wraps |
| Layout.AcceptedButUnsound | src/RingBuf_common.c:148-161 | a capacity that passes every check of `get_buf` and whose object area wraps to nothing |
| Layout.BlockSoundIffFits | src/RingBuf_common.c:241-242 | the blocking ring's objects fit their cells and its object area the computed block if and only if neither the padding nor the block size wraps |
| Layout.AcceptsExactly | src/RingBuf_common.c:150-169 | which parameters are accepted, which refusal and error code each other gets and in which order they are judged; accepted sizes that fit are laid out soundly and without waste |
| Layout.AddressesApart | src/RingBuf_private.h:59-60 | in a sound layout all cell bytes are inside the block, distinct, after the header and before every slot, and the slots are a cache line apart from their start on |
| Layout.InitSlots | src/RingBuf_common.c:198-210 | the loops leave slot `i` at `i` for MPMC, at SLOT_EMPTY for MPSC, and untouched otherwise |
| MpmcInvariant.StepKeepsInv | src/RingBuf_Mpmc.c:33-104 | every atomic step of every thread, with stale loads, keeps the slot, ownership and data invariant |
| MpmcInvariant.InitialInv | src/RingBuf_common.c:198-203 | the initialised ring satisfies it |
| MpmcInvariant.ClaimedCellIsFree | src/RingBuf_Mpmc.c:52-57 | when the CAS on `head_` succeeds, the cell is free for that ticket and the ring was not full |
| MpmcInvariant.TakenCellIsPublished | src/RingBuf_Mpmc.c:93-98 | when the CAS on `tail_` succeeds, the ticket is published |
| MpmcInvariant.HoldersApart | src/RingBuf_Mpmc.c:54-64 | two threads between claim and release are never on the same cell |
| MpmcRuns.RunRefinesFifo | src/RingBuf_Mpmc.c:33-104 | every run of any number of threads is a run of the FIFO queue bounded by `objNum` |
| MpmcRuns.PopReturnsItsObject | src/RingBuf_Mpmc.c:99-103 | at its release a pop holds, in order and unmixed, the bytes of the object its ticket dequeued |
| MpmcRuns.ReturnedBytesWerePushed | src/RingBuf_Mpmc.c:99-103 | whatever any pop returns during a run are bytes of the object pushed under the ticket it returns |
| MpmcRuns.StaleLoadsAreSteps | src/RingBuf_Mpmc.c:33-39 | whatever an index or slot held earlier in a run may be what a later load returns |
| MpmcRuns.RunIsLater | src/RingBuf_Mpmc.c:52-64 | indices, slots and histories only grow along a run |
| MpmcRuns.TicketsReturnedOnce | src/RingBuf_Mpmc.c:54-65 | in every run no two pushes and no two pops return the same ticket |
| MpmcRuns.PoppedTicketsAccountedFor | src/RingBuf_Mpmc.c:95-103 | a popped ticket is either handed over as pushed or held by the one thread that took it |
| MpmcRuns.CellsAreExclusive | src/RingBuf_Mpmc.c:54-64 | in every reachable state at most one thread works on a cell |
| MpmcRuns.HeldCellIsStable | src/RingBuf_Mpmc.c:134-137 | the cell a pop reads or shows to its callback stays the same until its release, under any interleaving |
| MpmcRuns.FullIsHonest | src/RingBuf_Mpmc.c:39-50 | FULL on a current slot load if and only if `head_` is unmoved and the ticket one lap back is unreleased |
| MpmcRuns.EmptyIsHonest | src/RingBuf_Mpmc.c:80-91 | EMPTY on a current slot load if and only if `tail_` is unmoved and its ticket is unpublished |
| MpmcRuns.ContentionMeansLost | src/RingBuf_Mpmc.c:41-57 | CONTENTION means another thread won the ticket this one had loaded |
| MpmcResults.IndexLoadDecides | src/RingBuf_Mpmc.c:33 | an index load, current or stale, only hands its value on |
| MpmcResults.SlotLoadDecides | src/RingBuf_Mpmc.c:39-50 | at a slot load, current or stale: CONTENTION if and only if the slot is past, FULL or EMPTY if and only if it is behind |
| MpmcResults.CasDecides | src/RingBuf_Mpmc.c:52-57 | at a compare-and-swap on either index: CONTENTION if and only if the index has moved, and else the thread owns its ticket |
| MpmcResults.ResultsInRuns | src/RingBuf_Mpmc.c:39-65 | at every event of every run, FULL, EMPTY, CONTENTION and tickets are returned for these reasons and no other |
| MpmcCalls.CallContract | src/RingBuf_Mpmc.c:27-104 | under any interleaving a call keeps its argument, takes effect at most once, and returns a ticket if and only if it did, with its object pushed under it or all bytes asked for read from the object pushed under it |
| MpmcCalls.PopSeesItsCell | src/RingBuf_Mpmc.c:134 | a copy or callback sees just the bytes it reads, in order, of the cell as it was when the ticket was taken |
| MpmcResults.EmptyMeans | src/RingBuf_Mpmc.c:80-91 | EMPTY on a current slot load if and only if `tail_` is unmoved and the queue is empty or its front still being written |
| MpmcResults.FullMeans | src/RingBuf_Mpmc.c:39-50 | FULL on a current slot load if and only if `head_` is unmoved and the queue is full or the cell one lap back still being read |
| MpmcResults.EmptyDespiteCompletedPush | src/RingBuf_Mpmc.c:87-91 | a run in which EMPTY is reported while a completed push waits behind an unpublished front |
| MpmcResults.FullDespiteRoom | src/RingBuf_Mpmc.c:45-50 | a run in which FULL is reported with one object in two cells |
| MpmcQuiescence.OwnStepAdvances | src/RingBuf_Mpmc.c:33-65 | no operation waits: its next step is always open and brings it nearer its return |
| MpmcQuiescence.OperationIsBounded | src/RingBuf_Mpmc.c:33-104 | a push or copying pop takes a bounded number of its own steps under any interleaving |
| MpmcQuiescence.QuietNormalForm | src/RingBuf_Mpmc.c:63-64 | with nothing in flight every slot is determined by head and tail |
| MpmcQuiescence.QuietSlotsDetermined | src/RingBuf_common.c:198-203 | two quiet rings with the same indices have the same slot array |
| MpmcQuiescence.SoloPush | src/RingBuf_Mpmc.c:25-66 | on a quiet ring a push fails only on size or on a full queue, and otherwise appends its object |
| MpmcQuiescence.SoloPop | src/RingBuf_Mpmc.c:68-139 | on a quiet ring a pop, copying or by callback, fails only on size or on an empty queue, and otherwise removes the front |
| MpmcQuiescence.QuietIsReachable | src/RingBuf_Mpmc.c:54-103 | from every reachable state the operations in flight can be run to their returns without starting any other |
| MpmcQuiescence.PopsDeliver | src/RingBuf_Mpmc.c:68-104 | from a quiet ring any number of whole-object pops up to the occupancy is a run that returns the front objects in order, with their tickets |
| MpmcQuiescence.EveryStateDrains | src/RingBuf_Mpmc.c:54-103 | after every run that leaves nothing in flight, all tickets below tail were handed over as pushed, and a run of pops returns every remaining object in order and leaves the ring empty |
| MpmcCallback.CallbackRun | src/RingBuf_Mpmc.c:106-139 | under any interleaving, making every pop a callback pop gives a run with the same indices, slots, cells and results |
| MpmcCallback.CopyRun | src/RingBuf_Mpmc.c:68-104 | and so does making every pop a copy of any one size that fits |
| MpmcCallback.StepsMatch | src/RingBuf_Mpmc.c:75-103 | steps of the two kinds of pop lead from rings alike to rings alike |
| MpmcCapacity.CapacityOneLosesObjects | src/RingBuf_common.c:152 | with capacity one the protocol overwrites an unread object, so the lower bound of two is needed |
| MpmcRing.MpmcRingBuf.constructor | src/RingBuf_common.c:186-214 | for sizes that fit a 64-bit block, fields, layout and slots start in the protocol's initial state |
| MpmcRing.MpmcRingBuf.BytesPlaced | src/RingBuf_Mpmc.c:61 | every byte the ring touches has an address of its own in the computed block, apart from header and slots |
| MpmcRing.MpmcRingBuf.SlotsPlaced | src/RingBuf_private.h:60 | every slot has a cache line of its own inside the block |
| MpmcRing.MpmcRingBuf.LoadPushSlot | src/RingBuf_Mpmc.c:34-50 | the slot load and the signed 64-bit comparison decide as the protocol does: past is -103, behind is -100 |
| MpmcRing.MpmcRingBuf.CasHead | src/RingBuf_Mpmc.c:52-57 | the CAS on the word is the protocol's claim; a lost one returns -103 |
| MpmcRing.MpmcRingBuf.WriteByte | src/RingBuf_Mpmc.c:61 | one byte of memcpy into the flat block |
| MpmcRing.MpmcRingBuf.Publish | src/RingBuf_Mpmc.c:63-65 | the release store of `head + 1` |
| MpmcRing.MpmcRingBuf.LoadPopSlot | src/RingBuf_Mpmc.c:76-91 | the slot load and comparison of a pop: past is -103, behind is -101 |
| MpmcRing.MpmcRingBuf.CasTail | src/RingBuf_Mpmc.c:93-98 | the CAS on `tail_`; a lost one returns -103 |
| MpmcRing.MpmcRingBuf.Release | src/RingBuf_Mpmc.c:101-103 | the release store of `tail + objNum` |
| MpmcRing.MpmcRingBuf.Push | src/RingBuf_Mpmc.c:27-66 | the whole call on a quiet ring: result code and queue |
| MpmcRing.MpmcRingBuf.Pop | src/RingBuf_Mpmc.c:68-104 | the whole call on a quiet ring: result code, bytes and queue |
| MpscInvariant.StepKeepsInv | src/RingBuf_Mpsc.c:35-80 | every atomic step keeps the flag and data invariant, whatever the cached head |
| MpscInvariant.ClaimFindsRoom | src/RingBuf_Mpsc.c:35-42 | a successful CAS finds room and a cell marked empty |
| MpscInvariant.LooksFullIsWrapped | src/RingBuf_Mpsc.c:37-39 | the 64-bit comparison is "tail passed head, or a lap ahead" |
| MpscRuns.RunRefinesFifo | src/RingBuf_Mpsc.c:35-80 | every run of any number of producers and one consumer is a run of the bounded FIFO queue |
| MpscRuns.FlagsTellPublication | src/RingBuf_Mpsc.c:48-78 | a pending ticket is marked EMPTY if and only if its producer is still copying, else VALID |
| MpscRuns.PopReturnsFront | src/RingBuf_Mpsc.c:77-80 | a pop returns the front ticket and bytes of the front object |
| MpscRuns.HeldCellIsStable | src/RingBuf_Mpsc.c:104-106 | the cell a pop reads or shows to its callback stays the same meanwhile |
| MpscRuns.FullMeans | src/RingBuf_Mpsc.c:35-39 | exactly when FULL is reported, for current and stale loads of `tail_`: occupancy and missed pops fill the ring, or tail overtook the loaded head |
| MpscRuns.FullDespiteRoom | src/RingBuf_Mpsc.c:35-39 | a run in which FULL is reported on an empty ring |
| MpscRuns.ContentionMeansLost | src/RingBuf_Mpsc.c:40-42 | CONTENTION means another producer won the ticket |
| MpscCalls.PushLoadsDecide | src/RingBuf_Mpsc.c:35-39 | the loads of a push, current or stale: the head value is handed on, the tail value admits or refuses |
| MpscCalls.CasDecides | src/RingBuf_Mpsc.c:40-42 | CONTENTION if and only if `head_` has moved, and else the thread owns its ticket |
| MpscCalls.PopLoadsDecide | src/RingBuf_Mpsc.c:59-75 | the loads of a pop, with a current or stale reload, for any cached head |
| MpscCalls.PopEndsInOrder | src/RingBuf_Mpsc.c:77-80 | what a pop has read becomes its result, then the flag is cleared, then tail moves |
| MpscCalls.ResultsInRuns | src/RingBuf_Mpsc.c:35-80 | at every event of every run, errors and tickets are returned for these reasons and no other; FULL only at the load of `tail_` |
| MpscCalls.PushContract | src/RingBuf_Mpsc.c:27-50 | under any interleaving a push keeps its argument, takes effect at most once, and returns a ticket if and only if it did |
| MpscCalls.PopContract | src/RingBuf_Mpsc.c:52-108 | under any interleaving and for any cached head, a pop returns the front it found with all bytes asked for, or an error and no effect |
| MpscCalls.PopSeesItsCell | src/RingBuf_Mpsc.c:104 | a copy or callback sees just the bytes it reads, in order, of the front cell |
| MpscRuns.EmptyMeans | src/RingBuf_Mpsc.c:60-65 | for any cached head and any interleaving, EMPTY on a current reload if and only if the queue is empty |
| MpscRuns.WritingMeans | src/RingBuf_Mpsc.c:68-70 | for any cached head and any interleaving, SLOT_WRITING_DATA if and only if the front ticket is not published |
| MpscRuns.UnknownIsNeverReturned | src/RingBuf_Mpsc.c:71-75 | no operation of any run returns SLOT_STAT_UNKNOWN |
| MpscRuns.PopOutcome | src/RingBuf_Mpsc.c:52-108 | the exact outcome of a pop without interference, for every cached head |
| MpscCache.CachedHeadIsAdvisoryInRuns | src/RingBuf_Mpsc.c:59-75 | under any interleaving, another cached head gives a run through the same rings with the same results, but for EMPTY and SLOT_WRITING_DATA in each other's place |
| MpscCache.CachedHeadIsAdvisory | src/RingBuf_Mpsc.c:59-65 | without interference two cached heads give the same ring and ticket, or EMPTY against SLOT_WRITING_DATA |
| MpscCache.CoherentEmptyIsExact | src/RingBuf_Mpsc.c:60-65 | with a coherent cache an undisturbed pop reports EMPTY if and only if the queue is empty |
| MpscCache.StepKeepsCache | src/RingBuf_Mpsc.c:59-80 | a coherent cache stays coherent |
| MpscRuns.SizeIsSnapshot | src/RingBuf_Mpsc.c:119-139 | on the consumer's thread the two loads give the exact occupancy at the first one |
| MpscCallback.CallbackRun | src/RingBuf_Mpsc.c:86-108 | under any interleaving, making every pop a callback pop gives a run with the same indices, flags, cells and results |
| MpscCallback.CopyRun | src/RingBuf_Mpsc.c:52-81 | and so does making every pop a copy of any one size that fits |
| MpscRing.MpscRingBuf.constructor | src/RingBuf_common.c:186-214 | for sizes that fit a 64-bit block, fields, layout and flags start in the protocol's initial state, whatever the cached head |
| MpscRing.MpscRingBuf.SlotsPlaced | src/RingBuf_private.h:60 | every flag has a cache line of its own inside the block |
| MpscRing.MpscRingBuf.LoadPushTail | src/RingBuf_Mpsc.c:36-39 | the load of `tail_` and the unsigned test decide as the protocol does; a refusal returns -100 |
| MpscRing.MpscRingBuf.CasPushHead | src/RingBuf_Mpsc.c:40-42 | the CAS on the word is the protocol's claim; a lost one returns -103 |
| MpscRing.MpscRingBuf.ClearPopFlag | src/RingBuf_Mpsc.c:78 | the flag is cleared in the slot array |
| MpscRing.MpscRingBuf.StorePopTail | src/RingBuf_Mpsc.c:79-80 | tail is advanced after that |
| MpscRing.MpscRingBuf.Push | src/RingBuf_Mpsc.c:27-50 | the whole call without interference: result code and queue |
| MpscRing.MpscRingBuf.Pop | src/RingBuf_Mpsc.c:52-81 | the whole call without interference, whatever the producers are in the middle of: -110, the front's ticket and bytes, -101 or -112, and the queue |
| MpscRing.MpscRingBuf.PopUninterrupted | src/RingBuf_Mpsc.c:83-108 | on words the call, copying or by callback, is the protocol's |
| SpscProtocol.StepKeepsInv | src/RingBuf_Spsc.c:26-69 | every step keeps the data invariant and safe caches: what the consumer is promised, the occupancy, and what the producer is shown stay in this order |
| SpscProtocol.StepKeepsCoherence | src/RingBuf_Spsc.c:26-69 | from coherent caches every step keeps `local_tail <= tail <= local_head <= head <= local_tail + objNum` |
| SpscProtocol.WindowsApart | src/RingBuf_Spsc.c:26-62 | open push and pop windows are on different cells, and no pending cell is written |
| SpscRuns.RunRefinesFifo | src/RingBuf_Spsc.c:26-118 | from safe caches every run is a run of the bounded FIFO queue |
| SpscRuns.WindowIsStable | src/RingBuf_Spsc.c:49-69 | a pop window shows the same bytes from Begin to End |
| SpscRuns.PushWindowIsWritten | src/RingBuf_Spsc.c:26-47 | between Begin and End the push window holds just what the producer stores through it |
| SpscRuns.PopWindowIsRead | src/RingBuf_Spsc.c:49-69 | between Begin and End the consumer sees just the bytes it loads, of the cell as it was at Begin |
| SpscRuns.WindowsClose | src/RingBuf_Spsc.c:42-69 | closing a window returns its ticket and pushes what was written, or hands over what was read |
| SpscRuns.PoppedWasPushed | src/RingBuf_Spsc.c:99-118 | from a fresh ring every popped ticket was read from what was pushed under it |
| SpscRuns.RefreshDecides | src/RingBuf_Spsc.c:31-58 | what a refreshing load leads to, whatever permitted value it returns |
| SpscRuns.FullIsExact | src/RingBuf_Spsc.c:31-36 | a push is refused if and only if the ring is full at the refreshing load |
| SpscRuns.EmptyIsExact | src/RingBuf_Spsc.c:53-58 | a pop is refused if and only if the ring is empty at the refreshing load |
| SpscRuns.SafeExactly | src/RingBuf_Spsc.c:13-14 | between operations, for any words in the caches: all further runs are runs of the bounded FIFO queue if and only if the cached head promises no more, and the cached tail shows no less, than the ring holds |
| SpscRuns.SafeAsTickets | src/RingBuf_Spsc.c:31-56 | within a word range of the indices, unsafe means a cached head outside `[tail, head]` or a cached tail in `(tail, head]` |
| SpscRuns.FreshRingIsSafe | src/RingBuf_Spsc.c:13-14 | on a fresh ring all runs are FIFO if and only if the cached head is the word zero, whatever the cached tail |
| SpscRuns.SizeIsSnapshot | src/RingBuf_Spsc.c:142-148 | on either endpoint's thread Size is the exact occupancy at one of its loads |
| SpscRing.SpscRingBuf.constructor | src/RingBuf_common.c:186-214 | for sizes that fit a 64-bit block, fields and layout start in the protocol's initial state, whatever the cached tail |
| SpscRing.SpscRingBuf.RefreshTail | src/RingBuf_Spsc.c:31-36 | the refresh on wrapped words is the protocol's |
| SpscRing.SpscRingBuf.CloseWrite | src/RingBuf_Spsc.c:42-47 | End_push on wrapped words |
| SpscRing.SpscRingBuf.CloseRead | src/RingBuf_Spsc.c:64-69 | End_pop on wrapped words |
| SpscRing.SpscRingBuf.Push | src/RingBuf_Spsc.c:74-97 | the whole call, for any wrapped counters: result and queue |
| SpscRing.SpscRingBuf.Pop | src/RingBuf_Spsc.c:99-118 | the whole call, for any wrapped counters: result, bytes and queue |
| SpscRing.SpscRingBuf.Size | src/RingBuf_Spsc.c:120-148 | occupancy, emptiness and fullness from wrapped counters |
| BlockInvariant.StepKeepsInv | src/RingBuf_Block.c:26-56 | every step, with spurious and multiple wake-ups and barging, keeps mutual exclusion, data and the wake-up counts |
| BlockRuns.RunRefinesFifo | src/RingBuf_Block.c:26-56 | every run of the monitor is a run of the bounded FIFO queue |
| BlockRuns.PopReturnsFront | src/RingBuf_Block.c:51-53 | a pop returns the bytes of the front object |
| BlockCalls.TestDecides | src/RingBuf_Block.c:27-29 | at first or after any wake-up, a push sleeps if and only if the ring is full, a pop if and only if it is empty |
| BlockCalls.OtherStepServes | src/RingBuf_Block.c:26-37 | no step of another thread, a signal included, touches the call a thread is working on |
| BlockCalls.EffectsAreOfCalls | src/RingBuf_Block.c:26-35 | across any sleeps and wake-ups, a push enqueues the argument it was called with, and a pop dequeues having read just the bytes it was called for |
| BlockCalls.CallReturns | src/RingBuf_Block.c:18-57 | in every run a call returns the size error on a misfit and else the ticket, and the bytes, of its own effect |
| BlockRuns.NoLostWakeup | src/RingBuf_Block.c:36-54 | while data and a sleeping consumer coexist somebody is on the way to it; likewise for room and producers |
| BlockRuns.MovesUnlessAllAsleep | src/RingBuf_Block.c:26-38 | some thread can move if and only if some operation in progress is not asleep |
| BlockRuns.NoDeadlock | src/RingBuf_Block.c:27-50 | when nothing can move, all operations are pops on an empty ring or all are pushes on a full one |
| BlockRuns.DrivenRunsEnd | src/RingBuf_Block.c:26-56 | without new operations and spurious wake-ups every schedule ends within a bound |
| BlockRing.BlockRingBuf.constructor | src/RingBuf_common.c:231-321 | for sizes that fit a 64-bit block, the fields start in the protocol's initial state with header and object area filling the block |
| BlockRing.BlockRingBuf.TestRoom | src/RingBuf_Block.c:27-29 | the loop condition on wrapped words, and falling asleep |
| BlockRing.BlockRingBuf.AdvanceHead | src/RingBuf_Block.c:34-35 | the index moves on wrapped words |
| BlockRing.BlockRingBuf.SignalOther | src/RingBuf_Block.c:36 | the signal rouses any set POSIX allows, each with the argument it fell asleep with, and leaves the others alone |
| BlockRing.BlockRingBuf.Push | src/RingBuf_Block.c:18-39 | the whole call until it returns or sleeps; it sleeps exactly on a full ring |
| BlockRing.BlockRingBuf.Pop | src/RingBuf_Block.c:41-57 | the whole call until it returns or sleeps; it sleeps exactly on an empty ring |
| BlockRing.BlockRingBuf.EnterPush | src/RingBuf_Block.c:26-38 | from arrival or from a wake-up on: sleeps again exactly on a full ring, and else enqueues the object it came with |
| BlockRing.BlockRingBuf.EnterPop | src/RingBuf_Block.c:47-56 | likewise for a pop and the bytes it came for |

## Left out

- Allocation, `mmap`, shared-memory files, huge pages, attaching to an existing ring and deletion: operating-system calls; every ring starts freshly initialised, with its object area as an array of its own.
- Setup and teardown of the mutex and the condition variables: their POSIX meaning is taken as the steps of `BlockProtocol`.
- The C11 memory model beyond stale loads of the atomics: release/acquire publication of cell bytes is assumed, and the MPSC flag is read current. The consumer was the last to store EMPTY there, so a stale load could only return that EMPTY and report SLOT_WRITING_DATA early.
- memcpy copies bytes in ascending order, one step per byte; another order is not modelled.
- Size and Is_full called from a third thread: the two loads can straddle progress, so nothing useful holds.
- End_push or End_pop without a successful Begin: documented as undefined (cpp/RingBufWrapper.hpp:511 and 551).
- One thread taking turns on several SPSC rings while they run: `SpscRuns.SafeExactly` judges the caches it brings to a ring between operations, not the cache changing under an operation in progress.
- MpmcRing.MpmcRingBuf.constructor: asks for sizes that fit, like the other three constructors, although `get_buf` and `get_block_buf` also return a ring when the block size wraps; what such a ring's stores then hit is not modelled (`Layout.SoundIffFits` and `Layout.BlockSoundIffFits` say exactly when that is).
- The parameter checks of `get_block_buf`: the first and the last of those of `get_buf`.
- The size of the blocking ring's header, which depends on the platform's pthread types: a parameter of its constructor.
- `cpp/RingBufWrapper.hpp`, debug hooks, error strings, the explicit-error constructors and `Batch_pop_BlockRingBuf`, which has no implementation.
