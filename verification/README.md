# Inter-domain block device: model and proofs

This project models, in Dafny, the split block driver whose two halves live in `myrepo/frontend/frontend.c` and
`myrepo/backend/backend.c` and talk through the shared ring of `kernel/ring.h`, together with three self-contained
algorithms of the measurement toolkit: the thread barrier and the seek-list generator of `xdd`, and the device-name
printer of `sysstat`.

## What is modelled

**The ring.** `Word32` and `RingMacros` hold the 32-bit words, the power-of-two rounding, the occupancy macros, slot
masking and the notification test. `EventIndex` is the hold-off scheme of the push and final-check macros as a state
machine of its own, since the drivers compute the test and then ignore it.

**The protocol.** `Protocol` holds the messages, the fields of each side and the sequential code of both drivers as
functions on those values. `System` is the whole as a state machine with twenty actions: queue, push, read the peer's
status, poll and drain on the frontend; snapshot, consume, dispatch, complete a bio, push an answer, signal and return
the answered pool entry on the backend; the waiting and sleeping steps of both threads; and the three steps of each
interrupt handler. Any order is allowed that the locks of the code allow: an answered entry may be returned at any later
time, and the consume loop may find the pool empty. The ring size is any power of two up to 2^27 (32 in the code, by
`RingMacros.PageHoldsThirtyTwo`), the pool any number of entries (64 in the code). The block layer's requests have at
most 11 segments, which the frontend asks of it (`frontend.c:547`), and direction 0 or 1; what they are otherwise, the
grant references, the hypervisor's handles and failures, the pages a bio refuses, the bios that fail and the moments at
which a thread decides to sleep are arbitrary. Reading a union slot as the wrong member yields arbitrary bytes.

**The specification.** `Bag` is a plain bag of outstanding requests: accept a request under an id, note a fault, end a
request by a response with its own id. `Invariant` states what every reachable state satisfies, with unbounded counters
behind the stored 32-bit indexes, the full logs of both directions and the place of every id; `DataSteps`, `BagSteps`,
`GrantSteps`, `QuietSteps`, `SystemSteps` and `AnswerSteps` prove that every action keeps it, `Reachability` carries it
over whole runs together with the recorded history, `EndToEnd` states the results on the stored state and the history
alone, and `Mappings` counts the handles mapped and unmapped along a run.

**The sleep handshake.** The handler and the two stores by which a thread announces its sleep are separate steps, as in
the code. As written the code can lose a wakeup in two ways. A handler that comes between the two stores leaves the
status RUNNING with the waiting flag clear; and a pass that the empty pool breaks off under SLEEPING leads the backend
thread straight to sleep over unread requests that nobody will announce again. `Handshake` and `EndToEnd` prove that the
intended coupling holds on every run in which the first does not happen (in particular on every run in which the two
stores, and the handler, are single steps: `Wakeups.WholeHandshake`) and the intended coverage of sleepers unless the
sleeper comes from a pass broken off. `Wakeups` gives the exact conditions for a sleeper to be woken, and `LostRuns`
builds the losing runs: of either thread by the race, for every ring and pool, and of the backend thread by the empty
pool, for every ring of two entries or more and every pool. `Progress` gives the exact condition, in every reachable
state of a system with at least one pool entry, for all outstanding requests to be ended without new ones.

**The drivers.** `SharedRing`, `Frontend` and `Backend` are classes with the fields of the code, updated in place:
shared page, shadow table, free list, pool and handle array. Each method states the new state directly or by the
function of `Protocol` that specifies it. `DriverRuns` proves that in every reachable state the drain loop and the consume loop meet
no BUG and are runs of the system's actions, and `RoundRuns` that sleeping rounds, handlers and flushes are, so the
results about all runs apply to them. `Dispatch` has the segment encoding, what the backend accepts and the bio-building
loop, `Acceptance` what the frontend accepts.

**The toolkit.** `Barrier`, `DeviceNames` and `SeekList` each pair the code's class or loop with a specification and the
properties it is for; `DistinctNames` says when distinct devices have distinct names.

## Model

| member | source | states |
|---|---|---|
| EndToEnd.Refinement | myrepo/frontend/frontend.c:145-229 | Every run of frontend, backend, bios and interrupts in any order is a trace of the bag machine ending in the bag held by the shadow table; no BUG or BUG_ON fires, given at most 11 segments to a request |
| EndToEnd.EachRequestEndsOnce | myrepo/frontend/frontend.c:284-321 | Under every id acceptances and ends alternate, so each accepted request is ended at most once, and the outstanding one is the block request accepted last |
| EndToEnd.InFlightPartition | myrepo/frontend/frontend.c:377-406 | The ids in flight are the disjoint union of those queued, those held by the backend and those answered but unread; no id occurs twice in any of the three |
| EndToEnd.RingOrder | kernel/ring.h:166-206 | The stored indexes are the counts of requests queued and copied and responses written and read, mod 2^32, in ring order within a window of the ring size |
| EndToEnd.SlotsAreExact | kernel/ring.h:188-192 | Requests copied out are exactly the first ones queued, in order, and responses read exactly the first ones written, whatever a misread union slot would yield |
| EndToEnd.OccupancyExact | kernel/ring.h:166-196 | In every reachable state the occupancy macros yield the true unread and free counts, and the overflow guard holds only when nothing is unread |
| EndToEnd.ConsumeProceedsExactly | myrepo/backend/backend.c:325-354 | While the snapshot is not reached the overflow guard never stops the consume loop; with a free pool entry it takes a request and the distance to the snapshot shrinks by one, with none it breaks off and changes nothing else; there is a free one whenever the pool has room for the ring and the entries still to be returned |
| EndToEnd.FreeList | myrepo/frontend/frontend.c:119-143 | The chain from the free-list head is acyclic, holds exactly the ids not in flight, has ring size minus outstanding entries; an id passes the recycling check if and only if it is in flight |
| EndToEnd.PoolAccounting | myrepo/backend/backend.c:102-135 | Every pool entry is either in use or, once, on the free list or answered and on its way to it; the completion counter is the number of unfinished bios; the status is -1 if and only if a bio of the outstanding request failed |
| EndToEnd.AnsweredAtLastBio | myrepo/backend/backend.c:102-114 | In every reachable state the last unfinished bio of an entry writes an answer and no other does; it has the id and direction of the outstanding request in the replayed history, and -1 if and only if a bio of it failed |
| EndToEnd.GrantsConserved | myrepo/frontend/frontend.c:170-237 | Free grant references plus those of outstanding requests stay the initial ones |
| EndToEnd.MappingsMatchBios | myrepo/backend/backend.c:80-176 | Stored handles and live mappings are inverse to each other and belong to entries with unfinished bios |
| Mappings.EachMappingUndoneOnce | myrepo/backend/backend.c:80-176 | Over every run the handles the hypervisor handed out are, each as often, those passed back to it and those of live mappings |
| Mappings.NothingLeftMapped | myrepo/backend/backend.c:80-100 | When no bio is unfinished every handle has been passed back as often as it was handed out |
| EndToEnd.SleepersAreCovered | myrepo/backend/backend.c:370-447 | Without the race, RUNNING goes with the waiting flag, and a thread asleep over unread entries has SLEEPING stored and, unless it comes from a pass broken off, an interrupt in flight or a producer between its push and its status read |
| Wakeups.WholeHandshake | myrepo/backend/backend.c:411-447 | The same on every run in which the two stores are one step and the handler is one step, with RUNNING exactly when the waiting flag is set |
| Wakeups.SleeperWakesExactly | myrepo/backend/backend.c:434-447 | In every reachable state with a thread asleep over unread entries, and not straight from a pass broken off, some continuation wakes it if and only if the status is SLEEPING and no handler that has looked at it is about to store RUNNING |
| Wakeups.BackendWakesExactly | myrepo/backend/backend.c:360-447 | In every reachable state with the backend thread asleep, broken off or not, some continuation without new requests wakes it if and only if moreover an interrupt is being handled, pending or due from the running do_idd_request |
| Wakeups.LostForever | myrepo/backend/backend.c:378-381 | A thread asleep under RUNNING, or under a handler about to store it after its look, stays asleep along every continuation of the whole system |
| LostRuns.BackendCanBeLost | myrepo/backend/backend.c:411-420 | For every ring, pool, block size from 512 bytes to a page and grant references that suffice for a request there is a run of the whole system after which the backend thread sleeps over an unread request and no continuation wakes it |
| LostRuns.FrontendCanBeLost | myrepo/frontend/frontend.c:418-426 | Likewise a run after which the frontend thread sleeps with a request outstanding, no continuation wakes it and none without new requests ends the request |
| LostRuns.PoolCanStarve | myrepo/backend/backend.c:338-342 | For every ring of at least two entries and every pool there is a run after which, without the race, the backend thread sleeps under SLEEPING over an unread request, its last pass broken off by an empty pool, and no continuation without new requests wakes it or ends the requests |
| Progress.EverythingCanEnd | myrepo/backend/backend.c:358-424 | In every reachable state, with any pool of at least one entry, some continuation without new requests, failing bios or failing mappings ends every outstanding request if and only if the backend thread, while requests are left to serve, and the frontend thread, while work is left and nobody polls, can still come to look at their indexes: a condition on status, flag, handler, interrupts and place alone |
| Progress.UnracedIsSafe | myrepo/frontend/frontend.c:351-428 | That condition holds as long as no handler has come between a thread's two stores and the backend thread is not straight from a pass broken off |
| Progress.SleepingBackendCanFinishExactly | myrepo/backend/backend.c:370-424 | The case of a sleeping backend thread with requests left to serve: SLEEPING, no handler past its look, after a pass broken off an interrupt on its way, and the frontend thread able to look or the queue lock holder polling |
| Progress.NextMove | myrepo/frontend/frontend.c:240-328 | In every safe state with work left some action without failure and without a new request is enabled that leaves less work and a safe state, in a lexicographic order |
| Progress.LostKeepsRequest | myrepo/backend/backend.c:378-381 | A request not yet copied when the backend thread is lost in this way is outstanding at the end of every continuation |
| Handshake.NextInv | myrepo/frontend/frontend.c:87-101 | Every step of either handshake keeps the announcement invariant, and without a race the coupling of status word and waiting flag |
| Bag.EndedAtMostOnce | myrepo/frontend/frontend.c:252-328 | In a trace the bag machine allows, acceptances minus ends under an id is 1 exactly while it is outstanding |
| SystemSteps.SubmitInv | myrepo/frontend/frontend.c:145-229 | Queueing keeps the invariant, its BUG_ONs do not fire, and it accepts exactly the request written to the slot |
| SystemSteps.DrainInv | myrepo/frontend/frontend.c:284-320 | Draining one response keeps the invariant and ends exactly the request it was made for |
| SystemSteps.ConsumeInv | myrepo/backend/backend.c:329-346 | Consuming keeps the invariant; with a free pool entry it copies out exactly the oldest unread request, and it takes none only if there is no free one |
| SystemSteps.LiveSlots | kernel/ring.h:188-192 | The slot of every live index holds the request or response written at that index |
| SystemSteps.NotFullHasFree | myrepo/frontend/frontend.c:119-122 | When the ring is not full the free list is not empty, so the BUG_ON cannot fire |
| Acceptance.AcceptedExactly | myrepo/frontend/frontend.c:145-229 | In every reachable state in which do_idd_request may queue, a block request is accepted if and only if fewer requests than the ring holds are outstanding, it ends within 2048000000 bytes and 11 references are free; what goes on the ring has its direction, first sector and, entry by entry in order, the claimed reference and the bytes of the page, under an id not outstanding; a refusal changes nothing |
| Acceptance.RefusedExactly | myrepo/frontend/frontend.c:161-184 | Queueing refuses if and only if 512 * (sector + count), computed in 64 bits, is above 2048000000 or fewer than 11 references are free |
| Frontend.DrainedExactly | myrepo/frontend/frontend.c:284-319 | A response ends a block request if and only if its id is a slot number, the shadow entry is marked in flight with a request, and the operation is 0 or 1; what then changes, and what a skipped response changes, in full |
| AnswerSteps.DispatchInv | myrepo/backend/backend.c:178-309 | Dispatch keeps the invariant on all of its paths; the failing ones record a fault and answer -1 |
| AnswerSteps.BioDoneInv | myrepo/backend/backend.c:102-114 | A finished bio keeps the invariant and is accounted to its own entry; the last one answers for the request of that entry |
| AnswerSteps.ReturnInv | myrepo/backend/backend.c:40-50 | Returning an answered entry to the pool keeps the invariant, whenever it happens after the answer |
| GrantSteps.UndoRow | myrepo/backend/backend.c:303-308 | After a partial mapping failure the unmapping succeeds and restores handles and mappings |
| GrantSteps.LastHandles | myrepo/backend/backend.c:80-100 | At the last bio every handle of the entry is live and after the unmapping no mapping of it is left |
| QuietSteps.QuietInv | myrepo/backend/backend.c:358-424 | Pushes, status reads, snapshots, final checks, sleeping and interrupts keep the invariant and leave the bag alone |
| Reachability.StepInv | myrepo/backend/backend.c:319-356 | Every action keeps the invariant, moves the bag by its event and extends the logs by its traffic |
| Reachability.RunInv | myrepo/frontend/frontend.c:351-428 | The same over whole runs, with the recorded history faithful to the logs |
| Reachability.InitInv | myrepo/frontend/frontend.c:507-523 | The state after initialisation satisfies the invariant |
| RingMacros.Floor32 | kernel/ring.h:18-22 | For every 32-bit x > 0 the rounding macro yields a power of two p with p <= x < 2p, and 0 for 0 |
| RingMacros.RingFits | kernel/ring.h:30-38 | The ring is the largest power of two of entries that fits behind the header, for every area, header and entry size |
| RingMacros.SlotOfWrapped | kernel/ring.h:188-192 | Masking the wrapped index selects the slot of the unbounded index, also across 2^32 |
| RingMacros.GuardsExact | kernel/ring.h:166-196 | Under the ring order every occupancy macro is exact |
| RingMacros.NotifyExact | kernel/ring.h:238-256 | The wrapped test notifies if and only if an index behind the event index lies in (old, new] |
| EventIndex.HoldOffLosesNothing | kernel/ring.h:238-272 | After any run of the scheme, a consumer parked over unread entries has been notified or the producer's pending test will notify it |
| EventIndex.NotifiesExactly | kernel/ring.h:238-256 | In every state of the scheme's invariant the pending test notifies if and only if the last push has passed an index behind the event index |
| EventIndex.StepInv | kernel/ring.h:258-272 | Every step of producer and consumer keeps the scheme's invariant under wrap-around |
| Dispatch.SegmentRoundTrip | myrepo/frontend/frontend.c:206-222 | A whole-sector scatter entry within a page is decoded to the byte range that was encoded and passes the range check |
| Dispatch.AlignedExactly | myrepo/backend/backend.c:250-256 | For a block size 512 << k the bitwise check holds if and only if start sector and all lengths are multiples of it |
| Dispatch.QueuedRequestPasses | myrepo/backend/backend.c:190-261 | Every queued request of 1 to 11 such entries passes all checks on 512-byte blocks and is submitted if and only if all mappings succeed |
| Dispatch.SubmittedExactly | myrepo/backend/backend.c:190-263 | For any request and a block size 512 << k: it is submitted if and only if its direction is 0 or 1, it has 1 to 11 segments, each with some bytes and all of them within its page, sector and lengths are multiples of the block size, and every grant is mapped |
| Dispatch.SplitTiles | myrepo/backend/backend.c:265-282 | For every way pages may be refused the bios hold the segments in order, none is empty, each starts where the previous one ended |
| Dispatch.SplitCount | myrepo/backend/backend.c:265-283 | One bio for the first page and one per later refusal: at most one per segment, and the value the completion counter is set to |
| Dispatch.BeginsExactly | myrepo/backend/backend.c:265-282 | A bio begins with the first segment and with every segment whose page the open bio refuses, and with no other |
| Dispatch.TransferExact | myrepo/backend/backend.c:216-282 | From scatter list to bios: for every refusal pattern the bios hold, in order, each entry's reference and bytes, from the request's first sector on without a gap, and are together as long as the list |
| Dispatch.BiosCoverRequest | myrepo/backend/backend.c:216-282 | The bios cover each sector of the request exactly once and no other sector |
| Dispatch.CoveredOnce | myrepo/backend/backend.c:265-282 | Contiguous bios of good segments cover their whole extent exactly once |
| Dispatch.TakePage | myrepo/backend/backend.c:266-280 | The inner loop adds the page to the open bio, or to one new bio if there is none or it refuses |
| Dispatch.BuildBios | myrepo/backend/backend.c:265-282 | The loop over the segments builds the specified split |
| SharedRing.Page.constructor | kernel/ring.h:124-130 | The initialised page: indexes 0, event indexes 1, both status words RUNNING |
| Frontend.Driver.constructor | myrepo/frontend/frontend.c:507-523 | The set-up loop builds the initial state of the system's frontend |
| Frontend.Driver.GetIdFromFreelist | myrepo/frontend/frontend.c:119-126 | Takes the head of the chain and marks the entry |
| Frontend.Driver.AddIdToFreelist | myrepo/frontend/frontend.c:128-143 | Accepts an id if and only if its entry is marked in flight; a refusal changes nothing |
| Frontend.Driver.FillSegments | myrepo/frontend/frontend.c:206-222 | The segment loop fills exactly its slot with the encoded entries |
| Frontend.Driver.QueueRequest | myrepo/frontend/frontend.c:145-229 | In place: the specified new ring, shadow table and free list, or no change at all on refusal |
| Frontend.Driver.FlushRequests | myrepo/frontend/frontend.c:87-101 | Publishes the private index, computes the notification test, interrupts exactly under SLEEPING |
| RoundRuns.FlushIsRun | myrepo/frontend/frontend.c:87-101 | That is what a push and a signal step of the system do in a row |
| Frontend.Driver.DrainOne | myrepo/frontend/frontend.c:284-319 | The loop body implements the drain step, with skipped and bad responses |
| Frontend.Driver.Drain | myrepo/frontend/frontend.c:370-403 | The loop ends the block requests of all responses up to the snapshot, in order |
| DriverRuns.DrainLoopIsRun | myrepo/frontend/frontend.c:284-321 | In every reachable state the rest of a drain loop meets no BUG, is a run of single drain steps, and ends exactly the block requests whose end the run records |
| Frontend.Driver.FinalCheck | kernel/ring.h:266-272 | Says whether responses are unread, and arms the event index exactly if none are |
| Frontend.Driver.ConsiderSleeping | myrepo/frontend/frontend.c:415-427 | When it parks the status is SLEEPING and the waiting flag false, otherwise both are unchanged; it goes round again if and only if it parks over unread responses, and arms the event index if and only if it parks over none |
| Frontend.Driver.RingInterrupt | myrepo/frontend/frontend.c:334-349 | Sets the flag, stores RUNNING, wakes exactly under SLEEPING |
| Backend.Driver.constructor | myrepo/backend/backend.c:532-571 | The set-up of ring, pool, free list and handles is the initial state of the system's backend |
| Backend.Driver.AllocReq | myrepo/backend/backend.c:123-135 | Takes the head of the free list if there is one |
| Backend.Driver.FreeReq | myrepo/backend/backend.c:40-50 | Puts the entry at the head and wakes waiters exactly if the list was empty |
| Backend.Driver.MakeResponse | myrepo/backend/backend.c:52-78 | Writes the answer at the private index, publishes it, interrupts exactly if the peer's status is SLEEPING |
| RoundRuns.PublishIsRun | myrepo/backend/backend.c:64-76 | Publication and interrupt are what a push and a signal step of the system do in a row |
| Backend.Driver.MapPages | myrepo/backend/backend.c:137-176 | Stores each segment's handle in the entry's own row and fails if and only if some mapping failed |
| Backend.Driver.UnmapPages | myrepo/backend/backend.c:80-100 | Clears the row and hands each valid handle of it to the hypervisor exactly once |
| Backend.Driver.EndBlockIo | myrepo/backend/backend.c:102-114 | Counts the bio; the last one unmaps, answers with the accumulated status and frees the entry |
| Backend.Driver.CheckSegments | myrepo/backend/backend.c:215-256 | The two checking loops accept exactly the good segments |
| Backend.Driver.DispatchRw | myrepo/backend/backend.c:178-309 | Submits the specified bios with the completion counter equal to their number, or undoes the mappings and answers -1 |
| Backend.Driver.Consume | myrepo/backend/backend.c:338-346 | Copies the request at the consumer index into a fresh entry and advances the index |
| Backend.Driver.DoBlockIoPass | myrepo/backend/backend.c:319-356 | The consume loop: all requests up to the snapshot, stopping at a rejected one or an empty pool |
| DriverRuns.PassIsRun | myrepo/backend/backend.c:319-356 | In every reachable state with the response lock free, a pass that is given handles not in use meets no BUG and is a run of consume and dispatch steps, ended by the answering steps if a request is rejected and by breaking off if the pool is empty; it is never empty if there is room for the ring and the entries still to be returned |
| Backend.PassCounts | myrepo/backend/backend.c:319-356 | A pass starts all the requests it takes, up to the snapshot, the overflow guard or an empty pool, or all but the last one, whose -1 is its only answer |
| Backend.Driver.FinalCheck | kernel/ring.h:258-264 | Says whether requests are unread, and arms the event index exactly if none are |
| Backend.Driver.ConsiderSleeping | myrepo/backend/backend.c:406-421 | When it parks the status is SLEEPING and the waiting flag false, otherwise both are unchanged; it goes round again if and only if it parks over unread requests, and arms the event index if and only if it parks over none |
| RoundRuns.SleepingRoundIsRun | myrepo/backend/backend.c:406-421 | Those stores and that branch are what the system's single steps do in a row on either side: decide, store SLEEPING, clear the flag, and one or two readings of the last check |
| Backend.Driver.RingInterrupt | myrepo/backend/backend.c:434-447 | Sets the flag, stores RUNNING, wakes exactly under SLEEPING |
| RoundRuns.HandlerIsRun | myrepo/backend/backend.c:434-447 | That is what three handler steps of the system do in a row |
| Barrier.XddBarrier.Lock | scripts/toolkit/xdd65.013007/barrier.c:36-54 | A single thread does not sleep; the last arrival resets the counter and will post n - 1, every other will wait |
| Barrier.NobodyLeavesEarly | scripts/toolkit/xdd65.013007/barrier.c:27-69 | For any n and any interleaving over a pair, no thread has returned from its k-th wait before all n have entered theirs |
| Barrier.BarrierIsClean | scripts/toolkit/xdd65.013007/barrier.c:187-202 | For any n: once all have returned from wait k and none has entered wait k + 2, counter and semaphore of its barrier are 0 |
| Barrier.NobodyIsStranded | scripts/toolkit/xdd65.013007/barrier.c:59 | For any n of at least 1: whenever all threads are inside a wait, some semaphore operation can proceed |
| Barrier.SingleBarrierFails | scripts/toolkit/xdd65.013007/barrier.c:187-188 | With one barrier instead of a pair, for every n of at least 2, a thread can return from its second wait before another has entered it |
| Barrier.IssueInv | scripts/toolkit/xdd65.013007/barrier.c:59 | Only threads of the finished round can pass the semaphore; the pair's invariant is kept |
| Barrier.LastArrivalInv | scripts/toolkit/xdd65.013007/barrier.c:50-52 | The last arrival turns every waiter of its round into one that its post will release |
| DeviceNames.LetterBijection | scripts/toolkit/sysstat-8.1.5/ioconf.c:79-88 | The letter numbering is a bijection between the naturals and the non-empty a..z strings, with its decoder |
| DeviceNames.LetterOrder | scripts/toolkit/sysstat-8.1.5/ioconf.c:79-88 | Numeric order is shorter first, then alphabetical |
| DeviceNames.Ito26IsAlpha | scripts/toolkit/sysstat-8.1.5/ioconf.c:123-126 | The program prints that numbering, and the empty string if and only if the value is 2^32 - 1 |
| DeviceNames.DecimalOfWord | scripts/toolkit/sysstat-8.1.5/ioconf.c:118-121 | The decimal printer yields plain decimal text that decodes to the value |
| DeviceNames.WordOfDecimal | scripts/toolkit/sysstat-8.1.5/ioconf.c:118-121 | Every decimal text of a 32-bit value is what the printer prints for it |
| DeviceNames.FitsBuffer | scripts/toolkit/sysstat-8.1.5/ioconf.c:92-96 | In radix 4 or more every 32-bit value fits 16 characters |
| DeviceNames.DeviceNamer.IocConv | scripts/toolkit/sysstat-8.1.5/ioconf.c:89-116 | The loop that fills the buffer from its end leaves the specified text, terminated |
| DeviceNames.DeviceNamer.IocName | scripts/toolkit/sysstat-8.1.5/ioconf.c:362-422 | The appending code leaves the specified name in its buffer, or reports none and leaves the buffer alone |
| DistinctNames.NamesEqualExactly | scripts/toolkit/sysstat-8.1.5/ioconf.c:402-420 | With letters, or a partition format holding a character that is no digit, and an implicit controller, two in-range names are equal if and only if the wrapped disk numbers and the partition numbers are |
| DistinctNames.NamesDistinct | scripts/toolkit/sysstat-8.1.5/ioconf.c:368-421 | Majors sharing such a record under different controller numbers give two devices one name if and only if they are one device |
| DistinctNames.ExplicitNamesDistinct | scripts/toolkit/sysstat-8.1.5/ioconf.c:286-293 | Likewise for majors sharing a record with an explicit controller, if the disk text begins with no digit |
| DistinctNames.NameWritten | scripts/toolkit/sysstat-8.1.5/ioconf.c:394-421 | The name of a device is the record's name, the controller text and number if explicit, the letters or decimal of the disk number (counted over all controllers if they are implicit), and for a partition its text and number |
| DistinctNames.NoDeviceName | scripts/toolkit/sysstat-8.1.5/ioconf.c:368-392 | NULL if and only if major or minor is 255 or above, "nodev" without a record or beyond its minors, the exception's name for its minor |
| DistinctNames.AdjacentNamesCollideExactly | scripts/toolkit/sysstat-8.1.5/ioconf.c:402-420 | With decimal disk numbers and an empty partition format two devices of controller 0 share a name if and only if disks have partitions and the twelfth disk is in range |
| DistinctNames.TwelveDisks | scripts/toolkit/sysstat-8.1.5/ioconf.c:379 | That condition in the numbers of the record: pcount >= 2, dcount >= 12 and 11 * pcount < 255, when dcount * pcount does not wrap |
| DistinctNames.DecimalNamesCollide | scripts/toolkit/sysstat-8.1.5/ioconf.c:306-311 | A table that gives the name hd11 to minors 176 and 17 of one major |
| SeekList.SeekHeader.InitSeekList | scripts/toolkit/xdd65.013007/access_pattern.c:103-182 | The loop fills every position with the specified location, size, operation and time, and nothing beyond: the first access lies at the start plus the queue's part of the interleave, at start delay plus one operation time, and each next one is one interleave of requests and the gap further on, one operation time later |
| SeekList.SequentialTiles | scripts/toolkit/xdd65.013007/access_pattern.c:126-133 | Without stagger or interleave the accesses tile the range: each block of [start, start + n * request size) is accessed exactly once and no other |
| SeekList.ReadCount | scripts/toolkit/xdd65.013007/access_pattern.c:109-152 | The first k operations of a filled list hold floor(r(k - 1)) reads, and one more if and only if r >= 1/2 |
| SeekList.InterleavedDistinct | scripts/toolkit/xdd65.013007/access_pattern.c:129-133 | Two operations of interleaved queues hit the same place if and only if positions agree and queue numbers agree modulo the interleave |
| SeekList.InterleavedCovers | scripts/toolkit/xdd65.013007/access_pattern.c:129-133 | Queues 0 to Q - 1 together hit every one of the Q * n blocks |
| SeekList.StaggerExact | scripts/toolkit/xdd65.013007/access_pattern.c:126-133 | A staggered list of n >= 2 is disjoint and in range if and only if the range holds n requests and the slack above n + 1 of them is greater than -(n - 1) |
| SeekList.StaggerSpreads | scripts/toolkit/xdd65.013007/access_pattern.c:126-133 | With room for n + 1 requests the last access ends one request and fewer than n - 1 blocks before the end of the range |

## Left out

- EndToEnd.SleepersAreCovered: excludes runs in which a handler comes between a thread's two stores, and sleepers straight from a pass that an empty pool has broken off, because the code loses wakeups there (LostRuns).
- Wakeups.SleeperWakesExactly: excludes backend sleepers straight from a pass broken off; Wakeups.BackendWakesExactly has them, for continuations without new requests. Whether a later request will come and wake such a thread depends on the block layer.
- Wakeups.BackendWakesExactly: like all results about continuations it speaks of those that exist, not of fairness; no liveness under a scheduler is claimed.
- LostRuns.PoolCanStarve: the run has as many responders between publication and return of the entry as the pool has entries, less one; with room for the ring and the entries not yet returned the pool is never found empty (EndToEnd.ConsumeProceedsExactly).
- EndToEnd.EachRequestEndsOnce: says nothing of the error value, because the frontend computes it and then passes 0 to the block layer (frontend.c:310-314, 396-400).
- EndToEnd.Refinement: assumes of the block layer at most 11 segments to a request, which the code asks for when it sets up its queue (frontend.c:547), and direction 0 or 1; the BUG_ON on the number of segments (frontend.c:203-204) is excluded by this, not by a proof.
- Frontend.Driver.QueueRequest: requires that neither BUG_ON fires; EndToEnd.Refinement proves that none does in a reachable state.
- Backend.Driver.UnmapPages: requires that the hypervisor finds each handle live (the BUG_ON of backend.c:99); proved of every reachable state by AnswerSteps and GrantSteps.
- Backend.Driver.DoBlockIoPass: requires that the pass meets no BUG and handles that are not in use from the hypervisor; DriverRuns.PassIsRun proves the former of every reachable state. A stop request while it loops is not modelled.
- DriverRuns.PassIsRun: is about passes begun with the response lock free; while another responder holds it a rejection waits, and that responder's steps come in between.
- Weak memory: the macros place the barriers, so every shared access is one step of a sequentially consistent machine; both 32-bit readings of a final check are separate steps.
- Answering: the write of a response is one step, its publication, the peer's status read and the return of its pool entry are later ones. A next responder may begin before the entry is returned, but only the holder of the response lock writes.
- Bio allocation failure (backend.c:311-314): decrements a completion counter that was not set and never answers; allocation is assumed to succeed. A bio is also assumed to take its first page.
- The direction of a bio (read or write), and the read-only flags of grants and mappings: one value each, copied from the request.
- Discard and secure requests (frontend.c:199-200), requests that are not file-system ones (frontend.c:257-261), the debug value's role, the retries counter of the polling loop: the first leave the segment count unset, the others are arbitrary choices here.
- The threshold of 50000 idle rounds: deciding to sleep is nondeterministic. Thread stop and freezing are not modelled, and a sleeping thread wakes only by a wake-up call.
- The frontend's kick of stopped queues is a possible queueing step; the queue lock and the response lock are modelled, their implementations are not.
- Ring sizes above 2^27: the end mark 0x0fffffff of the free list would be an id. Attaching to an existing ring is left out.
- Hypercalls, grant-table internals, event-channel binding, page allocation, bus addresses of mapped pages, module set-up and removal: foreign calls, present only as arbitrary outcomes.
- Barrier creation, destruction and semaphore errors; the other barriers of xdd are used once per thread.
- Parsing of the ioconf file, percent signs inside its format fields, and the length of the name buffer: records start as built, and names are unbounded strings. Names under decimal disk numbers with a partition format of digits only, or with an empty one and a controller other than 0, and names under an explicit controller whose disk text begins with a digit, are written out (DistinctNames.NameWritten) but not compared. A record with an unknown disk format has no conversion function and is not representable.
- Signed overflow of the disk number, and of products in the seek list, which are computed on unbounded integers; DeviceNames wraps unsigned arithmetic at 2^32.
- Random seeks, throttling variance, loading and saving of seek lists. The read ratio is an exact real, so rounding of doubles is not modelled. A staggered list of one operation divides by zero in the code and is excluded.
- The ramdisk driver, the file helper of the backend, the remaining xdd and sysstat sources: plumbing, parsing and formatting.
