# Block layer and crypto data path: models and proofs

A Dafny model of two parts of the Linux kernel and proofs of what they promise.

The block layer: ordered writes (barriers), segment counting and scatter-gather mapping, partial
completion of requests, and the deadline, CFQ and anticipatory I/O schedulers.  The crypto layer:
multiplication in GF(2^128) and the LRW mode built on it, CBC through the scatterlist walker with
its scratch buffers, the queue of asynchronous requests, and HMAC over MD5 fed from scatterlists.

What the kernel does under a queue lock is one step.  Protocols are state machines, and their
theorems are about every run.  Code that works in place is a class or a method with loops, proved
against a function of the old state; the objects of the block layer and of CFQ carry the invariant
of their state machine in `Valid()`.

| modules | what they model |
|---|---|
| OrderedQueue, OrderedStages, OrderedBarriers, OrderedColors, RequestQueue | barrier sequences: the steps, each sequence by itself, the order it gives, when it is lost, and the queue in place |
| Segments, Completion, Vectors | segment counting and mapping, partial completion, bio vectors |
| Deadline, DeadlineQueues, DeadlineBounds, DeadlineRuns, DeadlineSched | the deadline scheduler: its steps, what they keep, its bounds, the runs that reach them, and the scheduler in place |
| CfqQueue, Cfq, CfqRefs, SeekChoice | CFQ: one queue, the service tree, reference counts; the choice by head position |
| Lists, SectorTree, Arithmetic | lists of things that occur once, the tree sorted by sector, division |
| Polynomials, Gf128Words, Gf128Tables, Gf128Mul, Gf128Products, Gf128Fixed, Lrw | GF(2^128), its table forms, and LRW |
| CbcMode, Cbc, ScatterWalk, Scratch, BlkcipherJob, Blkcipher | CBC, its in-place routines, the walker |
| CryptoQueue | the asynchronous queue and its worker |
| Md5, HashDigest, Hmac | MD5 buffering and padding, hashing a scatterlist, HMAC |

## Model

| member | source | states |
|---|---|---|
| `OrderedStages.StepKeeps` | src/linux/block/ll_rw_blk.c:359-476 | every step keeps: each request is in one place; the embedded requests are queued or issued exactly while their stage is open and not handed out before the drain is over; the log of marks matches the queue; no BUG_ON fired |
| `OrderedStages.RunKeeps` | src/linux/block/elevator.c:548-680 | the same over any run of adds, dispatches, merges, issues, requeues and completions |
| `OrderedStages.BarrierEndsOnce` | src/linux/block/ll_rw_blk.c:359-401 | in every run and every ordered mode: no BUG_ON fires, no request is ended twice, each sequence marks a stage at most once, a barrier is ended exactly at the mark that completes its four stages, with the first error recorded, and the sequence still open is the one in progress and lacks a stage |
| `OrderedStages.EndedWhenComplete` | src/linux/block/ll_rw_blk.c:368-383 | along the log: the mark of the last missing stage is followed at once by the end of the barrier, and nothing else ends one |
| `OrderedBarriers.StepInOrder` | src/linux/block/ll_rw_blk.c:478-525 | on a queue that orders by draining every step keeps: the list ordered by the barriers requests were added between, every open barrier in its place, the log in agreement with the queue, and everything issued in order |
| `OrderedBarriers.RunInOrder` | src/linux/block/elevator.c:696-792 | the same over any run |
| `OrderedBarriers.BarrierOrder` | src/linux/block/ll_rw_blk.c:427-525 | in every run on a draining queue a barrier's own write is issued only after every file system request added before it has ended, no later one is issued before the barrier has ended, merging never crosses a barrier, only its sequence ends a barrier, and the WARN_ON on a late stage never fires |
| `OrderedColors.OutOfOrder` | src/linux/block/ll_rw_blk.c:330-357 | for every draining mode, a run that loses the order when a request that is not a file system request carries the barrier flag |
| `OrderedColors.OrderedExactlyWhen` | src/linux/block/elevator.c:646-680 | every run keeps barriers in order if and only if only file system requests may carry the hard barrier flag |
| `OrderedColors.OrderedUnlessFlagged` | src/linux/block/elevator.c:646-680 | even where it is permitted, every run in which no such request is added keeps barriers in order |
| `RequestQueue.CallKeeps` | src/linux/block/elevator.c:548-884 | whatever sequence of calls has been made, all of the above holds of the queue |
| `RequestQueue.Elevator.OrderedCompleteSeq` | src/linux/block/ll_rw_blk.c:359-383 | marks a stage, keeps the first error, and ends the barrier when all stages are marked |
| `RequestQueue.Elevator.QueueStages` | src/linux/block/ll_rw_blk.c:446-466 | the embedded requests end up in stage order at the head, or their stage is skipped, per mode |
| `RequestQueue.Elevator.Start` | src/linux/block/ll_rw_blk.c:427-476 | the start of a sequence; the drain stage is skipped exactly when nothing is in flight or ordering is by tag |
| `RequestQueue.Elevator.DoOrderedHead` | src/linux/block/ll_rw_blk.c:478-525 | whether the head may be handed out, with the WARN_ON recorded |
| `RequestQueue.Elevator.ElvNextRequest` | src/linux/block/elevator.c:696-774 | the step of the state machine, all promises kept; what is handed out is the started head of the list |
| `RequestQueue.Elevator.ElvDequeueRequest` | src/linux/block/elevator.c:778-792 | the step of the state machine, all promises kept |
| `RequestQueue.Elevator.FindRequeuePos` | src/linux/block/elevator.c:604-624 | the loop finds the place in front of the first request of its own or a later stage |
| `RequestQueue.Elevator.ElvRequeueRequest` | src/linux/block/elevator.c:517-532 | the step of the state machine, all promises kept |
| `RequestQueue.Elevator.ElvCompletedRequest` | src/linux/block/elevator.c:858-884 | the request is released and the drain stage ends when nothing that belongs before the barrier is left |
| `RequestQueue.Elevator.EndThatRequestLast` | src/linux/block/ll_rw_blk.c:3622-3655 | the step of the state machine, all promises kept |
| `RequestQueue.Elevator.DrainElevator` | src/linux/block/elevator.c:534-546 | everything the scheduler holds reaches the list |
| `RequestQueue.Elevator.ElvAddRequest` | src/linux/block/elevator.c:646-680 | the step of the state machine, all promises kept, for every position and flag |
| `RequestQueue.Elevator.FindSortPos` | src/linux/block/elevator.c:413-429 | the backward scan passes only requests of the same direction that are no barrier and not started and that the sweep reaches later, and stops at the first other one |
| `RequestQueue.SweepKept` | src/linux/block/elevator.c:413-431 | a request put in front of those the sweep reaches later, and behind one it does not, keeps the order |
| `RequestQueue.Elevator.ElvDispatchSort` | src/linux/block/elevator.c:399-432 | where the scan stops is a place the state machine allows, all promises are kept, and any stretch of the list that was in the order of the sweep still is |
| `RequestQueue.Elevator.ElvDispatchAddTail` | src/linux/block/elevator.c:441-453 | so is the tail |
| `RequestQueue.Elevator.ElvMergeRequests` | src/linux/block/elevator.c:502-515 | merging away a request and freeing it is a step, all promises kept |
| `Segments.RecountSegments` | src/linux/block/ll_rw_blk.c:1217-1276 | the loop counts the physical and the hardware segments of a bio, and there are no more of these than of those |
| `Segments.RecalcRqSegments` | src/linux/block/ll_rw_blk.c:3319-3359 | the loop gives the sum over the bios, less one wherever a bio goes on where the last one ended and the sizes added up stay within the limit |
| `Segments.MapWithinCount` | src/linux/block/ll_rw_blk.c:1217-1364 | for any adjacency predicates and any bios the greedy mapping needs no more entries than were counted bio by bio |
| `Segments.MapBytes` | src/linux/block/ll_rw_blk.c:1320-1364 | where only adjacent vectors are merged, the entries cover exactly the bytes of the vectors, in order |
| `Segments.MapSizes` | src/linux/block/ll_rw_blk.c:1331-1345 | no entry is longer than the limit unless it is one vector by itself |
| `Segments.RqMapSg` | src/linux/block/ll_rw_blk.c:1320-1364 | a table with room for the segments counted is never overrun, and the entries written are the mapping with those two properties |
| `Completion.DropBytesTwice` | src/linux/block/ll_rw_blk.c:3425-3497 | the bytes left do not depend on how the amount was split, whatever the amounts; the sectors of the bios do not if and only if rounding to sectors adds up in the bio both calls end in |
| `Completion.DropBytesTotal` | src/linux/block/ll_rw_blk.c:3425-3497 | nothing is left exactly when all bytes were taken, and the right number otherwise |
| `Completion.CreditsExact` | src/linux/block/ll_rw_blk.c:3431-3489 | what a bio is told it transferred is what it lost |
| `Completion.CreditedInFull` | src/linux/block/ll_rw_blk.c:3425-3497 | over any amounts, what a bio was told and what it still holds is its size |
| `Completion.EndBytesConsistent` | src/linux/block/ll_rw_blk.c:3361-3388 | for every amount that leaves something: the range moves on by whole sectors, the "request botched" correction is not made, and the range is still what the bios hold if and only if the amount was whole sectors |
| `Completion.SplitWhileBytesRemain` | src/linux/block/ll_rw_blk.c:3361-3497 | completing a then b bytes is completing a + b, as a whole state, while bytes remain and rounding adds up |
| `Completion.SplitExactlyWhen` | src/linux/block/ll_rw_blk.c:3484-3497 | for all amounts the bytes left agree, and the sector range agrees if and only if the first call left nothing, or the second finished the request and the first ended no sector, or it did not finish it and rounding adds up |
| `Completion.SplitDiffers` | src/linux/block/ll_rw_blk.c:3484-3497 | two sectors ended one by one leave another range than ended at once |
| `Completion.Request.RecalcRqSectors` | src/linux/block/ll_rw_blk.c:3361-3388 | the range moves on as a function of the old state |
| `Completion.Request.EndThatRequestFirst` | src/linux/block/ll_rw_blk.c:3390-3498 | for every number of bytes the loop leaves the state and the credits the functions above give, and the request is reported finished exactly when no bytes remain |
| `SectorTree.InsertSorted` | src/linux/block/elevator.c:339-360 | inserting where no request starts keeps the tree sorted |
| `SectorTree.OneAlias` | src/linux/block/elevator.c:350-355 | once the request at a sector is gone none is left there, so one retry is enough |
| `DeadlineQueues.StepKeeps` | src/linux/block/deadline-iosched.c:58-336 | every add, alias, merge, dispatch and tick keeps: tree and fifo hold the same requests, the tree by sector, the fifo by expiry, at most one cached next request and that in the tree; neither BUG_ON can fire |
| `DeadlineBounds.ReadLatency` | src/linux/block/deadline-iosched.c:222-336 | in every run, however often the 32-bit batch counter wraps, an expired read at place p is dispatched or merged within (2p + 3) * max(1, fifo_batch) dispatch calls; only for fifo_batch 0x55555555 with writes_starved 1 and p + 2 > fifo_batch the bound is (2p + 2) * fifo_batch + p + 2 |
| `DeadlineBounds.InTimeExactlyWhen` | src/linux/block/deadline-iosched.c:267-283 | there is a bound on the calls an expired read waits, by its place in the fifo, if and only if writes_starved is not 0 |
| `DeadlineBounds.WriteStarvation` | src/linux/block/deadline-iosched.c:239-336 | in every run, for every fifo_batch and every writes_starved taken as unsigned, while a write stays queued at most (writes_starved + 1) * max(1, fifo_batch) reads are dispatched before a write is, and writes_starved more for fifo_batch 0x55555555, writes_starved / 0x7fffffff more for fifo_batch 1 |
| `DeadlineRuns.ReadsExactlyWhen` | src/linux/block/deadline-iosched.c:239-336 | over all runs from the empty scheduler, the plain bound of 2p + 3 batches holds for place p if and only if it is not the case excepted |
| `DeadlineRuns.LatencyReached` | src/linux/block/deadline-iosched.c:254-264 | a run from the empty scheduler after which, in that case, the read still waits one call before its bound |
| `DeadlineRuns.WritesExactlyWhen` | src/linux/block/deadline-iosched.c:239-336 | over all runs from the empty scheduler, reads hold up a write for at most writes_starved + 1 batches if and only if neither fifo_batch is 0x55555555 with writes_starved not 0, nor 1 with writes_starved 0x7fffffff or more |
| `DeadlineRuns.ExtraReached` | src/linux/block/deadline-iosched.c:254-264 | runs from the empty scheduler in which exactly the bound with the reads more is reached |
| `DeadlineBounds.HowGone` | src/linux/block/deadline-iosched.c:161-216 | a request that is no longer queued was dispatched or merged into another |
| `DeadlineSched.DeadlineData.constructor` | src/linux/block/deadline-iosched.c:359-378 | an empty scheduler satisfies the invariant |
| `DeadlineSched.DeadlineData.DelRqRb` | src/linux/block/deadline-iosched.c:72-86 | the request leaves the tree and the cached next one moves on if it was it |
| `DeadlineSched.DeadlineData.MoveRequest` | src/linux/block/deadline-iosched.c:197-216 | the new state of both directions as a function of the old |
| `DeadlineSched.DeadlineData.AddRqRb` | src/linux/block/deadline-iosched.c:58-70 | the retry loop ends after at most one alias was dispatched |
| `DeadlineSched.DeadlineData.AddRequest` | src/linux/block/deadline-iosched.c:91-104 | keeps the invariant; the request is last in its fifo and in the tree, and whatever left the queues was dispatched |
| `DeadlineSched.DeadlineData.MergedRequest` | src/linux/block/deadline-iosched.c:147-159 | keeps the invariant and loses no request |
| `DeadlineSched.DeadlineData.MergedRequests` | src/linux/block/deadline-iosched.c:161-180 | keeps the invariant; exactly the absorbed request is gone and no other falls back in the fifo |
| `DeadlineSched.DeadlineData.DispatchRequests` | src/linux/block/deadline-iosched.c:239-336 | keeps the invariant and reaches no BUG_ON; it dispatches exactly one queued request whenever there is one |
| `DeadlineSched.DeadlineData.Drain` | src/linux/block/elevator.c:534-546 | calling until nothing is dispatched ends, with nothing queued and as many dispatched as were queued |
| `CfqQueue.FindNextLeft` | src/linux/block/cfq-iosched.c:408-430 | there is a next request exactly when something else is left, and it is among what is left |
| `CfqQueue.RemovedCounts` | src/linux/block/cfq-iosched.c:558-571 | what is taken out had been counted, so that BUG_ON cannot fire |
| `CfqQueue.RemovedKeeps` | src/linux/block/cfq-iosched.c:653-667 | removal keeps the tree sorted, the next request in it, and the counts of each kind exact |
| `CfqQueue.InsertedKeeps` | src/linux/block/cfq-iosched.c:573-596 | so does insertion |
| `Cfq.CfqData.RbFirst` | src/linux/block/cfq-iosched.c:388-394 | gives the true leftmost queue and caches it |
| `Cfq.CfqData.RbErase` | src/linux/block/cfq-iosched.c:396-403 | the cache stays empty or right |
| `Cfq.CfqData.Descend` | src/linux/block/cfq-iosched.c:467-502 | going down a tree of any shape finds the one place that keeps the tree sorted, and knows whether it is the leftmost |
| `Cfq.CfqData.ServiceTreeAdd` | src/linux/block/cfq-iosched.c:447-510 | whatever the shape of the tree, the queue is in it once, the cached leftmost node is empty or right, and a tree sorted in the order of service stays sorted |
| `Cfq.CfqData.AddRr` | src/linux/block/cfq-iosched.c:528-536 | on_rr, membership in the tree and busy_queues stay in agreement, and the tree sorted |
| `Cfq.CfqData.DelRr` | src/linux/block/cfq-iosched.c:542-553 | so they do, and the count was not 0 |
| `Cfq.CfqData.SliceExpired` | src/linux/block/cfq-iosched.c:757-790 | keeps every queue consistent, what waits, and the tree sorted |
| `Cfq.CfqData.PreemptQueue` | src/linux/block/cfq-iosched.c:1704-1718 | so does preemption |
| `Cfq.CfqData.RemoveRequest` | src/linux/block/cfq-iosched.c:653-667 | a queue with nothing left no longer waits for service |
| `Cfq.CfqData.DispatchInsert` | src/linux/block/cfq-iosched.c:917-928 | exactly that request stops waiting, and everything stays consistent |
| `Cfq.CfqData.AddRqRb` | src/linux/block/cfq-iosched.c:573-596 | the alias loop ends; the request is in the tree, the queue waits for service, and what has left it was dispatched |
| `Cfq.CfqData.InsertRequest` | src/linux/block/cfq-iosched.c:1763-1775 | fifo and tree agree again with the request last in the fifo, next_rq is in the tree, the service tree stays sorted, and nothing is lost |
| `Cfq.CfqData.MergedRequest` | src/linux/block/cfq-iosched.c:683-691 | the same at the new sector, alias or not |
| `Cfq.CfqData.MergedRequests` | src/linux/block/cfq-iosched.c:693-705 | the absorbed request is all that is gone, and the other has its place in the fifo if it had come first |
| `Cfq.CfqData.NewQueue` | src/linux/block/cfq-iosched.c:1388-1404 | a queue that was just set up waits for nothing, and keeps everything else |
| `Cfq.CfqData.SetClass` | src/linux/block/cfq-iosched.c:1823-1843 | a change of class while the queue waits keeps the rest, and keeps the tree sorted if and only if the queue still fits between its neighbours |
| `Cfq.ClassChange` | src/linux/block/cfq-iosched.c:1267-1308 | the same of any sorted tree and any class |
| `Cfq.ClassChangeBreaks` | src/linux/block/cfq-iosched.c:1823-1843 | two consistent queues with a request each for which the tree is no longer sorted |
| `Cfq.CfqData.ForcedDispatchQueue` | src/linux/block/cfq-iosched.c:1062-1073 | comes to an end with tree and fifo empty |
| `Cfq.CfqData.ForcedDispatch` | src/linux/block/cfq-iosched.c:1079-1095 | comes to an end; every request that waited was dispatched, once; busy_queues is 0 |
| `CfqRefs.UnheldIsIdle` | src/linux/block/cfq-iosched.c:1143-1162 | a queue nobody points to has no request allocated on it, none in its tree, and does not wait for service |
| `CfqRefs.References.PutQueue` | src/linux/block/cfq-iosched.c:1143-1162 | every count stays the number of pointers to its queue, no BUG_ON fires, a queue goes exactly with its last pointer and is idle then |
| `CfqRefs.References.GetQueue` | src/linux/block/cfq-iosched.c:1355-1437 | the queue of the priority's slot, or else of the context, or else a new one, with a reference for the caller and one for the slot it fills |
| `CfqRefs.References.SetRequest` | src/linux/block/cfq-iosched.c:1909-1956 | the request holds the queue of its context's slot, no other pointer changes, and counts are conserved |
| `CfqRefs.References.PutRequest` | src/linux/block/cfq-iosched.c:1887-1904 | the number allocated was not 0, counts are conserved, and a queue that goes had nothing queued |
| `CfqRefs.References.ChangedIoprio` | src/linux/block/cfq-iosched.c:1310-1337 | the context's asynchronous queue is that of the new priority, even when that is the one it had; no other pointer changes, and counts are conserved |
| `CfqRefs.References.ExitContext` | src/linux/block/cfq-iosched.c:1195-1211 | both slots are emptied and counts conserved |
| `CfqRefs.References.ExitQueue` | src/linux/block/cfq-iosched.c:2043-2076 | afterwards only requests hold queues; without any, no queue is left |
| `SeekChoice.Total` | src/linux/block/as-iosched.c:280-348 | of two distinct sectors one is preferred, whichever is named first |
| `SeekChoice.Transitive` | src/linux/block/as-iosched.c:280-348 | preference is transitive |
| `SeekChoice.BestBeats` | src/linux/block/as-iosched.c:280-348 | scanning finds the one preferred to every other |
| `SeekChoice.NearestIsBest` | src/linux/block/as-iosched.c:280-348 | the best is the nearest behind or ahead of the head, or the first if all are too far back |
| `SeekChoice.NeighboursExactlyWhen` | src/linux/block/as-iosched.c:355-378 | wherever the head is, the two-neighbour lookup finds the best of all that is left if and only if a condition on positions holds |
| `SeekChoice.TwoNeighbours` | src/linux/block/as-iosched.c:930-965 | it does after a dispatch when no other request starts within the one dispatched |
| `SeekChoice.OverlapMisses` | src/linux/block/as-iosched.c:355-378 | an input for which it does not |
| `SeekChoice.CfqOrder` | src/linux/block/cfq-iosched.c:295-383 | CFQ's choice is symmetric and transitive on distinct sectors |
| `Polynomials.MulSumIsMul` | src/linux/crypto/gf128mul.c:165-238 | the sum of shifted copies is the product reduced by long division, the reference for all of the below |
| `Gf128Words.TablesAreTaps` | src/linux/crypto/gf128mul.c:102-117 | the sixteen constants are the shifts of the modulus |
| `Gf128Words.TimesXIsX` | src/linux/crypto/gf128mul.c:125-143 | the word operations multiply by x, in both bit orders |
| `Gf128Words.TimesX8IsXPow8` | src/linux/crypto/gf128mul.c:145-163 | and by x eight times |
| `Gf128Mul.Init64k` | src/linux/crypto/gf128mul.c:255-336 | row i, entry b holds g times b times x^(8i) |
| `Gf128Mul.Init4k` | src/linux/crypto/gf128mul.c:391-432 | entry b holds g times b |
| `Gf128Products.Mul64k` | src/linux/crypto/gf128mul.c:349-372 | the sixteen look-ups give the product |
| `Gf128Products.Mul4k` | src/linux/crypto/gf128mul.c:435-462 | so do the look-ups with multiplications by x^8 between them |
| `Gf128Products.TablesAgree` | src/linux/crypto/gf128mul.c:255-462 | built from the same g, the two forms give the same block |
| `Gf128Products.MulDirect` | src/linux/crypto/gf128mul.c:165-238 | the direct form adds x^120 times what its memset left to the product |
| `Gf128Products.MulDirectExactlyWhen` | src/linux/crypto/gf128mul.c:174-212 | it gives the product if and only if the bytes its memset leaves alone are zero |
| `Gf128Products.DirectWrong` | src/linux/crypto/gf128mul.c:165-238 | an input for which it does not, on every machine |
| `Gf128Fixed.NotFixed` | src/linux/crypto/lrw.c:46-49 | only zero equals itself times x^24 or times x^56 |
| `Lrw.IncIsSucc` | src/linux/crypto/lrw.c:92-96 | the two-word increment adds one to the 128-bit number |
| `Lrw.SuccChanges` | src/linux/crypto/lrw.c:107-122 | adding one changes the trailing ones and the zero above them |
| `Lrw.GetIndex128` | src/linux/crypto/lrw.c:107-122 | the loop counts the trailing ones, 128 for all ones |
| `Lrw.SetBitSets` | src/linux/crypto/lrw.c:46-49 | which coefficient is set, by byte order and word size |
| `Lrw.FirstBitMisplaced` | src/linux/crypto/lrw.c:46-49 | on a big-endian machine the first entry is x^24 or x^56 times the key, which is right only for zero |
| `Lrw.Priv.SetKey` | src/linux/crypto/lrw.c:51-84 | the table of increments is right if and only if the machine is little-endian or the key is zero |
| `Lrw.BigEndianStep` | src/linux/crypto/lrw.c:133-151 | on a big-endian machine the first step of an even counter is right only for the zero key |
| `Lrw.StepExactlyWhen` | src/linux/crypto/lrw.c:139-151 | a step of the mask is right if and only if what is added is the key times the bits that change |
| `Lrw.Priv.NextTweak` | src/linux/crypto/lrw.c:144-151 | a step is right if and only if the counter is not all ones or the memory behind the table happens to be |
| `Lrw.AllOnesCounter` | src/linux/crypto/lrw.c:107-122 | from the counter that is all ones, some content behind the table gives a wrong mask, for every key |
| `Lrw.Priv.Crypt` | src/linux/crypto/lrw.c:124-178 | with a right table, block j is masked with key2 times (I + j), for every start, key and chunking of the walk, while the counter does not wrap |
| `Lrw.DecryptUndoesEncrypt` | src/linux/crypto/lrw.c:98-103 | decryption undoes encryption for any invertible cipher |
| `CbcMode.OutConcat` | src/linux/crypto/cbc.c:42-66 | chaining two stretches is chaining them as one |
| `CbcMode.DecryptUndoesEncrypt` | src/linux/crypto/cbc.c:42-181 | flat CBC decryption undoes encryption, data and IV |
| `Cbc.EncryptSegment` | src/linux/crypto/cbc.c:42-66 | the loop writes flat CBC of the source and leaves the IV to go on with, and changes nothing else |
| `Cbc.EncryptInPlace` | src/linux/crypto/cbc.c:68-92 | so does the in-place form |
| `Cbc.DecryptSegment` | src/linux/crypto/cbc.c:121-147 | so does decryption |
| `Cbc.DecryptInPlace` | src/linux/crypto/cbc.c:149-181 | the backward in-place decryption gives the same data and final IV |
| `Cbc.Crypt` | src/linux/crypto/cbc.c:94-208 | whichever form is chosen, for any length, the whole blocks are done and the rest is reported |
| `ScatterWalk.RestAdvance` | src/linux/crypto/scatterwalk.h:36-53 | moving on within a page drops that many addresses from what is ahead |
| `ScatterWalk.RestPageDone` | src/linux/crypto/scatterwalk.c:59-75 | the end of a page or an entry drops none |
| `ScatterWalk.CopyIn` | src/linux/crypto/scatterwalk.c:84-108 | gathers the next bytes of the list into a buffer and nothing else |
| `ScatterWalk.CopyOut` | src/linux/crypto/scatterwalk.c:84-108 | scatters a buffer to the next bytes of the list and nothing else |
| `Scratch.SpotPlace` | src/linux/crypto/blkcipher.c:65-69 | a spot does not straddle a page and moves only to the start of one |
| `Scratch.SpotsApart` | src/linux/crypto/blkcipher.c:279-294 | the three spots follow one another and none straddles a page |
| `Scratch.SlowFits` | src/linux/crypto/blkcipher.c:160-171 | the buffer of a slow step is big enough |
| `Scratch.IvFitsExactlyWhen` | src/linux/crypto/blkcipher.c:275-296 | the buffer for the IV is big enough at every address if and only if the IV is no longer than a block, or a multiple of the alignment, or two blocks and the IV's shift are not a multiple of the context alignment |
| `Scratch.IvOverrunsHere` | src/linux/crypto/blkcipher.c:275-296 | sizes for which it is two bytes short |
| `Blkcipher.BlkcipherWalk.NextSlow` | src/linux/crypto/blkcipher.c:146-179 | offers one block gathered in the buffer |
| `Blkcipher.BlkcipherWalk.NextCopy` | src/linux/crypto/blkcipher.c:181-193 | offers a stretch copied to the page |
| `Blkcipher.BlkcipherWalk.NextFast` | src/linux/crypto/blkcipher.c:195-220 | offers the memory itself |
| `Blkcipher.BlkcipherWalk.WalkNext` | src/linux/crypto/blkcipher.c:222-273 | offers a step whenever a block is left, and otherwise ends with the IV back in its place |
| `Blkcipher.BlkcipherWalk.DoneSlow` | src/linux/crypto/blkcipher.c:71-82 | delivers the block to the destination |
| `Blkcipher.BlkcipherWalk.DoneFast` | src/linux/crypto/blkcipher.c:84-103 | delivers the stretch and moves both walks on |
| `Blkcipher.BlkcipherWalk.WalkDone` | src/linux/crypto/blkcipher.c:105-143 | what was worked on counts as done, and the next step is offered or the walk is over |
| `Blkcipher.BlkcipherWalk.CopyIv` | src/linux/crypto/blkcipher.c:275-296 | the IV is in its spot and everything else the walk relies on is as it was |
| `Blkcipher.BlkcipherWalk.WalkFirst` | src/linux/crypto/blkcipher.c:314-340 | the first step, or the end of an empty message |
| `Blkcipher.BlkcipherWalk.CbcCrypt` | src/linux/crypto/cbc.c:94-208 | for lists that are the same or apart and any length: it comes to an end, the destination is flat CBC of the source as far as it fills blocks, the caller's IV is the one to go on with, no other memory changes, and an incomplete last block is an error |
| `BlkcipherJob.WholeMessage` | src/linux/crypto/blkcipher.c:105-143 | what progress to the end means for the memory as a whole |
| `CryptoQueue.EnqueueMarks` | src/linux/crypto/algapi.c:532-550 | `backlog` marks the request at max_qlen, or none, after enqueueing |
| `CryptoQueue.DequeueMarks` | src/linux/crypto/algapi.c:553-569 | and after dequeueing |
| `CryptoQueue.CryptoQueueObj.EnqueueRequest` | src/linux/crypto/algapi.c:532-550 | -EBUSY exactly at the limit, refused exactly when the request may not wait either, the mark kept |
| `CryptoQueue.CryptoQueueObj.DequeueRequest` | src/linux/crypto/algapi.c:553-569 | first in first out, the mark moved on |
| `CryptoQueue.RunKeeps` | src/linux/crypto/cryptd.c:72-139 | every run keeps: accepted requests are finished, held or queued, in order; those over the limit notified, about to be, or waiting, in order |
| `CryptoQueue.Protocol` | src/linux/crypto/cryptd.c:314-350 | in every run and for every limit final completions come once and in order of acceptance, each preceded by exactly one -EINPROGRESS if and only if it was accepted over the limit |
| `Md5.FoldMore` | src/linux/crypto/md5.c:161-189 | hashing in pieces is hashing at once |
| `Md5.Md5Ctx.Init` | src/linux/crypto/md5.c:150-159 | an empty message has been taken |
| `Md5.Md5Ctx.Update` | src/linux/crypto/md5.c:161-189 | the context stands for the message so far followed by the new bytes, for every split |
| `Md5.Md5Ctx.Final` | src/linux/crypto/md5.c:191-215 | the digest is that of the message padded as in sections 3.1 and 3.2 of RFC 1321 |
| `HashDigest.Update2` | src/linux/crypto/digest.c:34-84 | the context takes the next bytes of the list, whatever pages, entries, lengths and alignments they are split by |
| `HashDigest.FromPageExactlyWhen` | src/linux/crypto/digest.c:53-55 | what is taken from a page is all that is left or ends with the page if and only if the entry starts within its page or does not reach more than a page past 2^32 |
| `Hmac.HmacCtx.SetKey` | src/linux/crypto/hmac.c:44-84 | for every 32-bit key length the pads are those of the key, hashed first if it is longer than a block |
| `Hmac.HmacCtx.Init` | src/linux/crypto/hmac.c:86-106 | the inner hash has taken the inner pad |
| `Hmac.HmacCtx.Update` | src/linux/crypto/hmac.c:108-118 | and the text so far |
| `Hmac.HmacCtx.Final` | src/linux/crypto/hmac.c:120-141 | the result is the formula in section 2 of RFC 2104 of the whole text, however it was split |
| `Hmac.HmacCtx.OneShot` | src/linux/crypto/hmac.c:143-171 | the same in one call if the text and a block are shorter than 2^32 bytes; otherwise the outer hash of the hash of the first nbytes + 64 - 2^32 bytes of the inner pad alone |
| `Hmac.OneShotWrong` | src/linux/crypto/hmac.c:143-171 | a digest for which that differs from the formula for every key and every text that long |

## Findings

Where the code does less than one would expect, with the exact condition.

| what | source | members |
|---|---|---|
| A packet command with the hard barrier flag toggles the colour of the queue without being a barrier, so that requests on one side of a real barrier get different colours: the barrier's own write is issued while a write added before it has not ended. The order holds if and only if only file system requests carry the flag. | src/linux/drivers/block/pktcdvd.c:774-775, src/linux/block/elevator.c:646-658 | `OrderedColors.OutOfOrder`, `OrderedColors.OrderedExactlyWhen` |
| The call that finishes a request leaves its sector range as it was, and amounts are rounded down to sectors call by call, so that two calls may leave another range than one. | src/linux/block/ll_rw_blk.c:3480-3497 | `Completion.SplitExactlyWhen`, `Completion.SplitDiffers` |
| With writes_starved 0 there is no bound on the wait of an expired read. | src/linux/block/deadline-iosched.c:275 | `DeadlineBounds.InTimeExactlyWhen` |
| With fifo_batch 0x55555555 a jump after a batch takes the batch counter around to exactly 0, so that a chosen request is followed by a whole batch more: reads hold up a write for writes_starved calls more, and with writes_starved 1 an expired read far back in the fifo waits longer than 2p + 3 batches. With fifo_batch 1 the counter comes around after 0x7fffffff jumps. | src/linux/block/deadline-iosched.c:258-264 | `DeadlineRuns.WritesExactlyWhen`, `DeadlineRuns.ExtraReached`, `DeadlineRuns.ReadsExactlyWhen`, `DeadlineRuns.LatencyReached` |
| The service tree of CFQ, described as sorted in the order of service, is not after a class change of a queue that no longer fits where it is. | src/linux/block/cfq-iosched.c:442-446, src/linux/block/cfq-iosched.c:1823-1843 | `Cfq.ClassChange`, `Cfq.ClassChangeBreaks` |
| The two-neighbour lookup misses the best request when others start between the request dispatched and the head, except in the cases listed. | src/linux/block/as-iosched.c:355-378 | `SeekChoice.NeighboursExactlyWhen`, `SeekChoice.OverlapMisses` |
| The direct multiplications clear as many bytes as a pointer has, not the sixteen of a block. | src/linux/crypto/gf128mul.c:174, src/linux/crypto/gf128mul.c:212 | `Gf128Products.MulDirectExactlyWhen`, `Gf128Products.DirectWrong` |
| The LRW table is filled with native bit operations, which on a big-endian machine set other bits. | src/linux/crypto/lrw.c:46-49 | `Lrw.Priv.SetKey`, `Lrw.BigEndianStep` |
| A counter that is all ones reads the LRW table one entry past its end. | src/linux/crypto/lrw.c:107-122 | `Lrw.Priv.NextTweak`, `Lrw.AllOnesCounter` |
| The buffer for an IV longer than a block can be too short. | src/linux/crypto/blkcipher.c:279-294 | `Scratch.IvFitsExactlyWhen`, `Scratch.IvOverrunsHere` |
| The one-shot HMAC adds the block size to the length of the text in 32 bits: for a text of 2^32 - 64 bytes or more the inner digest takes in none of it. | src/linux/crypto/hmac.c:166 | `Hmac.HmacCtx.OneShot`, `Hmac.OneShotWrong` |

## Left out

- Segments.RqMapSg: every bio has a vector left, as the macros that look at a bio's last vector take for granted.
- Segments.RecountSegments: the sizes of the first and the last hardware segment are not stated.
- Segments.RecalcRqSegments: the hardware segments of a request are not stated, and its count is not cut to 16 bits, as the limits of a queue keep it below that.
- Completion.Request.EndThatRequestFirst: every bio has bytes left and no vector is empty; error codes are not modelled.
- Lrw.Priv.Crypt: chunks are sequences of whole blocks; that the walker cuts a message into such chunks is shown for CBC.
- Gf128Products.MulDirect: the unrolled additions are a loop, and the two operands are different blocks.
- Scratch.IvFitsExactlyWhen: for an IV of at most an eighth of a page.
- Blkcipher.BlkcipherWalk.CbcCrypt: memory is one array of bytes, so that addresses of pages stand for mappings; allocation of the buffer succeeds.
- HashDigest.Update2: what is taken in for an entry that starts beyond its page and reaches more than a page past 2^32 is not stated; `HashDigest.FromPageExactlyWhen` says that its pieces are looked for elsewhere.
- Cfq.CfqData.ServiceTreeAdd: the time of service is an argument; how it is worked out from slices and priorities is not modelled.
- CfqRefs.References.GetQueue: allocation succeeds.
- RequestQueue.Elevator.ElvDispatchSort: directions, sectors and the boundary are arguments.
- Sector numbers do not overflow, and time does not wrap.
- Sysfs, ioctls, tracing, locking, timers, work queues and allocation failure.
- Rebalancing of red-black trees: a request tree is the sequence of its nodes, and CFQ's service tree any tree with that sequence.
- The merge hash keyed by end sector, the incremental segment counts of merging, and tag invalidation.
- CFQ's slices, idling, preemption policy, think times and the expiry of its fifo; anticipation and the queues of the anticipatory scheduler.
- Cipher bodies and MD5's compression function, which are arbitrary functions here, and the other ciphers and hash functions.
- The wide forms of xor in cbc.c, which go one byte at a time here.
