# UringMachine: a verified model of its core

UringMachine is a fiber runtime on io_uring. This project models the parts of its C extension that keep mutable
state and share it: between fibers, between streams, and with the kernel. The kernel is not modelled as code; it is
any environment that keeps to the assumptions below.

| file | what it is about |
|---|---|
| `OpLifecycle.dfy` | operations: reference counts, freelist, runqueue, transient list; every interleaving of submission, completion, cancellation and release, as a state machine |
| `Scheduler.dfy` | the same operations of `struct um` changed in place, `um_switch` with its waits included, each proved to do what the state machine says |
| `OpLists.dfy` | the intrusive lists of operations, on linked nodes |
| `CommitLevel.dfy` | buffer sizes, commit levels, the bitmap of buffer ids, when it has one to offer, and the bound on the buffers that the kernel has |
| `BufferPool.dfy` | the buffer pool as a value: what each C function does to it, and what all of them keep |
| `UmBufferPool.dfy` | the buffer pool of `struct um` changed in place, each method proved against `BufferPool.dfy` |
| `SharedBuffers.dfy` | buffers shared by the kernel, segments and readers: replay of completions, references, memory |
| `SharedStreams.dfy` | many streams on one pool, as a state machine over all runs, closed streams included |
| `SharedFacts.dfy` | what holds of streams and buffers in every state it reaches |
| `StreamSteps.dfy` | what each of its steps means to the stream it is about |
| `SharedRuns.dfy` | what its steps change about the pool, and what that comes to over a run |
| `ThrownData.dfy` | what the completions of closed streams do to the pool when they are thrown away |
| `ExhaustedIds.dfy` | where that leads: when the pool looks for a buffer id and none is left |
| `FlatStream.dfy` | what the stream reads mean on one flat sequence of bytes |
| `Segments.dfy` | lists of segments and the bytes they stand for |
| `LineLimit.dfy` | how far the search of a line read looks |
| `StreamIo.dfy` | the reads over segments, with their loops, each proved against `FlatStream.dfy` and `LineLimit.dfy` |
| `Resp.dfy` | the Redis serialization protocol as the code writes and reads it; decoding undoes encoding |
| `RespWire.dfy` | the same protocol on the wire, byte by byte: a grammar that the encoder meets exactly, and what each type byte means to the decoder |
| `RespIo.dfy` | the RESP reader on a stream and the writer on a write buffer, proved against `Resp.dfy` |
| `QueueProtocol.dfy`, `MutexProtocol.dfy` | the futex protocols, as state machines with the kernel's waits and wakes (the mutex in place as well) |
| `UmQueue.dfy` | the queue's linked entries and free list in place, tied to `QueueProtocol.dfy` |
| `Writev.dfy` | the partial-write loop and its iovec array in place |

State machines are values; where the C code changes fields, arrays or links, a class does so too, and its methods
are proved to take the abstract value of the state to what the value-level function gives. The properties are then
lemmas about those functions, over every step and every run.

## Assumptions about the environment

- Completions are processed in the order in which they were posted. Every submission with an operation gets exactly
  one terminal completion; the terminal completion of a multishot operation is its last. -ENOBUFS, EOF and errors are
  terminal; data may come with the terminal completion or before it.
- A futex wait compares the word atomically when the kernel takes it; a wake resumes at most one parked waiter.
- The kernel fills the buffers of the ring in the order in which they were added, and clears F_BUF_MORE exactly when
  it has filled a buffer to its end.
- Fibers are cooperative: C code between two yields is one step. A fiber can be resumed by something other than its
  operation wherever the code provides for that, except where a line under "Left out" says otherwise.
- An AsyncOp object lives until its operation is done, and is awaited at most once.

## Where the code departs from the obvious reading

- `um_process_cqe` releases a discarded operation twice. If the fiber has already let go, the second release wraps the
  32-bit count and frees nothing (`OpLifecycle.SecondReleaseWraps`); after `io_clear` it is the one that frees
  (`OpLifecycle.SecondReleaseFreesOrphan`).
- `um_futex_wait` releases its operation twice when the wait ended normally. That is harmless exactly when the
  operation has left the runqueue by then (`OpLifecycle.FutexWaitSafeIff`). `um_writev` prepares its operation again
  for the rest of a partial write, which is sound under the same condition (`OpLifecycle.PrepareAgainSafeIff`);
  otherwise it cuts every operation queued after it off the runqueue (`OpLifecycle.PrepareAgainCutsQueue`).
- `um_writev` returns the full length when its fiber is resumed early without an exception. A normal return means that
  everything was written exactly if no bytes were left at such a resumption (`Writev.ReturnedMeansAllIff`); a caller
  can rely on it exactly if the loop meets none (`Writev.ReturnReliableIff`). An exception that resumes the fiber when
  the write is done already is raised exactly if that write was the last, with everything written, and swallowed by
  the next round otherwise (`Writev.ExceptionHeardIff`). `op->iovecs` is set before `um_prep_op` clears the record
  (um.c:686-687), so that the array is never freed.
- A data completion of a cancelled operation is thrown away without being accounted for in the pool.
  - The pool counts what was thrown away as committed from then on, and no longer knows where the kernel is
    (`ThrownData.DiscardIff`). All else about references, levels and overlaps holds in every run regardless.
  - If the data leaves its buffer open, the next segment of whichever stream is handed the closed stream's bytes; if it
    uses its buffer up, the next segment is right (`ThrownData.DiscardMisplacesIff`, five steps from setup:
    `ThrownData.DiscardReachable`). The bytes of every stream are right in runs in which the former never happens
    (`SharedRuns.InOrderWithoutSlips`).
  - If the data uses its buffer up, the buffer's slot is lost for good (`ThrownData.DiscardLosesSlotIff`,
    `ThrownData.LostForGood`). At most 65 slots and one for each such loss are occupied (`SharedRuns.SlotsInUse`).
- The bitmap of buffer ids shifts a 32-bit one, so that of 1024 ids it can offer 512; and the test for having found none
  is inside the search loop, where it does not take effect: with no bit set the search reads the word after the bitmap
  and goes on with whatever id that gives. A commit has an id with an empty slot exactly while fewer than 512 slots are
  occupied (`BufferPool.BidAvailableIff`). With up to 447 losses there are always ids enough
  (`ExhaustedIds.FewLossesSuffice`). A run of 513 connections, up to 512 of them closed with a single byte on its way,
  leads from setup to where there are none (`ExhaustedIds.IdsRunOut`); runs of the model end there.
- Removing an entry at one end of the queue leaves the outer link of the entry that is now last there in place. Taking
  the only entry from the other end follows it: a call leaves the queue sound for further pushes, unshifts, pops and
  shifts exactly if it does not do that (`UmQueue.DoCall`, `UmQueue.PopThenShift`). One-ended use never does
  (`UmQueue.OneEndedIsGood`). The walks that free, mark and compact the queue follow the link at the back: they visit
  each entry once exactly if it is not stale (`UmQueue.Queue.Walk`), which a pop makes it, and after a pop and an unshift
  they do not end (`UmQueue.Queue.PopThenUnshift`). A queue that is only shifted from is walked right.
- A waiter of the mutex that is resumed with an exception still unlocks it; that keeps the protocol's invariant exactly
  when nobody holds the mutex at that moment (`MutexProtocol.InterruptSafeIff`).
- A line read with a limit takes the lengths of passed segments from what remains of the limit without stopping at zero;
  the limit is kept, whatever arrives, exactly if it is decided in the first segment (`LineLimit.LimitKeptIff`).
- A delimited read with a negative limit skips a data byte, gives nothing where it should give what is left, or finds
  no segment to skip in; it is as documented exactly under the condition in `StreamIo.Stream.ReadToDelim`.
- `resp_read_line` scans later segments from the cursor of the first (`RespIo.ScanRightIff` says when that is right),
  and a bulk string of length 0 is read as "all there is" (`Resp.RoundTripIff`, `Resp.EmptyStringReadsEverything`). The
  null bulk string `$-1` is read as up to 29 bytes of what follows (`RespWire.DecodeNullBulkString`).
- The writer leaves 16 spare bytes around a bulk string, enough for lengths of up to 11 digits
  (`RespIo.SpareBytesSufficeIff`).

## Model

| member | source | states |
|---|---|---|
| `OpLifecycle.StepKeepsInv` | ext/um/um.c:134-204 | every step of the lifecycle (submission, single-shot, multishot and transient completion, cancel-and-discard, cancel-and-await, SKIP, runqueue turn, release by fiber, stream or handle) keeps the invariant of ops, lists and counters |
| `OpLifecycle.RunKeepsInv` | ext/um/um.c:368-478 | the invariant holds after every run, in any order of steps |
| `OpLifecycle.ReferencesAreHolders` | ext/um/um_op.c:199-217 | after every run an op is on the freelist exactly when neither kernel, runqueue nor owner holds it; otherwise its count is the number of these holders; it was freed exactly once for each acquisition before the current one |
| `OpLifecycle.ListsAndCountersAgree` | ext/um/um_op.c:52-94 | after every run SCHEDULED is set exactly for queued ops, no op is queued or freed twice or on two lists, and ops_runqueue, ops_transient, ops_free and ops_pending are the lengths and numbers they stand for; acquired and free ops add up to the batches allocated |
| `OpLifecycle.AcquiredIsUnheld` | ext/um/um_op.c:181-207 | acquiring an op yields one that nobody holds, and takes it off the freelist |
| `OpLifecycle.CompletionQueuesIff` | ext/um/um.c:157-203 | a completion of any op, of whatever kind, puts it at the end of the runqueue if and only if it is neither discarded, transient nor async and, when multishot, not queued yet; otherwise the runqueue is unchanged |
| `OpLifecycle.CompletionMarks` | ext/um/um.c:157-203 | the completion is the op's last unless it is multishot with F_MORE; its owner finds it seen, and done with the last; it is free then if nobody holds it; no other op is touched |
| `OpLifecycle.FirstCompletion` | ext/um/um.c:487-499 | from submission to first completion: blocking calls and stream reads get a turn, multishot ones with F_MORE go on, fire-and-forget ops are free again, timeouts with a handle are done |
| `OpLifecycle.AwaitIsWoken` | ext/um/um_async_op.c:23-33 | an awaited op's completion wakes its fiber, which it did not do before the await |
| `OpLifecycle.FinishedSelectIsSkipped` | ext/um/um.c:1154-1176 | an op that um_select has let go of while it was queued is never what the next switch resumes |
| `OpLifecycle.ScheduledGetsTurn` | ext/um/um.c:501-511 | a scheduled fiber is queued last and not skipped; if nothing else is queued it runs next, and its op is free again |
| `OpLifecycle.TurnsFollowWakes` | ext/um/um.c:134-204 | over every run, ops get their turns in the order in which completions woke their fibers or they were scheduled, each once, and those without a turn yet are still queued |
| `OpLifecycle.SecondReleaseWraps` | ext/um/um.c:176-189 | the terminal completion of an op its fiber gave up frees it once; the second release wraps the count to 2^32 - 1 and leaves the freelist alone |
| `OpLifecycle.SecondReleaseFreesOrphan` | ext/um/um_io.c:105-120 | the second release is the stream's own after `io_clear`: it frees the op, unless the op is still queued, which then holds the last reference |
| `OpLifecycle.SwitchResumesInOrder` | ext/um/um.c:387-411 | `um_switch` resumes the first op of the queue that is not marked SKIP and drops exactly the ones before it |
| `OpLifecycle.SwitchWaitsWhenIdle` | ext/um/um.c:387-411 | `um_switch` waits for completions only while nothing but SKIP ops is queued, and then goes on with what they bring |
| `OpLifecycle.FutexWaitSafeIff` | ext/um/um_sync.c:8-31 | the double release after a normal wait keeps the invariant if and only if the op is no longer queued |
| `OpLifecycle.FutexWaitUnsafeBeforeItsTurn` | ext/um/um_sync.c:20-27 | from any state with an outstanding wait, its completion followed by an early resume leads to an op that is free and queued at once |
| `OpLifecycle.PrepareAgainSafeIff` | ext/um/um.c:684-690 | preparing a done op again keeps the invariant if and only if it is not queued |
| `OpLifecycle.PrepareAgainCutsQueue` | ext/um/um.c:487-499 | otherwise the runqueue ends with it, and every op queued after it is lost while it still counts as scheduled |
| `Scheduler.UringMachine.Release` | ext/um/um_op.c:209-217 | in place, equals the value-level release with its 32-bit count |
| `Scheduler.UringMachine.ScheduleOp` | ext/um/um.c:134-138 | in place, equals queueing the op with one more reference |
| `Scheduler.UringMachine.ProcessCqe` | ext/um/um.c:140-204 | in place, every branch equals the value-level processing of a completion |
| `Scheduler.UringMachine.Switch` | ext/um/um.c:391-407 | the loop up to the next wait keeps the invariant and equals the value-level switch |
| `Scheduler.UringMachine.ProcessReadyCqes` | ext/um/um.c:211-241 | in place, equals processing the completions in order |
| `Scheduler.UringMachine.SwitchWaiting` | ext/um/um.c:387-411 | the whole loop, whatever its waits bring, keeps the invariant and equals the value-level switch with waits |
| `OpLists.Runqueue.Push` | ext/um/um_op.c:73-83 | appends the op to the linked queue, keeping it well formed |
| `OpLists.Runqueue.Shift` | ext/um/um_op.c:85-94 | removes and returns the first op of the linked queue, or nothing if it is empty |
| `OpLists.TransientList.Add` | ext/um/um_op.c:52-59 | puts the op in front of the doubly linked list |
| `OpLists.TransientList.Remove` | ext/um/um_op.c:61-71 | removes the op from wherever it is in the doubly linked list, keeping the order of the others and both directions of links |
| `OpLists.Freelist.Pop` | ext/um/um_op.c:181-187 | takes the first free op |
| `OpLists.Freelist.Grow` | ext/um/um_op.c:189-196 | a batch of 256 new ops, of which all but the returned one are linked into the freelist |
| `OpLists.Freelist.Free` | ext/um/um_op.c:199-203 | puts the op in front of the freelist |
| `CommitLevel.LevelMaximum` | ext/um/um.h:116-120 | the level after g growths is 2^(18+g); it has reached its maximum of 2^30 exactly from the twelfth growth on |
| `CommitLevel.SizesAre` | ext/um/um.h:116-120 | buffers have 2^14 bytes at first and 2^(16+g), a quarter of the level, after g growths |
| `CommitLevel.AvailableBid` | ext/um/um_buffer_pool.c:97-104 | if a usable slot is empty then the id found is usable by the 32-bit shifts and its slot is empty |
| `CommitLevel.UnsetKeepsBitmap` | ext/um/um_buffer_pool.c:112-116 | taking an id keeps "bit set exactly when slot empty" for usable ids, although the mask also clears the word's upper half |
| `CommitLevel.SetKeepsBitmap` | ext/um/um_buffer_pool.c:106-110 | giving an id back keeps it too |
| `CommitLevel.CountBound` | ext/um/um_buffer_pool.c:160-175 | buffers that were each committed below the level of their time are at most 16 of the first size and 4 of each later one |
| `CommitLevel.AdmittedBound` | ext/um/um_buffer_pool.c:160-175 | together at most 64, whatever sizes are mixed |
| `BufferPool.CheckoutKeeps` | ext/um/um_buffer_pool.c:6-35 | a checkout yields an unused buffer of the current size with one reference and cursor 0, leaves all others alone and keeps the pool's invariant, metrics included |
| `BufferPool.CheckinKeeps` | ext/um/um_buffer_pool.c:37-57 | a checkin takes one reference away and frees or relists the buffer only with the last one, keeping the invariant |
| `BufferPool.CheckoutReuses` | ext/um/um_buffer_pool.c:21-35 | a checkout takes the first buffer of the freelist, and makes a new one of the current size only if there is none |
| `BufferPool.CheckinRecycles` | ext/um/um_buffer_pool.c:37-57 | with its last reference a buffer goes to the freelist if it has the current size, and is freed otherwise |
| `BufferPool.BidAvailableIff` | ext/um/um_buffer_pool.c:118-130 | the bitmap offers an id, with an empty slot and in reach of the shifts, if and only if fewer than 512 slots are occupied; otherwise no bit is set |
| `CommitLevel.BidIsFreeIff` | ext/um/um_buffer_pool.c:97-122 | of the 512 ids that the shifts can reach one is free if and only if fewer than 512 are taken |
| `BufferPool.SlotBound` | ext/um/um_buffer_pool.c:160-175 | at most 65 buffers are with the kernel or reported and not used up; the other slots are lost ones |
| `BufferPool.CommitKeeps` | ext/um/um_buffer_pool.c:124-143 | a commit overwrites no slot, commits a buffer nobody had, leaves buffers in use alone and keeps the invariant |
| `BufferPool.EnsureLevelKeeps` | ext/um/um_buffer_pool.c:165-180 | above half the commit level nothing is done; below, if there are ids enough, the level is reached and not passed by more than a buffer; there are if and only if the fill loop is not needed or reaches the level; only empty slots are used and buffers in use are as they were |
| `BufferPool.FewLostSuffice` | ext/um/um_buffer_pool.c:165-180 | there are ids enough for the fill loop while no more than 447 slots are lost |
| `BufferPool.UncommitKeeps` | ext/um/um_buffer_pool.c:145-152 | a buffer that has been reported to its end leaves slot, bitmap, count and ring consistent, with the total unchanged, whatever lost slots lie before it |
| `BufferPool.ProcessResultKeeps` | ext/um/um_buffer_pool.c:227-243 | a result moves the pool's cursor in the buffer that it names by its length and adds one reference, whatever was thrown away before; the ring loses that buffer exactly when it is used up, and may grow by unused ones |
| `BufferPool.ThrowKeeps` | ext/um/um.c:181-189 | a result that is thrown away changes no slot, count, total, reference or buffer, and the pool's invariant holds with what is reported and lost |
| `BufferPool.GrowKeeps` | ext/um/um_buffer_pool.c:182-190 | a growth doubles the level, makes the size a quarter of it, and leaves only buffers of the new size on the freelist |
| `BufferPool.DiscardKeeps` | ext/um/um_buffer_pool.c:59-70 | exactly the buffers on the freelist are freed, and the metrics follow |
| `UmBufferPool.UmPool.constructor` | ext/um/um_buffer_pool.c:72-86 | a new pool satisfies the invariant |
| `UmBufferPool.UmPool.FindFirstSetBit` | ext/um/um_buffer_pool.c:97-104 | the word loop finds the lowest set bit of the whole bitmap, or that there is none, where the C loop reads on |
| `UmBufferPool.UmPool.BitmapSet` | ext/um/um_buffer_pool.c:106-110 | in place, equals setting the bit |
| `UmBufferPool.UmPool.BitmapUnset` | ext/um/um_buffer_pool.c:112-116 | in place, equals clearing the bit and the word's upper half |
| `UmBufferPool.UmPool.Checkout` | ext/um/um_buffer_pool.c:6-35 | in place, equals the value-level checkout |
| `UmBufferPool.UmPool.Checkin` | ext/um/um_buffer_pool.c:37-57 | in place, equals the value-level checkin |
| `UmBufferPool.UmPool.CommitBuffer` | ext/um/um_buffer_pool.c:124-143 | in place, equals the value-level commit, and has an id for it exactly if fewer than 512 slots are occupied |
| `UmBufferPool.UmPool.UncommitBuffer` | ext/um/um_buffer_pool.c:145-152 | in place, equals the value-level withdrawal |
| `UmBufferPool.UmPool.EnsureCommitLevel` | ext/um/um_buffer_pool.c:165-180 | the fill loop equals the value-level fill; it never looks for an id in vain if and only if there are ids enough, and then ends with more than half the level committed |
| `UmBufferPool.UmPool.HandleEnobufs` | ext/um/um_buffer_pool.c:182-190 | raises exactly at the maximum level and otherwise equals the value-level growth |
| `UmBufferPool.UmPool.GetOpResultSegment` | ext/um/um_buffer_pool.c:217-243 | the segment lies in the buffer that the completion names, at the pool's cursor; the pool changes as the value-level function says, as far as there are ids |
| `UmBufferPool.UmPool.ThrowResult` | ext/um/um.c:181-189 | throwing a result away changes nothing in the pool but what is reported and lost |
| `SharedBuffers.ReplayFacts` | ext/um/um_buffer_pool.c:217-243 | unprocessed completions lead from what is processed or thrown away to the kernel's cursor: the kernel has a suffix of the ring, and all that is reported lies behind it |
| `SharedBuffers.ReplayConserves` | ext/um/um_buffer_pool.c:227-235 | space the kernel can still fill plus reported bytes is the space of the ring |
| `SharedBuffers.ReceiveKeeps` | ext/um/um_buffer_pool.c:145-152 | a piece written by the kernel touches nothing that was received before, segment or unprocessed completion |
| `SharedBuffers.SegmentRightIff` | ext/um/um_buffer_pool.c:227-235 | the next segment is what was received if and only if the pool's cursor is where the completion starts |
| `SharedBuffers.ProcessKeeps` | ext/um/um_buffer_pool.c:227-243 | the segment made from a completion overlaps no live one and nothing is written over it, in step or not |
| `SharedBuffers.ThrowSound` | ext/um/um.c:181-189 | throwing a completion away keeps references, slices, unprocessed pieces and the kernel's place in the ring |
| `SharedBuffers.GiveBackKeeps` | ext/um/um_buffer_pool.c:245-248 | checking in a segment or working buffer keeps every count equal to its holders and every other slice intact |
| `SharedBuffers.DiscardBreaksReplay` | ext/um/um.c:181-189 | leaving out a data completion always leads to a different place than the kernel's |
| `SharedStreams.StepKeepsInv` | ext/um/um_io.c:82-209 | every step of kernel, pool and streams keeps the invariant: operations started, filling buffers, running out, ending, failing and being cancelled; completions processed, and thrown away for closed streams; results taken; segments read; streams closed at any moment |
| `SharedStreams.RunKeepsInv` | ext/um/um_io.c:82-209 | so does every run, up to where an id is looked for and none is left |
| `SharedStreams.InitialInv` | ext/um/um_buffer_pool.c:72-86 | it holds at setup, for any number and kinds of streams |
| `SharedFacts.BytesArriveInOrder` | ext/um/um_op.c:146-165 | if the pool's cursor was in step whenever a segment was made for a stream, what the stream was sent is what was read from it, then what its live segments hold in memory from the cursor on, then what is reported and unprocessed: nothing lost, repeated, reordered or overwritten |
| `SharedFacts.NothingOverlaps` | ext/um/um_buffer_pool.c:217-225 | in every run, live segments and unprocessed pieces of all streams are pairwise disjoint, and the kernel's cursor is behind them all |
| `SharedFacts.ReferencesAreHolders` | ext/um/um_io.c:192-209 | in every run, a buffer's count is one for its slot, lost or not, one for each stream reading into it and one for each live segment; it is on the freelist, with the current size, exactly when that is zero |
| `SharedFacts.CommittedFacts` | ext/um/um_buffer_pool.c:124-152 | in every run, bp_buffer_count is the number of occupied slots: at most 65, and the lost ones; there is an id with an empty slot if and only if that is below 512; bp_total_commited is the space left to the kernel, the unprocessed bytes and the bytes thrown away, and never negative |
| `SharedFacts.StartFeedsKernel` | ext/um/um_io.c:31-55 | when an operation has been started, the kernel can be out of buffers only if more than half the commit level is reported and unprocessed or was thrown away |
| `SharedRuns.StepEffect` | ext/um/um_io.c:136-158 | nothing but a growth changes the commit level, and a growth doubles it; nothing but throwing away the last data of a buffer loses a slot; nothing but throwing away data that leaves its buffer open gets the pool's cursor out of step |
| `StreamSteps.EnobufsGrowsIff` | ext/um/um_io.c:136-158 | when an operation has run out of buffers, the pool grows to twice the level if and only if the stream's segments hold less than four buffer sizes of unread bytes, the operation was started at the current level, and that is below 2^30; at 2^30 an error is raised instead; in all other cases the level stays and the operation is dropped |
| `StreamSteps.EndReachesStream` | ext/um/um_io.c:82-190 | from the kernel's last word on an operation to the stream, through its completion and results: EOF is noted exactly after the end of the data, and a starved stream makes the pool grow |
| `StreamSteps.StartIs` | ext/um/um_io.c:31-55 | a started operation is armed and remembers the commit level of its start |
| `StreamSteps.ReceiveIs` | ext/um/um_io.c:36-50 | received data is reported at the kernel's cursor, which moves on, to the next buffer when this one is full |
| `StreamSteps.ProcessIs` | ext/um/um.c:176-196 | a processed completion is the stream's last result, of its kind, or one more segment of as many bytes; a closed stream gets neither |
| `StreamSteps.TakeResultsIs` | ext/um/um_io.c:82-103 | taken results can be read, and EOF is noted if it was among them |
| `StreamSteps.ReadIs` | ext/um/um_io.c:377-391 | a read takes exactly the next bytes that the segments hold in memory, and leaves the rest to be read |
| `StreamSteps.ReadSslIs` | ext/um/um_io.c:192-209 | a read into the stream's own buffer adds what was sent to what can be read |
| `StreamSteps.DropIs` | ext/um/um_io.c:122-128 | a closed stream gives its segments back oldest first |
| `SharedRuns.GrowsOncePerLevel` | ext/um/um_io.c:136-158 | after a growth no operation started at the earlier level, or a lower one, ever makes the pool grow again |
| `SharedRuns.GrowthBound` | ext/um/um_buffer_pool.c:182-190 | in every run from setup the pool grows at most 12 times, the level is 2^(18 + growths), the size a quarter of it after the first, and growth raises exactly after the twelfth |
| `SharedRuns.RunLosses` | ext/um/um.c:181-189 | over a run, one slot is lost for each time that the last data of a buffer is thrown away, none is regained, and the bytes thrown away add up |
| `SharedRuns.SlotsInUse` | ext/um/um_buffer_pool.c:124-152 | in every run from setup at most 65 slots and one for each such loss are occupied, and bp_total_commited is too high by exactly what the run threw away |
| `SharedRuns.InOrderWithoutSlips` | ext/um/um_op.c:146-165 | in every run from setup in which no data is thrown away that leaves its buffer open, every open stream is read as it was sent |
| `ThrownData.DiscardIff` | ext/um/um.c:181-189 | when the completion of a closed stream is processed, the pool's account of committed space stays as right as it was, and pool and kernel in agreement, if and only if the completion has no data; the pool's cursor is in step afterwards if and only if the data had used up its buffer |
| `ThrownData.DiscardLosesSlotIff` | ext/um/um.c:181-189 | the buffer of data thrown away stays in its slot; neither kernel nor any completion names it again if and only if the data had used it up |
| `ThrownData.LostForGood` | ext/um/um_buffer_pool.c:145-152 | after any further run a lost slot holds the same buffer, and nothing names it |
| `ThrownData.DiscardMisplacesIff` | ext/um/um_buffer_pool.c:227-235 | the next segment of whichever stream is then the bytes it was sent if and only if the data thrown away had used up its buffer; otherwise it starts with the data thrown away |
| `ThrownData.DiscardReachable` | ext/um/um_io.c:105-118 | five steps from setup lead there: two streams started, a byte received for each, the first closed |
| `ExhaustedIds.StuckIff` | ext/um/um_buffer_pool.c:165-175 | the guard on processing a completion fails exactly if the fill loop comes to look for an id with all 512 taken, no bit set and the level not reached |
| `ExhaustedIds.FewLossesSuffice` | ext/um/um_buffer_pool.c:165-175 | in every run from setup that loses no more than 447 slots, there are ids enough for the next completion and the next start |
| `ExhaustedIds.IdsRunOut` | ext/um/um_buffer_pool.c:97-130 | a run from setup leads to where the fill loop looks for an id and none is left, by closing streams with one byte on its way each |
| `FlatStream.LineTakesTerminator` | ext/um/um_io.c:417-470 | a line read takes the line and its LF or CR LF, byte 10 or 13 and 10, exactly, and fails taking nothing exactly when there is no LF |
| `FlatStream.FixedReads` | ext/um/um_io.c:283-505 | an exact read, an integer read and a skip take as many bytes as asked for; a short exact read takes nothing, a short integer read loses what there was |
| `FlatStream.LineRoundTrip` | ext/um/um_io.c:417-470 | a line written with CR LF is read back, with what follows left untouched |
| `FlatStream.DelimTakesDelimiter` | ext/um/um_io.c:517-555 | a delimited read takes field and delimiter, and fails taking nothing exactly when there is no delimiter within the limit |
| `FlatStream.BigEndianBound` | ext/um/um_io.c:351-375 | the value of n bytes is below 256^n |
| `FlatStream.BigEndianFirst` | ext/um/um_io.c:351-375 | the first byte is the most significant one |
| `FlatStream.UintFits` | ext/um/um_io.c:351-375 | up to 8 bytes fit the 64-bit accumulator |
| `StreamIo.Stream.GetMoreSegments` | ext/um/um_io.c:5-27 | appends what arrives and counts it as pending, notes EOF, or raises the operation's error; what can be read is unchanged |
| `StreamIo.Stream.BufferedFacts` | ext/um/um_io.c:268-299 | consumed bytes are all bytes less those that can still be read; the cursor is strictly inside the head segment; no segment means nothing pending |
| `StreamIo.Stream.SkipBytes` | ext/um/um_io.c:283-299 | drops that many bytes, or all if there are fewer, across segments; waits only if fewer are buffered and it may |
| `StreamIo.Stream.Copy` | ext/um/um_io.c:377-391 | copies exactly the next bytes, across segments, and counts them as consumed |
| `StreamIo.Stream.ConsumeString` | ext/um/um_io.c:393-411 | the next bytes as a string, then the terminator skipped |
| `LineLimit.UnlimitedIsLine` | ext/um/um_io.c:417-470 | without a limit the segment-wise line read is the flat line read |
| `LineLimit.SearchOutcome` | ext/um/um_io.c:429-468 | with a limit, a line that ends within it is found wherever the segments are cut |
| `LineLimit.LimitKeptIff` | ext/um/um_io.c:429-468 | the limit is kept, whatever segments follow, if and only if the first unread segment has an LF or at least as many bytes as the limit |
| `StreamIo.Stream.FindLf` | ext/um/um_io.c:429-468 | the search loop finds what the search over all unread segments, buffered and to come, finds |
| `StreamIo.Stream.ReadLine` | ext/um/um_io.c:417-470 | equals the segment-wise line read for every limit, and without one the flat line read, CR and LF in different segments included; waits only if what is buffered has no LF within the limit |
| `StreamIo.Stream.ReadExact` | ext/um/um_io.c:472-505 | equals the flat exact read: all or nothing; waits only if less than that, or its terminator, is buffered |
| `StreamIo.Stream.ReadAvailable` | ext/um/um_io.c:472-505 | with a length of zero or less: exactly what is buffered, or if that is nothing what arrives first, cut to the limit; nothing only if no bytes are left |
| `StreamIo.Stream.ReadToDelim` | ext/um/um_io.c:517-555 | with a limit of zero or more, equals the flat delimited read on any segmentation; with a negative one, does what is documented if and only if the delimiter is within it, or nothing is left, or exactly that many bytes are and EOF has been noticed; waits only if less than the limit is buffered and no delimiter |
| `StreamIo.Stream.ReadUint` | ext/um/um_io.c:351-375 | the big-endian value of the next bytes on any segmentation; waits only if fewer are buffered |
| `StreamIo.DoCalls` | ext/um/um_io.c:283-555 | a run of reads gives what it gives on the flat bytes |
| `StreamIo.SegmentationIndependence` | ext/um/um_io.c:283-555 | two streams with the same bytes give the same results to the same reads and end at the same position, however they are segmented |
| `Resp.RoundTrip` | ext/um/um_io.c:698-750 | decoding an encoded value without empty strings returns it and leaves exactly what follows |
| `Resp.EmptyStringTakesAll` | ext/um/um_io.c:612-614 | if the value has an empty string, decoding eats all that follows and returns something without one |
| `Resp.RoundTripIff` | ext/um/um_io.c:585-864 | a value survives encoding and decoding, whatever follows, if and only if it has no empty string |
| `Resp.EmptyStringReadsEverything` | ext/um/um_io.c:612-614 | what an encoded empty string is read as |
| `Resp.LengthRoundTrip` | ext/um/um_io.c:616-621 | the wrapping 64-bit length parser undoes decimal printing |
| `Resp.IntegerRoundTrip` | ext/um/um_io.c:668-671 | `strtol` undoes decimal printing of signed 64-bit numbers |
| `RespWire.WireIffEncoded` | ext/um/um_io.c:818-864 | the encoding of a value is the one thing that the grammar allows for it: type bytes `_ # : $ * %`, numbers in decimal, CR LF, items and pairs in order |
| `RespWire.DecodeText` | ext/um/um_io.c:698-750 | lines that start with `+`, `-`, `,`, `_` and `#` are a string, an error, a float, nil and a boolean, whatever their text |
| `RespWire.DecodeNothing` | ext/um/um_io.c:698-750 | an empty line is nil, and a line that starts with no type byte raises |
| `RespWire.DecodeInteger` | ext/um/um_io.c:668-671 | `:` and a decimal number is that integer, or the nearest one of 64 bits |
| `RespWire.StrtolIs` | ext/um/um_io.c:668-671 | spaces, a sign and digits up to the first other byte, leading zeros included, are read as that number, or the nearest one of 64 bits |
| `RespWire.LengthIs` | ext/um/um_io.c:616-621 | the length parser makes of any bytes their value as decimal places, signed characters included, modulo 2^64 |
| `RespWire.DecodeSized` | ext/um/um_io.c:652-697 | `$`, `!` and `=` with a length are a string, an error, and a string without the name of its encoding, of that many bytes |
| `RespWire.DecodeCutString` | ext/um/um_io.c:472-505 | a string that is cut short is nil and is left; one that only lacks its CR LF is read |
| `RespWire.DecodeNullBulkString` | ext/um/um_io.c:612-621 | `$-1` takes up to 29 bytes and the two behind them |
| `RespWire.DecodeArrays` | ext/um/um_io.c:638-649 | `*`, `~` and `>` with a number are an array of as many values that follow, in order |
| `RespWire.DecodeHashes` | ext/um/um_io.c:623-636 | maps and attributes with a number are a hash of as many pairs, in which a key has what was said of it last |
| `RespIo.ReadLine` | ext/um/um_io.c:585-610 | the scan loop equals the flat RESP line read wherever its condition holds |
| `RespIo.ScanRightIff` | ext/um/um_io.c:585-610 | the scan finds the first CR, whatever segments follow, if and only if it starts at the start of a segment or ends in that segment |
| `RespIo.ReadString` | ext/um/um_io.c:612-614 | for a positive length equals the flat string read on any segmentation; for others it is exactly what is buffered, or what arrives first, up to the limit; takes what it returns and two bytes |
| `RespIo.ParseLengthField` | ext/um/um_io.c:616-621 | the loop equals the length parser, in wrapping arithmetic |
| `RespIo.Read` | ext/um/um_io.c:698-750 | on one buffered segment the recursive reader equals the decoder, in value, error and bytes left |
| `RespIo.ReadArray` | ext/um/um_io.c:638-649 | the loop equals the decoder of that many items |
| `RespIo.ReadHash` | ext/um/um_io.c:623-636 | the loop equals the decoder of that many pairs, later keys replacing equal ones |
| `RespIo.WriteBuffer.constructor` | ext/um/um_io.c:752-763 | the buffer holds the string, in the least storage of a multiple of 4096 bytes |
| `RespIo.WriteBuffer.Expand` | ext/um/um_io.c:765-772 | storage grows in steps of 4096, only if needed and no further than needed, contents kept |
| `RespIo.WriteBuffer.Append` | ext/um/um_io.c:774-780 | appends the bytes, within the storage |
| `RespIo.WriteBuffer.AppendBulkString` | ext/um/um_io.c:786-799 | appends the encoding of the string, within the storage of one expansion |
| `RespIo.SpareBytesSufficeIff` | ext/um/um_io.c:786-799 | 16 spare bytes suffice if and only if the string is shorter than 10^11 bytes |
| `RespIo.Encode` | ext/um/um_io.c:818-864 | appends exactly the encoding, or fails exactly on what cannot be encoded, keeping what was there |
| `RespIo.SendAndReceive` | ext/um/um_io.c:585-864 | a value written into a buffer and read back from one segment is the same, with what follows left, if and only if it has no empty string |
| `QueueProtocol.StepKeepsInv` | ext/um/um_sync.c:212-266 | every step of adders, consumers and kernel, interruption and cancellation included, keeps READY exactly when items exist, the counters, the items, and every needed wakeup |
| `QueueProtocol.NeverStuck` | ext/um/um_sync.c:239-266 | in every run, with items and a consumer waiting for one, some step of the kernel or of a released consumer is enabled |
| `QueueProtocol.ItemsReachConsumers` | ext/um/um_sync.c:239-266 | from there such steps alone lead to an item being taken, or to no consumer being left waiting |
| `QueueProtocol.DeliveryIsInevitable` | ext/um/um_sync.c:239-266 | whichever internal steps are taken, in whatever order, an item is taken within a number of them that the state bounds, or they run out with nobody waiting |
| `QueueProtocol.TakesItemIff` | ext/um/um_sync.c:239-251 | who asks for an item, or asks again after a wait, gets one exactly if there is one, the last with pop and the first with shift, and waits otherwise |
| `QueueProtocol.AddWakesIff` | ext/um/um_sync.c:212-221 | an added item is put at its end and wakes a consumer exactly if one waits |
| `QueueProtocol.LeavingWakesIff` | ext/um/um_sync.c:254-266 | a consumer that leaves, with an item or an exception, wakes another exactly if an item is left and another waits |
| `QueueProtocol.RaisedLeaves` | ext/um/um_sync.c:254-276 | a consumer interrupted with an exception leaves without an item, and one without waits or takes like any other |
| `QueueProtocol.RunConserves` | ext/um/um_sync.c:212-266 | after every run what was added is what was taken and what is there, and count and num_waiters are right |
| `QueueProtocol.ShiftIsFifo` | ext/um/um_sync.c:223-276 | with pushes and shifts only, items are taken in the order in which they were added |
| `UmQueue.Queue.AddHead` | ext/um/um_sync.c:163-175 | puts the value in front, reusing a free entry if there is one, and makes the outer link there fresh |
| `UmQueue.Queue.AddTail` | ext/um/um_sync.c:177-189 | appends the value and makes the outer link there fresh |
| `UmQueue.Queue.RemoveHead` | ext/um/um_sync.c:191-200 | takes the first value and frees its entry; the list stays valid if and only if the entry was not the only one or its link at the back was not stale |
| `UmQueue.Queue.RemoveTail` | ext/um/um_sync.c:202-210 | the same at the back |
| `UmQueue.Queue.Add` | ext/um/um_sync.c:212-221 | the linked queue does what the protocol's add does, wake included |
| `UmQueue.Queue.Take` | ext/um/um_sync.c:239-266 | the linked queue does what the protocol's take does, wake included, if and only if the removal is a good one |
| `UmQueue.Queue.Complete` | ext/um/um_sync.c:254-266 | the state becomes EMPTY exactly if no entry is left, and a wake is sent exactly if consumers wait and one is |
| `UmQueue.Queue.BeginRemove` | ext/um/um_sync.c:239-251 | pop or shift up to its first wait does what the protocol's step does |
| `UmQueue.Queue.ResumeRemove` | ext/um/um_sync.c:243-266 | so does its continuation after a wait, an interrupted one included |
| `UmQueue.DoCall` | ext/um/um_sync.c:148-276 | one call equals the call on a sequence, and leaves the queue sound if and only if it does not take the only entry from the end opposite to a stale link |
| `UmQueue.DoCalls` | ext/um/um_sync.c:148-276 | any run of such good calls, at both ends, equals the run on a sequence, results included |
| `UmQueue.Queue.Walk` | ext/um/um_sync.c:114-146 | the walk that frees, marks or compacts the queue visits each entry once and ends if and only if the link at the back is not stale; if it leads to the first entry, the walk never ends |
| `UmQueue.Queue.PopThenUnshift` | ext/um/um_sync.c:148-210 | on two entries or more, a pop followed by an unshift makes it lead there |
| `UmQueue.OneEndedIsGood` | ext/um/um_sync.c:191-210 | every run that removes at one end only consists of good calls; if it only shifts, the link at the back stays good |
| `UmQueue.EndsAreOpposite` | ext/um/um_sync.c:163-210 | what is pushed is popped and what is unshifted is shifted; at the other end the queue is as it was |
| `UmQueue.PopThenShift` | ext/um/um_sync.c:191-210 | two pushes, a pop and a shift are the shortest run that is not; another push in between repairs it |
| `MutexProtocol.StepKeepsInv` | ext/um/um_sync.c:66-106 | every step keeps exclusion, the waiter count and every needed wakeup, newcomers that barge in and interrupted waiters included |
| `MutexProtocol.MutualExclusion` | ext/um/um_sync.c:66-106 | after every run at most one fiber holds the mutex |
| `MutexProtocol.NeverStuck` | ext/um/um_sync.c:66-106 | after every run with a waiting fiber some step is enabled that is neither a new lock nor an interruption |
| `MutexProtocol.GrantedIff` | ext/um/um_sync.c:66-73 | who asks for the mutex, or asks again after a wait, gets it exactly if nobody holds it |
| `MutexProtocol.WaitersAreCounted` | ext/um/um_sync.c:66-106 | in every run num_waiters is the number of waiting fibers, and one more for each that has given up with an exception |
| `MutexProtocol.UnlockWakesIff` | ext/um/um_sync.c:75-86 | where none has, an unlock issues a wake, and waits for it, exactly if a fiber waits |
| `MutexProtocol.LockIsInevitable` | ext/um/um_sync.c:66-86 | from a free mutex, whichever internal steps are taken in whatever order, a fiber takes it within a number of them that the state bounds, or they run out with nobody waiting |
| `MutexProtocol.InterruptSafeIff` | ext/um/um_sync.c:94-106 | whatever can happen keeps the invariant if and only if it is not a waiter unwinding with an exception while somebody holds the mutex |
| `MutexProtocol.InterruptLetsSecondFiberIn` | ext/um/um_sync.c:94-106 | after that a second fiber can lock while the first still holds |
| `MutexProtocol.UmMutex.LockBegin` | ext/um/um_sync.c:66-73 | in place, equals the protocol's lock up to its first wait |
| `MutexProtocol.UmMutex.LockResume` | ext/um/um_sync.c:66-106 | in place, equals the protocol's continuation after a wait, with the ensure block after an exception |
| `MutexProtocol.UmMutex.LockTest` | ext/um/um_sync.c:66-73 | one round of the lock loop on the state word |
| `MutexProtocol.UmMutex.Unlock` | ext/um/um_sync.c:75-86 | in place, equals the protocol's release, wake included |
| `Writev.AllocIovecs` | ext/um/um_utils.c:102-136 | succeeds exactly if every argument is a buffer; then the array stands for exactly the buffers' bytes, and the total is their length |
| `Writev.AdvanceIovecs` | ext/um/um_utils.c:138-151 | in the array, exactly the written bytes are dropped from what is left |
| `Writev.Writev` | ext/um/um.c:664-714 | the loop over iovecs equals the loop over the flat data, however the data is divided |
| `Writev.TakesPrefix` | ext/um/um.c:664-714 | the kernel takes a prefix of the data once and in order; each piece is submitted at the first offset plus the bytes written before it; while the loop continues each answer has taken at least one byte |
| `Writev.WrittenInPlace` | ext/um/um.c:700-703 | pieces at such offsets leave the file with the bytes that were taken in one run from the first offset on, and untouched elsewhere |
| `Writev.EndsAtFirst` | ext/um/um.c:684-703 | the loop ends with the first answer that is no taking of bytes, or that takes the last of them |
| `Writev.OutcomeIs` | ext/um/um.c:684-714 | that answer decides whether the call returns or raises, and with those before it how much is written |
| `Writev.ExceptionHeardIff` | ext/um/um.c:692-711 | an exception that comes when a write is done makes a difference if and only if that write ends the loop, and then everything is written |
| `Writev.ReturnedMeansAllIff` | ext/um/um.c:684-714 | for every course of events, a normal return means that everything was taken if and only if no byte was left when the loop met a resumption without an exception |
| `Writev.ReturnReliableIff` | ext/um/um.c:692-714 | a normal return means that however much of a cancelled write the kernel had done, if and only if the loop meets no such resumption |

## Left out

- Per-syscall wrappers of ext/um/um.c (read, write, socket, statx and others): one pattern of operation, modelled once.
- um_select's polling, um_timeout and um_sleep: only what they do to operations; no clocks or durations.
- MutexProtocol.StepKeepsInv: not the unwinding of a waiter while somebody holds the mutex, where InterruptSafeIff shows it false; a wake that has been submitted is performed.
- UmQueue.DoCalls: the queue is sound for pushes, unshifts, pops and shifts; for the walks see Walk. Calls that find an item at once, or are not made; the blocking ones are BeginRemove and ResumeRemove, step by step.
- OpLifecycle.StepKeepsInv: an AsyncOp whose await fails, and the two callers that release or prepare an operation again, are outside the steps; the latter have their own lemmas.
- Scheduler.UringMachine.ProcessCqe: lists are sequences of op numbers here; their links are in OpLists. Results and flags of a completion, other than F_MORE, are not kept.
- Scheduler.UringMachine.SwitchWaiting: the poll that test mode adds, and errors of the wait itself.
- UmBufferPool.UmPool.Checkout: the freelist is a sequence of buffer numbers, not linked through the buffers; malloc never fails.
- SharedStreams.StepKeepsInv: runs end where the pool looks for a buffer id and none is left, as the search then reads past the bitmap. io_clear is final, and raises first if an error result has not been seen. A stream's lists of segments and results are intervals of numbered segments, so their next pointers and the segment freelist are not modelled; results dropped with a freed multishot operation have no segments in these runs.
- SharedStreams.GrowsOncePerLevel: an operation that runs out of buffers below the current level is restarted without growth, as in the code; that it then makes progress depends on the kernel.
- The buffers_free metric, which discarding the freelist does not lower, and bp_teardown.
- read_each, which bypasses the byte counters; read_int_be, a signed variant of read_uint_be; file mode; output buffers passed in by the caller.
- StreamIo.Stream.GetMoreSegments: waiting is immediate, and what a stream will receive, and how it ends, is known to the model in advance; an error that comes in the same results as data is raised by the next wait; segments are sequences of bytes, with their buffers in SharedStreams.
- UmBufferPool.UmPool.GetOpResultSegment: after ids have run out the C code goes on with an id from past the bitmap; the method goes on without a commit.
- RespIo.Read: everything is in one buffered segment; across segments the scan has the condition of ScanRightIff.
- Resp.RoundTrip: how floats are printed (with too few digits to survive) is left out, and what a float line means is left to strtod; big integers raise, as in the code; string encodings are not modelled.
- RespIo.Encode: no floats, and strings below 10^11 bytes, as SpareBytesSufficeIff requires; hash keys are compared by value.
- RespIo.WriteBuffer.AppendBulkString: strings below 10^11 bytes; beyond that it writes past the space it has made.
- RespIo.ReadLine: a scan that starts inside a segment and runs into the next, where ScanRightIff shows it wrong.
- SSL itself, sidecar mode, DNS, inotify, garbage-collector marking, Ractors, the GVL, the fiber scheduler and actors in Ruby.
