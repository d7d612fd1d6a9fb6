# Verified models of the study repository

Seven parts of the repository, modelled in Dafny and proved against specifications that do not mention
the code's own bookkeeping.  `dafny verify dfyconfig.toml` checks the whole project.

| module | what it models |
|---|---|
| `SleepingMutex`, `SleepingMutexPaths`, `SleepingMutexBarging`, `SleepingMutexExample` | the kernel's sleeping mutex (decrement-and-test form) as atomic steps of any number of tasks |
| `ScatterGather` | the RDMA copy engine: a resumable cursor over a list of buffers, and the inline path |
| `RingQueue` | the power-of-two ring that user space and kernel share |
| `Rping` | one rping client and one server: main threads, completion threads and network cards |
| `FlatTable`, `FlatTableRows`, `FlatTableTiling` | the in-place layout of a flat-table, its rounding off, and when it tiles |
| `Pelt` | the generator of the load-tracking constants |
| `TracePairing` | CPU-time accounting from scheduler traces |
| `ConfigPrinter` | the printer of le32 modem configurations |
| `Prelude` | an option type, bytes, powers, sums over sequences, and facts on division |

## How to read the models

**Steps and runs.**  `SleepingMutex.Step` and `Rping.Step` are one atomic action of one actor; a run is
a schedule of actors, and the theorems quantify over every schedule.  The class `Mutex` and two objects
of class `ControlBlock` perform the same actions on fields and buffers updated in place: `View`,
`ClientView` and `ServerView` give their abstract states, the methods that act are proved to be the steps
of those, and `Execute` runs a whole schedule on the objects.

**Loops.**  `ep_copy_data`, the ring, the flat-table scan, the PELT loops, the pairing loop and the
printer are methods with the loops of the source, proved equal to specification functions
(`Gathered`, `Scattered`, `Fifo`, `Grid`, `Limit`, `Merged`, `Text`); the lemmas then state what those
functions promise.

**Where the sources disagree or are silent.**

- `lock_mutex_codeflow:58` says in words that a waiter takes the mutex when nobody waits; the columns at
  steps 3-3 and 5-7 show an exchange of `count` with -1 that wins when the old value was 1.  The model
  follows the columns.
- The last column of `lock_mutex_codeflow:201` shows `count` 1 with a task listed and another one
  holding; line 74 resets `count` to 0 only when nobody is listed, and the column before shows -1.  The
  model follows line 74.
- The notes let only the slow path record an owner, so `owner` may be empty while a fast-path task holds.
- The example of the notes (`lock_mutex_codeflow:124-208`) starts its tasks in the slow path with `count` 1; such a
  state is reachable, and from it the example is a run column by column (`NotesExample`), but for the `count`
  just named.
- `infiniband_rpci_codeflow:1054-1055` asks for indices to be masked; `advance_producer` and
  `advance_consumer` are not quoted, and the model lets them mask the next index.
- The rping notes quote neither the `sem_post` of the completion handler nor the client's waits.  In the
  model every completion but that of a send posts the server's semaphore, and the client waits after each
  send for the state its receive handler sets.
- `RPING_MSG_FMT` is not part of this model: the text of a ping is any function of its number that
  yields no zero byte.  The server's buffer is at least as long as the client's.
- The program comment `sched-pelt.c:65-68` calls the fixed-point step the same as `max*y + 1024`; the
  bounds of `IteratesTrack`, `IteratesWithin` and `LimitNearReal` say how far that is true.
- `check_n_fix_data` tests for an odd count only; `TestIsExact` shows that the test of `fix_data` is the
  exact one, and `EvenCountMissesGaps` what an even count lets through.
- The scan of a flat-table does not always tile.  `TiledExactly` gives the exact condition, for every
  table, on a reference layout computed without insertions: `Place` puts each cell into the first column
  that no earlier cell takes.  That layout must tile (`PlaceTiled`: every row is as long as the spans that
  reach it, and no column span runs into one of them), and no placeholder may be inserted left of a cell
  while a span is still to come on its left.  `CrossingNotTiled` and `SpanAheadNotTiled` are tables with a
  row span, and a column span, to come.
- Rounding off makes every row as wide as the table by its own entries (`FullCoverage`), but a last cell
  that is grown grows in the rows it spans, too: `TableWidthExact` says exactly when a row of the table
  keeps the width, and `GrownSpanSpills` is a table with a row that does not.
- `roundOffTableDefinition` raises an IndexError on an empty row that is to be widened without
  `fill-cells`; `RoundOff` and `Process` say exactly when, `RaisesExactly` in terms of the source.  The
  parser of reStructuredText makes no list without items, so such a row (`EmptyRowRaises`) comes only from
  a node tree that was built by hand.
- A sleeping waiter is served once arrivals stop (`EveryWaiterServed`); while tasks keep arriving it can be
  overtaken on the fast path without bound (`BargingUnbounded`).

## Model

| member | source | states |
|---|---|---|
| `SleepingMutex.Mutex.constructor` | codeflow/kernel/lock_mutex_codeflow:126-134 | A new mutex has count 1, no owner, a free spinlock and an empty wait list |
| `SleepingMutex.Mutex.Lock` | codeflow/kernel/lock_mutex_codeflow:11-29 | The fast path decrements and returns iff the result is not negative, as the step prescribes |
| `SleepingMutex.Mutex.LockCommon` | codeflow/kernel/lock_mutex_codeflow:36-75 | Each action of the slow path, retry loop included, is the specified step of that task and changes nothing else |
| `SleepingMutex.Mutex.Unlock` | codeflow/kernel/lock_mutex_codeflow:82-97 | The owner is cleared first; the increment goes to the slow path iff the previous count was not 0 |
| `SleepingMutex.Mutex.UnlockSlowpath` | codeflow/kernel/lock_mutex_codeflow:104-121 | Count is set to 1, and under the spinlock the first waiter, if any, is made runnable |
| `SleepingMutex.Mutex.Execute` | codeflow/kernel/lock_mutex_codeflow:11-121 | Whatever order the tasks run in, the object ends as the run of steps says and satisfies the invariant |
| `SleepingMutex.StepKeepsSafe` | codeflow/kernel/lock_mutex_codeflow:11-121 | The inductive invariant: any enabled step of any task keeps spinlock, wait list, token, owner and wakeup conditions |
| `SleepingMutex.ReachableSafe` | codeflow/kernel/lock_mutex_codeflow:11-121 | The invariant holds in every state that any number of tasks can reach |
| `SleepingMutex.MutualExclusion` | codeflow/kernel/lock_mutex_codeflow:11-76 | While a task holds the mutex nobody else does, nobody is about to free it, count is not 1, and a recorded owner is the holder |
| `SleepingMutex.FreeOrBeingFreed` | codeflow/kernel/lock_mutex_codeflow:82-121 | With no holder there is no owner, and count is 1 unless exactly one unlocker is between its increment and its store |
| `SleepingMutex.WaitListExact` | codeflow/kernel/lock_mutex_codeflow:52-72 | A task is on the wait list exactly once while it waits and not at all otherwise |
| `SleepingMutex.FirstComeFirstListed` | codeflow/kernel/lock_mutex_codeflow:52-72 | No task overtakes a listed one in the wait list, over any run during which that one stays listed |
| `SleepingMutex.NoLostWakeup` | codeflow/kernel/lock_mutex_codeflow:44-121 | With waiters listed, none about to retry and no wake owed, count is negative, a holder exists, and the next increment takes the slow path |
| `SleepingMutex.WakesFirst` | codeflow/kernel/lock_mutex_codeflow:117-121 | An unlocker's wake leaves the first waiter about to retry and touches no other task |
| `SleepingMutexPaths.TakesFreeMutex` | codeflow/kernel/lock_mutex_codeflow:44-47 | A task that finds count 1 under the spinlock holds the mutex two steps on with count 0, and two steps later is the recorded owner without the spinlock; the wait list is never touched |
| `SleepingMutexPaths.LosesToFastPath` | codeflow/kernel/lock_mutex_codeflow:46-60 | A task whose exchange comes too late has lost to a holder, leaves count at 0, queues last, and leaves count at -1 |
| `SleepingMutexPaths.QueuesOnlyWhenLocked` | codeflow/kernel/lock_mutex_codeflow:44-52 | In every run a task joins the wait list only if, under the spinlock, it saw a count other than 1 |
| `SleepingMutexPaths.EveryCallCounted` | codeflow/kernel/lock_mutex_codeflow:11-29 | Over any run in which nobody stores to count, it goes down by one for each mutex_lock() and up by one for each increment |
| `SleepingMutexPaths.FailedLockSeen` | codeflow/kernel/lock_mutex_codeflow:11-97 | A failed fast-path lock makes the holder find a negative count and unlock on the slow path, unless somebody stores to count first |
| `SleepingMutex.FastUnlock` | codeflow/kernel/lock_mutex_codeflow:72-97 | With nobody listed or on the way to the list, count is 0 while held and the unlock takes the fast path: what the reset of line 74 is for |
| `SleepingMutex.CountFitsInt32` | codeflow/kernel/lock_mutex_codeflow:11-29 | With fewer than 2^31 tasks the counter stays within a 32-bit int in every run |
| `SleepingMutex.DeadlockFree` | codeflow/kernel/lock_mutex_codeflow:36-121 | Unless everything is at rest, some task under way can take a step |
| `SleepingMutex.AcquiresBeforeIdle` | codeflow/kernel/lock_mutex_codeflow:36-76 | A task that entered the slow path does not get out of it without having held the mutex |
| `SleepingMutex.EveryWaiterServed` | codeflow/kernel/lock_mutex_codeflow:36-121 | Without new arrivals every run ends within 23 steps per task, in a free mutex, with each acquiring task having held it |
| `SleepingMutexBarging.BargingUnbounded` | codeflow/kernel/lock_mutex_codeflow:11-121 | With arrivals the last result fails: from a reachable state a listed task can wait while another locks on the fast path m times, for every m |
| `SleepingMutexExample.NotesExample` | codeflow/kernel/lock_mutex_codeflow:124-208 | From a reachable state the steps go through the columns of the example one by one: lock, two tasks queue, unlock, hand-over |
| `ScatterGather.NextBuffer` | codeflow/infiniband_rpci_codeflow:992-1001 | Past the end of a buffer there is another one as long as bytes remain; its region is looked up unless it is empty |
| `ScatterGather.ReadBuffer` | codeflow/infiniband_rpci_codeflow:1003-1014 | A copy out of one buffer extends the payload by the next bytes of the concatenation and stays in the region looked up |
| `ScatterGather.CopyOut` | codeflow/infiniband_rpci_codeflow:986-1018 | One packet is the next n bytes of the concatenated buffers, empty buffers included; the loop ends and never passes the last buffer |
| `ScatterGather.WriteBuffer` | codeflow/infiniband_rpci_codeflow:1415-1418 | A block copy into one buffer is byte-wise scattering of the next bytes of the payload |
| `ScatterGather.CopyIn` | codeflow/infiniband_rpci_codeflow:1405-1420 | The receiver's loop scatters a packet over the buffers from the cursor on |
| `ScatterGather.Dma.FromList` | codeflow/rping_rdma_core_codeflow:606-616 | The cursor starts at the first byte of the list with all bytes left |
| `ScatterGather.CopyInline` | codeflow/rping_rdma_core_codeflow:599-604 | the copying loop ends with the concatenation of all buffers, registered or not |
| `ScatterGather.Dma.Inline` | codeflow/rping_rdma_core_codeflow:599-616 | An inline request holds the concatenation of its buffers |
| `ScatterGather.Dma.CopyFrom` | codeflow/infiniband_rpci_codeflow:985-1018 | The cursor of the request moves by the bytes copied, and resid stays the bytes beyond it |
| `ScatterGather.Dma.FillInline` | codeflow/infiniband_rpci_codeflow:978-983 | The inline branch takes the next bytes of the inline data |
| `ScatterGather.Dma.CopyTo` | codeflow/infiniband_rpci_codeflow:1405-1420 | The receive cursor moves by the payload, and memory is what scattering it there makes it |
| `ScatterGather.PostSend` | codeflow/rping_rdma_core_codeflow:595-616 | Inline or not, the request set up carries the same message |
| `ScatterGather.FillPacket` | codeflow/infiniband_rpci_codeflow:974-1020 | Both branches put the next bytes of the message in the packet and leave the rest to be sent |
| `ScatterGather.SendAll` | codeflow/infiniband_rpci_codeflow:974-1020 | For any packet lengths the packets are the message cut at those lengths, and resid ends at 0 |
| `ScatterGather.ReceiveAll` | codeflow/infiniband_rpci_codeflow:1405-1420 | The packets in order fill the receiver's buffers, which may have room for more, as one write of the whole message would |
| `ScatterGather.Transfer` | codeflow/infiniband_rpci_codeflow:974-1018 | End to end: the receiver's buffers, as long as the message or longer, hold the sender's bytes, and no other byte changes, behind the message or outside the buffers |
| `ScatterGather.GatherAfterScatter` | codeflow/infiniband_rpci_codeflow:1405-1420 | Round trip: gathering disjoint buffers after scattering bytes into any part of them gives those bytes there and the old ones elsewhere |
| `ScatterGather.ScatterFrame` | codeflow/infiniband_rpci_codeflow:1415-1418 | Scattering changes no byte outside the positions written |
| `ScatterGather.PacketsFlatten` | codeflow/infiniband_rpci_codeflow:974-1018 | However a message is cut, the packets in order are the message |
| `RingQueue.OrderBase2` | codeflow/infiniband_rpci_codeflow:881-882 | The least exponent whose power of two is at least n |
| `RingQueue.RoundUpPow2` | codeflow/infiniband_rpci_codeflow:881-884 | Rounding up gives a power of two, at least n and less than 2n |
| `RingQueue.MaskIsRemainder` | codeflow/infiniband_rpci_codeflow:943-943 | The bitwise mask with 2^k - 1 is the remainder modulo 2^k |
| `RingQueue.MaskedAddressInside` | codeflow/infiniband_rpci_codeflow:1054-1055 | Whatever an index holds, its masked address is that of a slot inside the data area |
| `RingQueue.SlotsApart` | codeflow/infiniband_rpci_codeflow:883-886 | Every slot lies inside the data area and no two overlap |
| `RingQueue.WriteAppends` | codeflow/rping_rdma_core_codeflow:594-619 | Writing the producer's slot appends one element and touches no other, across wraparound |
| `RingQueue.SlotHoldsFirst` | codeflow/rping_rdma_core_codeflow:654-655 | The consumer's slot holds the oldest element |
| `RingQueue.AdvanceDrops` | codeflow/rping_rdma_core_codeflow:656-656 | Advancing the consumer drops the oldest element and keeps the others, across wraparound |
| `RingQueue.Queue.constructor` | codeflow/infiniband_rpci_codeflow:877-891 | The ring holds at least the requested elements, exactly slots - 1, slots being a power of two, and starts empty |
| `RingQueue.Queue.Next` | codeflow/infiniband_rpci_codeflow:1054-1055 | The masked next index is the next slot, the first one after the last |
| `RingQueue.Queue.Address` | codeflow/infiniband_rpci_codeflow:943-943 | Mask and shift give the offset of the slot, whose whole stride is inside the data area |
| `RingQueue.Queue.Empty` | codeflow/infiniband_rpci_codeflow:1041-1043 | Equal indices mean exactly that no element is queued |
| `RingQueue.Queue.Post` | codeflow/rping_rdma_core_codeflow:594-619 | A post appends its element and keeps everything else |
| `RingQueue.Queue.AdvanceConsumer` | codeflow/rping_rdma_core_codeflow:656-656 | Advancing the consumer drops the element in its slot, which is the oldest, and keeps the rest |
| `RingQueue.Queue.Poll` | codeflow/rping_rdma_core_codeflow:653-656 | A poll returns the oldest element and leaves the others |
| `RingQueue.Queue.PollUpTo` | codeflow/rping_rdma_core_codeflow:652-657 | The elements polled are the oldest ones, as many as asked for or as there are |
| `RingQueue.Queue.PostAll` | codeflow/rping_rdma_core_codeflow:591-619 | A list of requests is appended in order |
| `RingQueue.FifoConserves` | codeflow/infiniband_rpci_codeflow:1041-1043 | Over any run of the bounded FIFO, what was there and accepted is what was polled and what is left, in order |
| `RingQueue.FifoExact` | codeflow/rping_rdma_core_codeflow:591-657 | In any run a post is accepted exactly if fewer elements were accepted and not yet polled than the queue can hold, and comes last; a poll takes the next ones accepted, up to the number asked for |
| `RingQueue.Apply` | codeflow/rping_rdma_core_codeflow:591-657 | One operation on the ring is one operation on the bounded FIFO of slots - 1 elements |
| `RingQueue.Interleave` | codeflow/rping_rdma_core_codeflow:591-657 | Any interleaving of posts and polls on the ring refines the bounded FIFO |
| `RingQueue.ActKeeps` | codeflow/rping_rdma_core_codeflow:591-657 | Any single action of the producer or the consumer (one byte, one index) keeps: what is written so far is in a free slot, what is read so far is the head of the oldest element, posted is polled and queued |
| `RingQueue.RacingSides` | codeflow/rping_rdma_core_codeflow:591-657 | One producer and one consumer, in any order of single actions: the slot read is never the slot written, no byte lies outside, and elements arrive whole and in order |
| `RingQueue.RacingSidesStart` | codeflow/rping_rdma_core_codeflow:591-657 | However the two sides race, an idle producer can post exactly while fewer than slots - 1 elements are posted and not polled, an idle consumer can poll exactly while any is |
| `Rping.FilledZeroAtEnd` | codeflow/rping_rdma_core_codeflow:302-307 | The only zero of a filled buffer is its last byte, for any text and any size from 1 on |
| `Rping.FilledHoldsPing` | codeflow/rping_rdma_core_codeflow:303-307 | Byte by byte: the text as far as it fits ahead of the last byte, then letter 65 + (start - 65 + k) % 58 at place k behind it, then a zero |
| `Rping.StrLenOfText` | codeflow/rping_rdma_core_codeflow:450-450 | strlen of a buffer that starts with a filled text is the length of that text, whatever follows |
| `Rping.WritesWholeText` | codeflow/rping_rdma_core_codeflow:447-455 | The server's write of strlen + 1 bytes covers the client's whole buffer |
| `Rping.ControlBlock.constructor` | codeflow/rping_rdma_core_codeflow:275-281 | A connected side with its two buffers, empty queues and one receive posted |
| `Rping.ControlBlock.Format` | codeflow/rping_rdma_core_codeflow:303-303 | snprintf writes at most size - 1 characters and a zero behind them, leaves the other bytes alone and returns the full length |
| `Rping.ControlBlock.FillLetters` | codeflow/rping_rdma_core_codeflow:304-305 | The letters from the start letter on, cycling from 122 back to 65, fill the buffer after the text |
| `Rping.ControlBlock.FillStart` | codeflow/rping_rdma_core_codeflow:302-307 | The start buffer holds the text cut to fit, the circling letters behind it and a zero at the end, byte by byte, and the start letter moves on by one |
| `Rping.ControlBlock.TestClient` | codeflow/rping_rdma_core_codeflow:301-311 | Each step of the client's loop, in place, is the client's step of its view |
| `Rping.ControlBlock.TestServer` | codeflow/rping_rdma_core_codeflow:432-460 | Each step of the server's loop, in place, is the server's step of its view |
| `Rping.ControlBlock.HandleEvent` | codeflow/rping_rdma_core_codeflow:343-367 | Taking one completion, in place, is the completion step of the view of either side |
| `Rping.Move` | codeflow/rping_rdma_core_codeflow:301-460 | Any actor's action on the two control blocks is its step of the pair |
| `Rping.Execute` | codeflow/rping_rdma_core_codeflow:301-460 | Two control blocks end a schedule where the run of steps ends, in one of the joint phases |
| `Rping.StepAdvances` | codeflow/rping_rdma_core_codeflow:301-460 | Whichever of the six actors moves, the pair stays in its phase or goes on to the next, buffers included |
| `Rping.RunAdvances` | codeflow/rping_rdma_core_codeflow:301-460 | Every run ends in some phase, and its length is bounded by the phases left |
| `Rping.SomebodyMoves` | codeflow/rping_rdma_core_codeflow:301-460 | Until the last ping is done some actor can move |
| `Rping.PingEcho` | codeflow/rping_rdma_core_codeflow:301-312 | In every run, for any count and size, every ping checked came back equal to what was sent, over all its bytes |
| `Rping.PingCarriesText` | codeflow/rping_rdma_core_codeflow:301-312 | In every run, while ping n is checked, both buffers hold text n cut to fit and the letters from n places after the first start letter on |
| `Rping.CheckIsExact` | codeflow/rping_rdma_core_codeflow:311-311 | A check is passed exactly if all bytes of the two buffers agree, whatever they hold |
| `Rping.Lockstep` | codeflow/rping_rdma_core_codeflow:352-365 | In every state of every run the two sides, their queues and semaphores are in one joint phase |
| `Rping.AllPingsComplete` | codeflow/rping_rdma_core_codeflow:301-460 | A run has at most 52 steps per ping, and one that cannot go on has completed all pings, each unchanged |
| `FlatTable.ListTableBuilder.InsertOwn` | translate/kerneldoc/Documentation/sphinx/rstFlatTable.py:264-266 | The placeholders of a column span follow the cell at once |
| `FlatTable.ListTableBuilder.InsertBelow` | translate/kerneldoc/Documentation/sphinx/rstFlatTable.py:271-277 | The spanned rows get 1 + cspan placeholders at the cell's column; rows past the last are skipped |
| `FlatTable.ListTableBuilder.InsertSpans` | translate/kerneldoc/Documentation/sphinx/rstFlatTable.py:262-277 | One cell widens its own row and the rows it reaches and leaves the rows above alone |
| `FlatTable.ListTableBuilder.ScanRow` | translate/kerneldoc/Documentation/sphinx/rstFlatTable.py:255-278 | The scan of a row that grows under it ends and leaves the row expanded and its spans pushed into the later rows |
| `FlatTable.ListTableBuilder.Scan` | translate/kerneldoc/Documentation/sphinx/rstFlatTable.py:253-279 | The in-place scan computes the grid: row by row, push the spans from above, then expand |
| `FlatTable.ScanStep` | translate/kerneldoc/Documentation/sphinx/rstFlatTable.py:257-278 | A step at a cell keeps the row that the scan will produce and uses up one cell, which is why the scan ends |
| `FlatTable.ListTableBuilder.FindWidth` | translate/kerneldoc/Documentation/sphinx/rstFlatTable.py:284-286 | The width becomes that of the widest row, if that is more |
| `FlatTable.WidestBounds` | translate/kerneldoc/Documentation/sphinx/rstFlatTable.py:284-286 | The width is at least that of every row and is that of one of them, unless it did not grow |
| `FlatTable.ListTableBuilder.FillRow` | translate/kerneldoc/Documentation/sphinx/rstFlatTable.py:302-304 | Filling appends empty cells without spans |
| `FlatTable.ListTableBuilder.WidenRows` | translate/kerneldoc/Documentation/sphinx/rstFlatTable.py:294-304 | Every row is made as wide as the table, or the IndexError of an empty row is raised, exactly then, with the rows before the first such row rounded and the others as they were |
| `FlatTable.ListTableBuilder.RoundOff` | translate/kerneldoc/Documentation/sphinx/rstFlatTable.py:239-304 | The whole rounding off: grid, width, rounded rows, and when it raises |
| `FlatTable.ListTableBuilder.BuildRow` | translate/kerneldoc/Documentation/sphinx/rstFlatTable.py:200-216 | A row node holds the row's cells in order without the placeholders |
| `FlatTable.ListTableBuilder.BuildTable` | translate/kerneldoc/Documentation/sphinx/rstFlatTable.py:187-198 | For any number of header rows, head and body together hold every row once and in order |
| `FlatTable.ListTableBuilder.ParseRowItem` | translate/kerneldoc/Documentation/sphinx/rstFlatTable.py:327-359 | A row parses iff exactly one child is a nested list and all others are comments, messages or targets; cell i of the row has the spans of list cell i and its content behind the row's last target |
| `FlatTable.ListTableBuilder.Process` | translate/kerneldoc/Documentation/sphinx/rstFlatTable.py:226-237 | From parsed rows to the table node: it succeeds exactly on well-formed items whose source does not raise; then the head has the rows asked for, entry i of a row is cell i of its nested list (only the last may have grown, and only unfilled), the width is that of the widest row, and each row has it but for what grown cells push into it |
| `FlatTable.WellFormedExactly` | translate/kerneldoc/Documentation/sphinx/rstFlatTable.py:334-347 | Counting lists and looking for foreign children is the same as: some child is a list and every other one a comment, message or target |
| `FlatTable.SourceParses` | translate/kerneldoc/Documentation/sphinx/rstFlatTable.py:354-359 | The cells of a parsed row, by position, are those of the nested list with the last target in front of each content |
| `FlatTable.RaisesExactly` | translate/kerneldoc/Documentation/sphinx/rstFlatTable.py:284-301 | Rounding off raises iff nothing is filled, some source row has no column of its own or from above, and some row has one |
| `FlatTable.EmptyRowRaises` | translate/kerneldoc/Documentation/sphinx/rstFlatTable.py:294-301 | Two row items, one with an empty list, that parse and raise unless rows are filled |
| `FlatTable.ExactRowLength` | translate/kerneldoc/Documentation/sphinx/rstFlatTable.py:253-279 | After the scan a row has its own cells in order, and its length is its own columns plus those of every cell above that reaches it |
| `FlatTable.OwnBlock` | translate/kerneldoc/Documentation/sphinx/rstFlatTable.py:263-266 | Every cell of a scanned row is followed at once by exactly the placeholders of its column span |
| `FlatTable.LastCellPlain` | translate/kerneldoc/Documentation/sphinx/rstFlatTable.py:263-266 | A scanned row that ends in a cell ends in one without column span |
| `FlatTable.FullCoverage` | translate/kerneldoc/Documentation/sphinx/rstFlatTable.py:294-304 | One row by itself: its entries and the span of its last cell make up exactly the table's width iff it does not end in an untouched cell with a negative span; filling makes the length equal |
| `FlatTable.RoundedWidth` | translate/kerneldoc/Documentation/sphinx/rstFlatTable.py:294-304 | Over the whole table: own columns and those from above are the width plus what grown cells above push into the row, last cells to grow having come without a negative span |
| `FlatTable.TableWidthExact` | translate/kerneldoc/Documentation/sphinx/rstFlatTable.py:294-304 | A row of the rounded table has the table's width iff no row above was widened by a last cell that spans down to it, last cells to grow having come without a negative span |
| `FlatTable.GrownSpanSpills` | translate/kerneldoc/Documentation/sphinx/rstFlatTable.py:298-301 | A concrete table of width 3 whose second row becomes 4 columns wide |
| `FlatTable.RoundedPreserves` | translate/kerneldoc/Documentation/sphinx/rstFlatTable.py:294-304 | Rounding off keeps cells, contents and spans; without filling the last cell may grow or one empty cell follows, with filling only cells without content or spans follow |
| `FlatTable.AllPreserved` | translate/kerneldoc/Documentation/sphinx/rstFlatTable.py:187-216 | The same for all rows of the table as built |
| `FlatTableRows.KeptInsert` | translate/kerneldoc/Documentation/sphinx/rstFlatTable.py:270-277 | A placeholder block put in at its column among what is already there gives the row that is due after it |
| `FlatTableRows.UnsettledFollows` | translate/kerneldoc/Documentation/sphinx/rstFlatTable.py:270-277 | If a row comes out as due, a block made while something to its left was missing follows an earlier block with the same fault |
| `FlatTableRows.RowExact` | translate/kerneldoc/Documentation/sphinx/rstFlatTable.py:257-278 | The scan makes a tiled row from its cells iff each block, when inserted, has everything to its left in place or no cell to its right |
| `FlatTableTiling.RowOfTiled` | translate/kerneldoc/Documentation/sphinx/rstFlatTable.py:253-279 | Each row of a tiled grid is tiled by its own blocks and the spans that reach it |
| `FlatTableTiling.ScanMakes` | translate/kerneldoc/Documentation/sphinx/rstFlatTable.py:253-279 | Any tiling of the source in which nothing is pending is what the scan makes |
| `FlatTableTiling.ScanSettles` | translate/kerneldoc/Documentation/sphinx/rstFlatTable.py:253-279 | If the scan tiles, nothing is pending in what it made |
| `FlatTableTiling.TilingIsPlace` | translate/kerneldoc/Documentation/sphinx/rstFlatTable.py:253-279 | A source has one tiling at most, and it is the first-free-column placement |
| `FlatTableTiling.TiledExactly` | translate/kerneldoc/Documentation/sphinx/rstFlatTable.py:253-279 | For every table: the scan tiles iff the placement computed from the source tiles and has nothing pending, and then the scan makes that placement |
| `FlatTableTiling.PlaceTiled` | translate/kerneldoc/Documentation/sphinx/rstFlatTable.py:253-279 | The placement tiles iff its rows are long enough for the spans from above and no column span runs into one |
| `FlatTableTiling.TiledOneRowSpans` | translate/kerneldoc/Documentation/sphinx/rstFlatTable.py:253-279 | With row spans of at most 1 onto rows without column spans, the scan tiles iff no row of the placement is too short |
| `FlatTableTiling.CrossingNotTiled` | translate/kerneldoc/Documentation/sphinx/rstFlatTable.py:270-277 | A concrete table with a row span to come: the earlier one is moved out of its column and the result is no tiling |
| `FlatTableTiling.SpanAheadNotTiled` | translate/kerneldoc/Documentation/sphinx/rstFlatTable.py:263-277 | A concrete table with a column span to come, left of a placeholder: the result is no tiling |
| `Pelt.ClimbsBelowLimit` | translate/kerneldoc/Documentation/scheduler/sched-pelt.c:63-64 | The step increases m exactly below floor(1023 * 2^32 / (2^32 - y_inv)) + 1 |
| `Pelt.LeastFixedPoint` | translate/kerneldoc/Documentation/scheduler/sched-pelt.c:62-74 | That closed form is the least fixed point of the step |
| `Pelt.IteratesClimb` | translate/kerneldoc/Documentation/scheduler/sched-pelt.c:62-74 | The iterates strictly increase until they are the limit and then stay |
| `Pelt.LimitReached` | translate/kerneldoc/Documentation/scheduler/sched-pelt.c:62-74 | The limit is reached, for every y_inv below 2^32 |
| `Pelt.ProductsFit` | translate/kerneldoc/Documentation/scheduler/sched-pelt.c:60-64 | No product of the iteration overflows a signed 64-bit word iff 2^32 - y_inv is at least 2046 |
| `Pelt.YInv` | translate/kerneldoc/Documentation/scheduler/sched-pelt.c:60-60 | The conversion drops the fraction of (2^32 - 1) * y |
| `Pelt.DecayTracks` | translate/kerneldoc/Documentation/scheduler/sched-pelt.c:63-68 | A fixed-point step is at most the real step m*y + 1024 and, for m up to 2^31, at most 2 below it |
| `Pelt.IteratesTrack` | translate/kerneldoc/Documentation/scheduler/sched-pelt.c:62-68 | While within 2^31 the k-th iterate is at or below the real sequence, by at most 2 * (1 + y + ... + y^(k-1)) |
| `Pelt.IteratesWithin` | translate/kerneldoc/Documentation/scheduler/sched-pelt.c:62-68 | Hence never by more than 2 / (1 - y) |
| `Pelt.LimitNearReal` | translate/kerneldoc/Documentation/scheduler/sched-pelt.c:62-77 | The printed maximum is at or below 1024 / (1 - y) and within 2 / (1 - y) of it |
| `Pelt.SumNext` | translate/kerneldoc/Documentation/scheduler/sched-pelt.c:41-44 | The special first step of the sum table is the general step from 0 |
| `Pelt.YNSumDrift` | translate/kerneldoc/Documentation/scheduler/sched-pelt.c:40-49 | The k-th entry is at or below 1024 * (y + ... + y^k), by less than 1 + y + ... + y^(k-1) |
| `Pelt.GeometricClosed` | translate/kerneldoc/Documentation/scheduler/sched-pelt.c:40-49 | 1 + y + ... + y^k is (1 - y^(k+1)) / (1 - y), the closed form of the drift bounds |
| `Pelt.YNSumClimbs` | translate/kerneldoc/Documentation/scheduler/sched-pelt.c:40-49 | The sum table never decreases |
| `Pelt.TruncatesTowardsZero` | translate/kerneldoc/Documentation/scheduler/sched-pelt.c:86-88 | The division of the table drops the fraction towards zero, for negative numbers too |
| `Pelt.AccumulatedClosed` | translate/kerneldoc/Documentation/scheduler/sched-pelt.c:86-93 | The k-th accumulated value is 2s - 1 - floor((s - 1) / 2^(k-1)) |
| `Pelt.AccumulatedClimbs` | translate/kerneldoc/Documentation/scheduler/sched-pelt.c:86-93 | The values never decrease, stay between s and 2s - 1, and reach 2s - 1 exactly when 2^(k-1) >= s |
| `Pelt.Generator.constructor` | translate/kerneldoc/Documentation/scheduler/sched-pelt.c:33-56 | The globals start at sum 1024, n -1 and max 1024 |
| `Pelt.Generator.NextSum` | translate/kerneldoc/Documentation/scheduler/sched-pelt.c:41-44 | One step of the loop makes sum the next entry |
| `Pelt.Generator.CalcYNSum` | translate/kerneldoc/Documentation/scheduler/sched-pelt.c:35-52 | The table holds 0 and the 32 truncated sums, and sum is left at the last |
| `Pelt.Generator.CalcConvergedMax` | translate/kerneldoc/Documentation/scheduler/sched-pelt.c:58-79 | The loop ends with max the closed form, and n + 1 the index of the first iterate that equals it |
| `Pelt.Generator.Converge` | translate/kerneldoc/Documentation/scheduler/sched-pelt.c:62-75 | The same for every y_inv below 2^32 |
| `Pelt.Generator.NextAccumulated` | translate/kerneldoc/Documentation/scheduler/sched-pelt.c:86-88 | One step of the loop makes x the next entry |
| `Pelt.Generator.CalcAccumulatedSum` | translate/kerneldoc/Documentation/scheduler/sched-pelt.c:81-96 | The table holds 0 and the accumulated values, n / 32 + 1 of them with C's truncating division |
| `TracePairing.GrepInfo` | tool/sched_event_parser/kevent_parser.sh:37-47 | Appending the matches of each trace and sorting gives the merged events of the task |
| `TracePairing.MergedAscends` | tool/sched_event_parser/kevent_parser.sh:37-47 | The merged events are those of the task in all traces, in strictly ascending time |
| `TracePairing.MergedExact` | tool/sched_event_parser/kevent_parser.sh:37-47 | For any traces, even with equal times: the merged events are in order of time and hold each line that names the task as often as the traces do |
| `TracePairing.InIsFollowedByOut` | tool/sched_event_parser/kevent_parser.sh:71-85 | A switching in is followed by the next event of its own CPU, whatever other CPUs record |
| `TracePairing.OutIsFollowedByIn` | tool/sched_event_parser/kevent_parser.sh:71-85 | A switching out is followed by a switching in, on whichever CPU the task runs next |
| `TracePairing.Alternates` | tool/sched_event_parser/kevent_parser.sh:71-85 | The merged events switch the task in and out in turn |
| `TracePairing.RunBetween` | tool/sched_event_parser/kevent_parser.sh:71-85 | From a switching in to the next merged event one CPU runs the task at every moment |
| `TracePairing.GapBetween` | tool/sched_event_parser/kevent_parser.sh:71-85 | From a switching out to the next merged event no CPU runs the task at any moment |
| `TracePairing.PairsRunOrGap` | tool/sched_event_parser/kevent_parser.sh:78-84 | Each pair is a time in which the task runs throughout if its first event switches it in, and one in which it runs nowhere if not |
| `TracePairing.TestIsExact` | tool/sched_event_parser/kevent_parser.sh:116-139 | The pairs are the task's runs, with none left over, iff the first line switches in and the last one out |
| `TracePairing.EveryRunPaired` | tool/sched_event_parser/kevent_parser.sh:71-85 | No run is missed: every run interval of every CPU is one of the pairs |
| `TracePairing.EvenCountMissesGaps` | tool/sched_event_parser/kevent_parser.sh:142-153 | If the first event switches out, every pair is a gap between runs, and the count is even exactly if the last event switches in |
| `TracePairing.GapMeasured` | tool/sched_event_parser/kevent_parser.sh:142-153 | A concrete trace with an even count whose only pair is a gap: one tick is counted, and the task has no complete run at all |
| `TracePairing.UsageConserved` | tool/sched_event_parser/kevent_parser.sh:71-85 | The elapsed times add up to the time of all runs on all CPUs |
| `TracePairing.ElapsedTimes` | tool/sched_event_parser/kevent_parser.sh:78-84 | The k-th value is the k-th pair's difference; a time left over gives its negative |
| `TracePairing.CpuUsage` | tool/sched_event_parser/kevent_parser.sh:71-85 | On any trace: the differences of the merged events two by two and the negative of a time left over; on a recorded trace each is the length of a run or of a gap, as the first event tells; on one that passes the test the k-th is that of the k-th run, and they sum to the total |
| `ConfigPrinter.NumberOfDigits` | translate/kerneldoc/Documentation/networking/cxacru-cf.py:45-45 | Printed digits read back as the number, in any base from 2 to 16 |
| `ConfigPrinter.OnlyDigits` | translate/kerneldoc/Documentation/networking/cxacru-cf.py:45-45 | The digits printed are the only numeral without a leading zero that stands for the number |
| `ConfigPrinter.NoLeadingZero` | translate/kerneldoc/Documentation/networking/cxacru-cf.py:45-45 | No number but 0 is printed with a zero in front |
| `ConfigPrinter.LittleEndian` | translate/kerneldoc/Documentation/networking/cxacru-cf.py:45-45 | The bytes of a word, from the last to the first, are its digits to the base 256 |
| `ConfigPrinter.PackUnpack` | translate/kerneldoc/Documentation/networking/cxacru-cf.py:45-45 | Packing undoes the little-endian unpacking |
| `ConfigPrinter.PackWords` | translate/kerneldoc/Documentation/networking/cxacru-cf.py:33-46 | The words of an input give back its bytes up to the last whole word |
| `ConfigPrinter.WholeIsPrefix` | translate/kerneldoc/Documentation/networking/cxacru-cf.py:34-41 | What the words leave off is a rest of length modulo 4 |
| `ConfigPrinter.Print` | translate/kerneldoc/Documentation/networking/cxacru-cf.py:32-48 | The text is that of the whole words; error and exit code 1 exactly if the length is no multiple of 4 |
| `ConfigPrinter.RoundTrip` | translate/kerneldoc/Documentation/networking/cxacru-cf.py:43-46 | The decoder gives back the words of a line, for any number of them |
| `ConfigPrinter.OnlyLine` | translate/kerneldoc/Documentation/networking/cxacru-cf.py:43-46 | The line printed for some words is the only text that decodes to them |
| `ConfigPrinter.OnlyText` | translate/kerneldoc/Documentation/networking/cxacru-cf.py:32-48 | The text printed for an input is the only one that decodes to its words |
| `ConfigPrinter.PrintsExample` | translate/kerneldoc/Documentation/networking/cxacru-cf.py:38-45 | Concrete texts: decimal values from the first byte up, hexadecimal indices, and the wording of the complaint |
| `ConfigPrinter.DecodesInput` | translate/kerneldoc/Documentation/networking/cxacru-cf.py:32-48 | From the text alone the input's whole words are recovered byte for byte |
| `ConfigPrinter.Unambiguous` | translate/kerneldoc/Documentation/networking/cxacru-cf.py:32-48 | Two inputs print the same text iff they agree up to their last whole word; for multiples of 4, iff they are equal |

## Left out

- Mutex: lockdep and debug hooks, optimistic spinning, the signal exit, and the exchange and no-op variants of the fast path.
- RDMA: address and route resolution, the ioctl plumbing, packet headers, checksums, retransmission, and the responder states the notes mark as open; a packet is its payload.
- Look-ups of memory regions that fail: the copy engine is called on buffers that lie in registered regions, empty ones excepted.
- The 32-bit width of lengths and addresses in the copy engine and of sizes in the ring; the notes state no check on them.
- rping: losses and errors of the network, and the server threads for several clients; a side is connected before the run starts.
- Flat-table: the width list of docutils, the node classes, error texts and the parsing of a cell; a cell is its spans and content.
- PELT: the table of inverse powers, the rounding of floating-point `pow` and products (`y` is a real number), and the printed layout.
- Pelt.Generator.CalcConvergedMax: works on unbounded integers; `ProductsFit` gives the exact range of y_inv in which the program's 64-bit products do not overflow.
- Trace accounting: cutting fields out of lines, pattern matching by grep, and the rewriting of files; an event is a record and names the task exactly.
- Configuration printer: reading from a terminal; the input is a finite sequence of bytes.
- The other programs and notes of the repository: input and output, library wrappers, configuration and demonstrations.
