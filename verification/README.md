# Operating-systems lab programs: protocols and concurrent algorithms

This project models the programs of an operating-systems course that contain a protocol or a concurrent algorithm, and proves
what each of them is for. The hard-coded sizes are parameters: the number of slots, clients, threads, philosophers, buffer
cells, players, chunks, bytes and iterations is arbitrary. Three small constants are kept as they are: 11 bins, 37 roulette
numbers and frames of at most 200 bytes.

How a concurrent program is modelled:

- A `State` holds the shared variables and the program counter of every thread or process. A `Step` is one atomic action:
  one read or write of a shared variable that is not protected, one semaphore or mutex operation, one message, one `read` or
  `write` of a pipe. Assignments to variables that are protected by a mutex are steps of their own wherever another thread could
  see the difference. Timeouts, losses, random draws, spurious wake-ups and the scheduler are free choices of the action.
- A run is a path of steps from the initial state, and `Reachable` is the set of states of all runs. Invariants are proved for
  one step, then for all runs; the guarantees follow under "the guarantees" in each module.
- Progress of the synchronisation, ring-buffer, reversal, roulette, chunk and board programs is stated as "some thread can take a
  step". Where runs are finite there is also a bound on the length of every run and, from every reachable state, a path to the
  end: readers and writers, philosophers, both ring buffers, chunk dispatch. Handlers and readers of the message queue come to
  rest in a bounded number of steps, a client of the transfer can always still be served, main can see all balls thrown, and a reversal request for more than one cell can be carried to its end. Roulette and
  Peterson's spinning threads can run for ever.
- A class (`Server`, `Program`, `Queue`, `Reader`, `Parent`, `Dispatch`, `Lists`) holds the same state in fields and arrays and
  makes each atomic step in place, with the branches and assignments of the C code. In the concurrent programs `Valid` says that
  the object is in a state of a run; each method is called only when its step is possible, makes exactly that step, and ensures
  `Valid` and the guarantees of the module (`Safe`) of the object's own fields. In `Server` and `Lists` it is the meaning of
  the representation. Sequential code is a method with the loop of the source, proved against a function.

| file | program |
|---|---|
| `UdpParts`, `UdpServer`, `UdpClient`, `UdpTransfer` | stop-and-wait file transfer over UDP |
| `NotifyThreads`, `NotifySignal` | message-queue notification by threads and by a signal |
| `Peterson`, `ReadersWriters`, `Philosophers` | synchronisation algorithms |
| `BoundedQueue`, `CvBuffer`, `SemBuffer` | the abstract FIFO, and the ring buffers that refine it |
| `Reversal` | segment reversal under per-cell mutexes, with printing threads |
| `Roulette` | croupier and players over pipes |
| `ChunkDispatch`, `ChunkLists` | dynamic chunk dispatch, and its heap lists |
| `BallsAndBins` | accounting with a mutex for each counter |
| `BoardGame` | shared board under a robust mutex with dying owners |
| `Framing` | length-prefixed frames from many writers in one pipe |
| `Octets`, `Arithmetic` | bytes; products and quotients |
| `Counting` | how many elements of a sequence satisfy a predicate, and sums over a sequence |

The properties that are false of the code are stated with the exact condition: delivery over UDP is not exactly once
(`UdpTransfer.RepeatedDelivery`), the handler of `Bingo.c` can strand a message (`NotifyThreads.OrderMatters`), the signal
reader can leave messages behind exactly if it is asleep with a message in the queue (`NotifySignal.LeavesIffAsleep`), a client
can give up although its file was delivered (`UdpTransfer.FinishesIffAnswered`, `UdpTransfer.CanGiveUpDelivered`), the philosophers can get stuck
(`Philosophers.StuckIffAllHoldLeft`), trailing zero bytes of a file are not recovered (`UdpParts.Reassembly`), and a
reversal request can be carried to its end exactly if it is for more than one cell (`Reversal.EndsIffMoreThanOneCell`).

Where the code and its own words disagree, the model follows the code: the header comments of the two notification programs name
each other's variant (`08_async_notification_signal.c` says "thread", `09_async_notification_thread.c` says "signal"), and the usage
text of the board server says 3 < N <= 30 while the code accepts 3 to 99.

## Model

| member | source | states |
|---|---|---|
| UdpServer.Server.FindIndex | Lab - 8/2_server.c:42-63 | finds the slot of an address, or seats the address with counter 0 in the last free slot; -1 exactly when the address is unknown and no slot is free; no other address is affected |
| UdpServer.TableSize | Lab - 8/2_server.c:42-63 | distinct addresses occupy distinct slots, so the table is full exactly when it holds as many counters as slots |
| UdpServer.Server.Advance | Lab - 8/2_server.c:87-94 | counting a part raises one counter by one, and the last part removes that counter; no other counter changes |
| UdpServer.Server.Accept | Lab - 8/2_server.c:79-103 | one datagram, by the in-place table: delivered exactly if the address can be served and the part is the next one, echoed exactly if it is the next or an earlier one, the counter counting deliveries until the last part; nothing else changes |
| UdpServer.ReceiveServes | Lab - 8/2_server.c:79-103 | the map of counters follows the rules just named, on every table and datagram |
| UdpServer.Server.DoServer | Lab - 8/2_server.c:75-104 | for any sequence of datagrams from any clients, what is delivered and echoed, in order, is what the map of counters gives, datagram by datagram under the rules of ReceiveServes |
| UdpServer.ReceiveIsLocal | Lab - 8/2_server.c:79-103 | a datagram of one address never creates, changes or removes the counter of another |
| UdpClient.File.BulkRead | Lab - 8/common.h:146-162 | for every schedule of short reads: all that was asked for or all that is left of the file, in order, nothing else in the buffer touched; or the read failure |
| UdpClient.DoClient | Lab - 8/2_client.c:37-67 | whatever the reads and the network return, all that is sent and received is parts 1, 2, ... of the file, each sent until a datagram with its number arrives, at most `limit` + 1 times; finished means all parts confirmed, given up means the last one sent `limit` + 1 times in vain; or a read failed |
| UdpClient.ReplayIffExplained | Lab - 8/2_client.c:46-66 | over the events alone: they are a run to a given state of the client if and only if every earlier part has at most `limit` failed tries and then a confirmation, and the present one has failed at most `limit` times (going on), exactly `limit` + 1 times (given up), or is the final one and confirmed (finished) |
| UdpClient.GivenUpTail | Lab - 8/2_client.c:59-65 | behind a give-up are `limit` + 1 sends of one part, each followed by the timer or another number |
| UdpClient.PreparePart | Lab - 8/2_client.c:48-56 | reading and filling up part k gives exactly that part, flagged last exactly if the read was short |
| UdpClient.Link.SendAndConfirm | Lab - 8/2_client.c:19-35 | one datagram out, then any one datagram in, or none before the timer |
| UdpClient.Confirm | Lab - 8/2_client.c:57-65 | the inner loop, as a run of the client: confirmed means the client is finished or at its next part, otherwise it has given up; what that says of the events is ReplayIffExplained |
| UdpParts.FullParts | Lab - 8/2_client.c:46-66 | there is a part behind part k exactly when the file has bytes for k full parts, so a file of a multiple of the size still ends with an empty part |
| UdpParts.PiecesIsQuotient | Lab - 8/2_client.c:46-66 | so the number of parts is floor(L/size) + 1 |
| UdpParts.PartBounds | Lab - 8/2_client.c:46-66 | the extents of the parts follow each other in the file, and only the final part is shorter than the payload |
| UdpParts.JoinedParts | Lab - 8/2_client.c:46-66 | the payloads of the first k parts are the first k payloads of the file, padded with zeros only when the file is shorter |
| UdpParts.AllParts | Lab - 8/2_client.c:46-66 | the payloads of all parts are the file followed by one to `size` zeros |
| UdpParts.AllTogether | Lab - 8/2_client.c:46-66 | the parts of a file are numbered from 1 without gap, exactly the final one is flagged last, and together they are the file and up to `size` zeros |
| UdpParts.Reassembly | Lab - 8/2_client.c:51-55 | dropping trailing zeros gives the file back if and only if the file does not end in a zero byte |
| UdpParts.OnlyFinalPartIsLast | Lab - 8/2_client.c:51-56 | a part is flagged last exactly when the file ends inside it; all payloads have full size |
| UdpTransfer.StepInv | Lab - 8/2_server.c:79-103 | every step of any client, the server or the network, which may lose, duplicate and reorder, keeps all clients in step with the server and the network free of parts never sent |
| UdpTransfer.RunInv | Lab - 8/2_client.c:46-66 | so it holds at the end of every run |
| UdpTransfer.LockStep | Lab - 8/2_client.c:46-66 | until the server first accepts a client's last part, its counter is chunkNo - 1 or chunkNo, and exactly the parts up to it have been delivered, once each and in order |
| UdpTransfer.Tenancies | Lab - 8/2_server.c:79-95 | in every tenancy of a slot, late ones included, the parts delivered are 1, 2, 3, ... without gap or repeat, and a tenancy ends only with the whole file |
| UdpTransfer.ServerElsewhere | Lab - 8/2_server.c:79-103 | a datagram of one client changes neither slot, counter nor deliveries of another |
| UdpTransfer.NextPartTaken | Lab - 8/2_server.c:85-96 | of a client that has or can get a slot, the next part is delivered and echoed; the last one closes the tenancy |
| UdpTransfer.OldPartEchoed | Lab - 8/2_server.c:83-96 | a part delivered before is echoed again and not delivered again |
| UdpTransfer.FuturePartDropped | Lab - 8/2_server.c:79-84 | a part beyond the next one is neither, but its client has a slot from then on |
| UdpTransfer.CanAlwaysFinish | Lab - 8/2_client.c:46-66 | from every reachable state, whatever was lost or delayed before: as long as its file was not delivered, a client that may still send, and for which there is a slot, can still be served to the end |
| UdpTransfer.NoRoomIgnored | Lab - 8/2_server.c:79 | a datagram for which there is no slot changes nothing |
| UdpTransfer.EndToEnd | Lab - 8/2_client.c:59-66 | a client that ends without giving up has had all its parts (floor(L/size) + 1, by PiecesIsQuotient) delivered, numbered in order, only the final one flagged last, joined payloads equal to the file and up to `size` zeros |
| UdpTransfer.RepeatedDelivery | Lab - 8/2_server.c:87-91 | an accepted part is a repeat if and only if the server has already freed a slot of that client after a last part |
| UdpTransfer.CanFinish | Lab - 8/2_client.c:37-67 | for every file there is a run in which its client finishes |
| UdpTransfer.CanRepeat | Lab - 8/2_server.c:87-91 | for every file there is a run in which late copies deliver the whole file a second time |
| UdpTransfer.LateLastPart | Lab - 8/2_server.c:83-96 | when the last part of a file of several parts was delivered and no echo of it is on the way: along every schedule that brings the server no earlier part again, and whatever other clients do, no echo ever appears, nothing more is delivered, a slot once taken keeps counter 0, and the client never finishes |
| UdpTransfer.FinishesIffAnswered | Lab - 8/2_client.c:59-66 | a client waiting for the echo of its last part, of which the server has forgotten it, can still finish without earlier parts being delivered again if and only if an echo is on the way or the file has one part |
| UdpTransfer.EchoLost | Lab - 8/2_server.c:87-96 | for every file there is a run to that state with the file delivered, the echo lost and the client waiting |
| UdpTransfer.CanGiveUpDelivered | Lab - 8/2_client.c:64-65 | for every file and every limit there is a run in which the client gives up although its file was delivered in full |
| NotifyThreads.NoStrandedMessage | Lecture Codes/02_mqueue/09_async_notification_thread.c:28-60 | with any number of handler threads: registrations and handlers still to register are together exactly one, mq_notify never meets a registration, received then queued messages are the sent ones in order, and a non-empty queue has a handler that has still to see it empty |
| NotifyThreads.StartedOnEdge | Lecture Codes/02_mqueue/09_async_notification_thread.c:35-43 | a handler is started exactly when a message comes to an empty queue with a registration, which it uses up |
| NotifyThreads.WorkDone | Lecture Codes/02_mqueue/09_async_notification_thread.c:40-58 | along any schedule of handlers, each step uses up one unit of a measure and keeps the invariant |
| NotifyThreads.EverythingIsReceived | Lecture Codes/02_mqueue/09_async_notification_thread.c:28-60 | every schedule of handlers can be continued until all messages are received and the next one will be announced, and no longer |
| NotifyThreads.OrderMatters | Lab - 6/Tutorial/Bingo.c:30-59 | a message can be stranded if and only if handlers empty the queue before they register, as Bingo.c does |
| NotifyThreads.Queue.Put | Lecture Codes/02_mqueue/09_async_notification_thread.c:112-115 | sending in place is the Send step of a run: a notification exactly on the step from empty to non-empty with a registration in place; afterwards no clash, nothing lost, and a handler for a non-empty queue |
| NotifyThreads.Queue.Handle | Lecture Codes/02_mqueue/09_async_notification_thread.c:40-58 | one statement of thread_routine in place is the Run step of a run, with the same guarantee afterwards |
| NotifySignal.NoStrandedMessage | Lecture Codes/02_mqueue/08_async_notification_signal.c:103-138 | registered, pending and woken-but-not-registered are together exactly one; a non-empty queue has a pending signal or a reader still draining |
| NotifySignal.SignalledOnEdge | Lecture Codes/02_mqueue/08_async_notification_signal.c:66-73 | SIGUSR1 becomes pending exactly when a message comes to an empty queue with a registration, which it uses up |
| NotifySignal.EverythingIsReceived | Lecture Codes/02_mqueue/08_async_notification_signal.c:112-138 | left to itself the reader sleeps after finitely many steps, everything sent received and the next message announced |
| NotifySignal.LeftAtExit | Lecture Codes/02_mqueue/08_async_notification_signal.c:112-114 | SIGINT makes the reader leave with whatever is in the queue, which can be something only while SIGUSR1 is pending too |
| NotifySignal.LeavesIffAsleep | Lecture Codes/02_mqueue/08_async_notification_signal.c:97-138 | from the moment the sender is silent, as when it sends SIGINT, some schedule leaves messages behind if and only if the reader is asleep with a message in the queue |
| NotifySignal.CanLeaveMessages | Lecture Codes/02_mqueue/08_async_notification_signal.c:112-114 | and there is such a run |
| NotifySignal.Reader.WakeUp | Lecture Codes/02_mqueue/08_async_notification_signal.c:112-114 | sigsuspend and the exit test in place are the Wake step of a run; leaving without SIGUSR1 pending means everything was received |
| NotifySignal.Reader.Put | Lecture Codes/02_mqueue/08_async_notification_signal.c:89 | sending in place is the Send step of a run: the signal becomes pending exactly on the step from empty to non-empty with a registration in place |
| NotifySignal.Reader.Stop | Lecture Codes/02_mqueue/08_async_notification_signal.c:97 | SIGINT in place is the Interrupt step of a run |
| NotifySignal.Reader.RegisterAndDrain | Lecture Codes/02_mqueue/08_async_notification_signal.c:116-136 | registering and draining in place, as steps of a run, ends asleep, registered, with an empty queue and all messages received |
| Peterson.StepInv | Lecture Codes/03_synchro/03_peterson_atomic.c:13-46 | every single read or write keeps the flags, the turn and the counter consistent with where the threads are |
| Peterson.MutualExclusion | Lecture Codes/03_synchro/03_peterson_atomic.c:13-22 | the threads are never both between lock and unlock |
| Peterson.NeverStuck | Lecture Codes/03_synchro/03_peterson_atomic.c:17 | the threads are never both spinning in vain, and a spinning thread's partner has steps to go |
| Peterson.CounterReturns | Lecture Codes/03_synchro/03_peterson_atomic.c:24-46 | with a split load and store of the counter it is back at 0 at the end, for any iteration count |
| Peterson.BoundedWait | Lecture Codes/03_synchro/03_peterson_atomic.c:13-18 | along any schedule from any invariant state, while a thread waits the other enters at most as often, and takes at most as many unblocked steps, as its place allows |
| Peterson.BoundedOvertaking | Lecture Codes/03_synchro/03_peterson_atomic.c:13-18 | after a thread has written turn it is overtaken at most once, and the other takes at most seven steps before it is blocked itself |
| Peterson.EntersInTwo | Lecture Codes/03_synchro/03_peterson_atomic.c:17 | then two steps of its own let the waiting thread in |
| Peterson.Program.Run | Lecture Codes/03_synchro/03_peterson_atomic.c:13-46 | one statement on flag, turn or counter in place, by a thread with rounds to go, is a step of a run; afterwards never both inside, never both spinning, and the counter 0 when both are done |
| ReadersWriters.Exclusion | Lecture Codes/03_synchro/09_reades_writers.c:17-52 | a writer in its section excludes all other writers and all readers |
| ReadersWriters.RwMtxHeldOnce | Lecture Codes/03_synchro/09_reades_writers.c:30-52 | rw_mtx is free, held by one writer, or held by the group of readers; readers_count is the number of registered readers |
| ReadersWriters.ReadersShare | Lecture Codes/03_synchro/09_reades_writers.c:35-42 | any number of readers can be reading at once |
| ReadersWriters.NoDeadlock | Lecture Codes/03_synchro/09_reades_writers.c:17-52 | as long as some thread has rounds to go some thread can take a step |
| ReadersWriters.AllWritesCount | Lecture Codes/03_synchro/09_reades_writers.c:17-25 | at the end the counter is the number of all writes, and both semaphores are free |
| ReadersWriters.EveryStepCounts | Lecture Codes/03_synchro/09_reades_writers.c:17-52 | every step increases the amount of work done |
| ReadersWriters.StepsBounded | Lecture Codes/03_synchro/09_reades_writers.c:17-52 | the work of each thread is bounded |
| ReadersWriters.RunsAreFinite | Lecture Codes/03_synchro/09_reades_writers.c:17-52 | no run has more than 4 steps for each round of each writer and 8 for each of each reader |
| ReadersWriters.RunsFinish | Lecture Codes/03_synchro/09_reades_writers.c:17-52 | from every reachable state the end of all rounds is reachable |
| ReadersWriters.Program.WriterStep | Lecture Codes/03_synchro/09_reades_writers.c:17-25 | a writer's statement in place, when its semaphore lets it, is a step of a run; afterwards a writing writer is alone, the semaphores are 0 or 1, and a finished program has counted all writes |
| ReadersWriters.Program.ReaderStep | Lecture Codes/03_synchro/09_reades_writers.c:35-48 | a reader's statement in place, when its semaphores let it, is a step of a run, with the same guarantee afterwards |
| Philosophers.NeighboursNeverEatTogether | Lecture Codes/03_synchro/16_dining_philosophers.c:17-38 | for any number of philosophers from 2 on, neighbours never eat together |
| Philosophers.StuckIffAllHoldLeft | Lecture Codes/03_synchro/16_dining_philosophers.c:17-51 | a reachable unfinished state has no step if and only if every philosopher holds the left chopstick and waits for the right one |
| Philosophers.FirstTookReachable | Lecture Codes/03_synchro/16_dining_philosophers.c:20-22 | the state in which the first k philosophers hold their left chopsticks is reachable |
| Philosophers.CanGetStuck | Lecture Codes/03_synchro/16_dining_philosophers.c:20-22 | so a stuck state is reachable for every number of philosophers |
| Philosophers.EveryStepCounts | Lecture Codes/03_synchro/16_dining_philosophers.c:20-35 | every step adds one to the steps taken |
| Philosophers.StepsBounded | Lecture Codes/03_synchro/16_dining_philosophers.c:20-35 | each philosopher takes at most 4 steps a round |
| Philosophers.RunsAreFinite | Lecture Codes/03_synchro/16_dining_philosophers.c:17-51 | no run has more than 4 steps for each round of each philosopher |
| Philosophers.StopsIffFinishedOrStuck | Lecture Codes/03_synchro/16_dining_philosophers.c:17-51 | a reachable state has no step if and only if all rounds are done or everybody holds the left chopstick |
| Philosophers.RunsEnd | Lecture Codes/03_synchro/16_dining_philosophers.c:17-51 | from every reachable state one of these two ends is reachable |
| Philosophers.CanFinish | Lecture Codes/03_synchro/16_dining_philosophers.c:17-38 | some run finishes all rounds |
| Philosophers.Program.Run | Lecture Codes/03_synchro/16_dining_philosophers.c:20-51 | a wait or post in place, when the chopstick is there, is a step of a run; afterwards no neighbours eat together and every chopstick is 0 or 1 |
| BoundedQueue.QueueKeepsOrder | Lecture Codes/03_synchro/15_cv.c:28-63 | the abstract queue neither loses, repeats nor reorders items, and never exceeds its capacity |
| BoundedQueue.QueueRunsKeepOrder | Lecture Codes/03_synchro/15_cv.c:28-63 | so along every run of the queue from the empty one, what was taken and what waits are 0, 1, 2, ... in order |
| BoundedQueue.CellIsRemainder | Lecture Codes/03_synchro/15_cv.c:39 | the cell of position k is k modulo the size of the ring |
| BoundedQueue.NextCell | Lecture Codes/03_synchro/15_cv.c:39 | adding 1 modulo the size goes to the cell of the next position |
| BoundedQueue.OwnCell | Lecture Codes/03_synchro/08_bounded_buffer.c:29-30 | positions less than the size apart share no cell |
| BoundedQueue.PutInRing | Lecture Codes/03_synchro/08_bounded_buffer.c:28-30 | writing the free cell at `in` is a Put of the abstract queue and leaves all waiting items as they are |
| BoundedQueue.TakeFromRing | Lecture Codes/03_synchro/08_bounded_buffer.c:46-47 | reading the cell at `out` gives the oldest item and is a Take of the abstract queue |
| CvBuffer.StepRefines | Lecture Codes/03_synchro/15_cv.c:28-63 | every step, spurious wake-ups included, keeps the invariant and is a step of the abstract queue or none |
| CvBuffer.RunsAreQueueRuns | Lecture Codes/03_synchro/15_cv.c:28-63 | every run, state by state, is a run of the abstract queue from the empty one: each step adds the next item at the back, takes the oldest, or leaves it as it is |
| CvBuffer.NoLostWakeUp | Lecture Codes/03_synchro/15_cv.c:34-35 | with the mutex free, an unsignalled waiting producer faces a full buffer and an unsignalled waiting consumer an empty one |
| CvBuffer.PositionsAddUp | Lecture Codes/03_synchro/15_cv.c:37-40 | with the mutex free, in = (out + size) mod capacity |
| CvBuffer.NoDeadlock | Lecture Codes/03_synchro/15_cv.c:28-63 | until both loops are over one of the threads can go on without a spurious wake-up |
| CvBuffer.AllConsumed | Lecture Codes/03_synchro/15_cv.c:48-63 | at the end every item was consumed once, in order, and the buffer is empty |
| CvBuffer.RunsEnd | Lecture Codes/03_synchro/15_cv.c:28-63 | each step of a thread uses up part of a bound that a spurious wake-up raises by 2 |
| CvBuffer.RunsAreFinite | Lecture Codes/03_synchro/15_cv.c:28-63 | a run has at most 20 steps an iteration, 20 more, and 3 for each spurious wake-up |
| CvBuffer.RunsFinish | Lecture Codes/03_synchro/15_cv.c:28-63 | from every reachable state, without a spurious wake-up, both loops can be brought to their end |
| CvBuffer.Program.ProducerStep | Lecture Codes/03_synchro/15_cv.c:33-44 | the producer's statement in place, when it is not blocked, is a step of a run and a step of the abstract queue or none; afterwards the queue is ordered and, when both loops are over, all items were taken in order |
| CvBuffer.Program.ConsumerStep | Lecture Codes/03_synchro/15_cv.c:50-61 | the consumer's statement in place, likewise |
| SemBuffer.StepRefines | Lecture Codes/03_synchro/08_bounded_buffer.c:21-58 | every step keeps the invariant and is a step of the same abstract queue or none |
| SemBuffer.RunsAreQueueRuns | Lecture Codes/03_synchro/12_sem_in_shm.c:26-55 | every run, state by state, is a run of the same abstract queue from the empty one, between two threads or two processes |
| SemBuffer.Conservation | Lecture Codes/03_synchro/08_bounded_buffer.c:24-55 | empty + nonempty + units in hand is the capacity, the critical sections exclude each other, and "item corruption!" is never printed |
| SemBuffer.NoOverwrite | Lecture Codes/03_synchro/08_bounded_buffer.c:28-30 | the cell about to be written is the cell of no unread item |
| SemBuffer.NoDeadlock | Lecture Codes/03_synchro/08_bounded_buffer.c:21-58 | until both loops are over one of the threads can take a step |
| SemBuffer.AllConsumed | Lecture Codes/03_synchro/08_bounded_buffer.c:39-58 | at the end every item was consumed once, in order, and both semaphores are as at the start |
| SemBuffer.RunsEnd | Lecture Codes/03_synchro/08_bounded_buffer.c:21-58 | every step uses up one unit of a bound that never becomes negative |
| SemBuffer.RunsAreFinite | Lecture Codes/03_synchro/08_bounded_buffer.c:21-58 | the steps of a run and the steps that are left are together 12 for each iteration, so no run is longer |
| SemBuffer.RunsFinish | Lecture Codes/03_synchro/08_bounded_buffer.c:21-58 | from every reachable state both loops can be brought to their end |
| SemBuffer.Program.ProducerStep | Lecture Codes/03_synchro/08_bounded_buffer.c:24-34 | the producer's statement in place, when it is not blocked, is a step of a run and a step of the abstract queue or none; afterwards the queue is ordered and, when both loops are over, all items were taken in order |
| SemBuffer.Program.ConsumerStep | Lecture Codes/03_synchro/08_bounded_buffer.c:42-55 | the consumer's statement in place, likewise |
| Reversal.ReverseInPlace | Lab - 3/Lab/sop-ca.c:115-130 | the swap loop alone reverses exactly the segment a..b of the array, in place |
| Reversal.PartlyNext | Lab - 3/Lab/sop-ca.c:119-125 | one swap and moving a and b on extend the reversed part by one cell at each end |
| Reversal.ReversedTwice | Lab - 3/Lab/sop-ca.c:115-130 | reversing the same segment again gives the array back |
| Reversal.RequestReverses | Lab - 3/Lab/sop-ca.c:104-134 | between requests the array is the one the last request met with its segment reversed |
| Reversal.RequestDone | Lab - 3/Lab/sop-ca.c:108-134 | along any path after a request for a and b, in any interleaving with printing threads and without a new request: when it is over, the cells a..b of the array that the request met are reversed and the others are as they were |
| Reversal.PrintsSnapshot | Lab - 3/Lab/sop-ca.c:84-102 | what a thread prints is the array as it is at a moment between two swaps, a permutation of 0..n-1 |
| Reversal.PrintIsWhole | Lab - 3/Lab/sop-ca.c:91-99 | the finished print is the whole array at one moment between two swaps |
| Reversal.ArrayStandsStill | Lab - 3/Lab/sop-ca.c:87-99 | nothing changes the array while a thread prints it |
| Reversal.Unblocked | Lab - 3/Lab/sop-ca.c:87-99 | whoever owns mutex x, some owner of x or of a later mutex can take a step |
| Reversal.NoDeadlock | Lab - 3/Lab/sop-ca.c:84-134 | between requests, or in a request for a < b, as long as main or a printing thread is under way one of them can take a step |
| Reversal.RequestEnds | Lab - 3/Lab/sop-ca.c:115-130 | a request for a < b can be carried to its end from every reachable state of it, whatever the printing threads have locked |
| Reversal.EverythingEnds | Lab - 3/Lab/sop-ca.c:84-134 | and so can all printing threads: from every reachable state of it a path leads to the end of the request and of every print, each a permutation of 0..n-1 |
| Reversal.EndsIffMoreThanOneCell | Lab - 3/Lab/sop-ca.c:111-130 | a request a <= b can be carried to its end if and only if a < b |
| Reversal.OneCellNeverEnds | Lab - 3/Lab/sop-ca.c:117-118 | no path from a state of a request with a == b, in any interleaving, ends it |
| Reversal.SelfLockedOnlyForOneCell | Lab - 3/Lab/sop-ca.c:117-118 | main waits for a mutex of its own only in a request for one cell |
| Reversal.CanLockItselfOut | Lab - 3/Lab/sop-ca.c:117-118 | and that happens, for every cell of every array |
| Reversal.SelfLockStays | Lab - 3/Lab/sop-ca.c:117-118 | main then never moves again, whatever the printing threads do |
| Reversal.Program.RunMain | Lab - 3/Lab/sop-ca.c:115-130 | a statement of the request loop in place, when its mutex is free, is a step of a run; afterwards, if the request is over, the array is its base with the segment reversed |
| Reversal.Program.Start | Lab - 3/Lab/sop-ca.c:108-115 | a request for a and b begins, as a step of a run, and remembers a, b and the array it meets |
| Reversal.Program.StartPrinter | Lab - 3/Lab/sop-ca.c:135-145 | a printing thread begins, as a step of a run |
| Reversal.Program.LockOn | Lab - 3/Lab/sop-ca.c:87-90 | a step of a printing thread's locking loop in place is a step of a run |
| Reversal.Program.PrintOn | Lab - 3/Lab/sop-ca.c:91-94 | a step of its printing loop, likewise; finished prints are permutations of 0..n-1 |
| Reversal.Program.UnlockOn | Lab - 3/Lab/sop-ca.c:96-99 | a step of its unlocking loop, likewise |
| Roulette.PlayersInStep | Lab - 5/Example Tasks/example.c:60-164 | a player's k-th number is the k-th draw, the integers read are paired into exactly the bets made, money is positive when a player decides and never negative, and the croupier never meets half a bet nor writes to a player that has left |
| Roulette.MoneyIsBalance | Lab - 5/Example Tasks/example.c:86-100 | a player's money is what it came with plus 35 times each amount bet on the number that came up minus each other amount, never negative, and 0 only for a player that is gone |
| Roulette.BetStands | Lab - 5/Example Tasks/example.c:75-81 | a bet goes to the croupier, amount then number, and on record, as the player chose it |
| Roulette.WhyGone | Lab - 5/Example Tasks/example.c:69-100 | a player goes only by its own decision or without money |
| Roulette.StopsWhenAllLeft | Lab - 5/Example Tasks/example.c:104-164 | after a round of reading, the croupier stops, with every bet collected, if all players have left, and otherwise can draw any number and do nothing else |
| Roulette.NoDeadlock | Lab - 5/Example Tasks/example.c:60-164 | until the croupier stops somebody can take a step |
| Roulette.Program.DealOn | Lab - 5/Example Tasks/example.c:111-160 | a read, close or write of the croupier in place, when it does not block, is a step of a run; afterwards no error exit was met, numbers and bets have arrived in order, nobody owes money, and a stopped croupier has no players |
| Roulette.Program.DrawOn | Lab - 5/Example Tasks/example.c:146-151 | the draw in place is the Draw step of a run, likewise |
| Roulette.Program.PlaceBet | Lab - 5/Example Tasks/example.c:75-79 | a player's first write in place is the Bet step of a run, likewise |
| Roulette.Program.GoHome | Lab - 5/Example Tasks/example.c:69-73 | the decision to leave in place is the Leave step of a run, likewise |
| Roulette.Program.PlayerOn | Lab - 5/Example Tasks/example.c:80-100 | a player's second write, its read and its accounts in place are PlayOn steps of a run; afterwards its money is the balance of its bets |
| ChunkDispatch.ChunkCount | Lab - 4/task.c:83-189 | m chunks fit into the file and m chunks one byte larger do not; there are at least m chunks, and they cover all but size mod chunk bytes |
| ChunkDispatch.Extents | Lab - 4/task.c:88-93 | the extents of the chunks are disjoint and inside the file |
| ChunkDispatch.ClaimedOnce | Lab - 4/task.c:80-116 | no chunk is claimed by two threads, and each thread's list has descending starts |
| ChunkDispatch.AllChunksClaimed | Lab - 4/task.c:80-116 | when all threads are gone, exactly the chunks of the file are in their lists |
| ChunkDispatch.NoDeadlock | Lab - 4/task.c:82-90 | as long as a thread is at work some thread can take a step |
| ChunkDispatch.RunsAreFinite | Lab - 4/task.c:80-116 | a run has at most 5 steps for each chunk and 3 for each thread |
| ChunkDispatch.RunsFinish | Lab - 4/task.c:80-116 | from every reachable state all threads can come to their end |
| ChunkDispatch.Dispatch.Run | Lab - 4/task.c:82-90 | a step of a thread in place, when the mutex lets it, is a step of a run |
| ChunkLists.Push | Lab - 4/task.c:104-113 | a new node at the front of a heap list: the new list is acyclic and holds the new chunk before the others |
| ChunkLists.PrintList | Lab - 4/task.c:29-38 | prints the chunks of the list in order |
| ChunkLists.FreeList | Lab - 4/task.c:40-51 | frees every node, none twice, and looks at no node after it was freed: fields are reached only by methods that require a node not freed |
| ChunkLists.AddList | Lab - 4/task.c:132-143 | hanging the next list behind the others gives one acyclic list with all nodes in order, and its last node |
| ChunkLists.Concat | Lab - 4/task.c:124-144 | the loop over all threads, some with empty lists, gives one acyclic list of all nodes in the order of the threads |
| ChunkLists.ConcatAndPrint | Lab - 4/task.c:123-151 | prints all chunks in that order and frees every node |
| ChunkLists.FlatChunks | Lab - 4/task.c:127-146 | the one list holds the chunks of the threads' lists, in order |
| ChunkLists.EveryChunkOnce | Lab - 4/task.c:80-146 | however the threads were interleaved, the chunks they have at the end, one thread after the other, are every chunk of the file exactly once |
| ChunkLists.StoredMore | Lab - 4/task.c:104-113 | a new node at the front of one list keeps all heap lists acyclic, apart from each other, and equal to the chunks of their threads |
| ChunkLists.Lists.AddNode | Lab - 4/task.c:104-113 | the same in place, for the list of one thread |
| ChunkLists.Lists.PrintAndFree | Lab - 4/task.c:123-151 | printing all lists gives the chunks of all threads in order, and frees every node |
| ChunkLists.Program.Run | Lab - 4/task.c:80-116 | a step of any thread in place, with the node it adds on the heap, is a step of a run, and the heap lists keep holding what the threads have claimed |
| ChunkLists.Program.Finish | Lab - 4/task.c:123-151 | when all threads are gone, what is printed from the heap is every chunk of the file exactly once, and every node is freed |
| BallsAndBins.ThrowBall | Lab - 3/prog18.c:219-229 | the bin is the number of throws to the right, so always a bin that exists |
| BallsAndBins.Conservation | Lab - 3/prog18.c:174-216 | waiting + in hand + in bins is constant, bins minus thrown is the number of throwers between the two updates, and no bin index is out of range |
| BallsAndBins.BinCounts | Lab - 3/prog18.c:193-203 | each bin, with the throwers on their way to it, holds exactly the balls taken so far whose throws went to the right that many times |
| BallsAndBins.TakesBall | Lab - 3/prog18.c:181-194 | a ball that is taken is on record with its own rolls, and in hand for the bin they lead to |
| BallsAndBins.BinsAreThrows | Lab - 3/prog18.c:104-110 | what main finds in each bin is the number of all balls that ended there |
| BallsAndBins.GoneOnlyWhenNoneWaits | Lab - 3/prog18.c:181-191 | a thrower leaves only when no ball waits, and when all have left all balls were thrown |
| BallsAndBins.CanSeeAllThrown | Lab - 3/prog18.c:95-101 | with a thrower at all, from every reachable state main can come to see all balls thrown |
| BallsAndBins.BinsSettled | Lab - 3/prog18.c:95-110 | once main has seen all balls thrown, no step changes a bin |
| BallsAndBins.TotalIsBalls | Lab - 3/prog18.c:104-116 | so the total it adds up without locks is ballsCount |
| BallsAndBins.Program.RunThrower | Lab - 3/prog18.c:179-213 | a locked section of a thrower in place is a step of a run; afterwards no ball is lost or made and each is in its own bin |
| BallsAndBins.Program.Look | Lab - 3/prog18.c:95-101 | one poll of main in place is the Poll step of a run, likewise |
| BallsAndBins.Program.AddUp | Lab - 3/prog18.c:104-110 | the loop over the bins in place returns the number of balls |
| BoardGame.FieldsApart | Lab - 7/Tutorial/client.c:78 | N * y + x is inside the board, and different for different fields |
| BoardGame.PointsConserved | Lab - 7/Tutorial/client.c:54-95 | with the mutex free or left by a dead owner, board plus all scores, those of the dead included, is what the server put on the board |
| BoardGame.SearchesBounded | Lab - 7/Tutorial/client.c:76-90 | at most N * N searches ever find points |
| BoardGame.DrawLooks | Lab - 7/Tutorial/client.c:76-89 | a drawn field with points begins a search of it, an empty one ends the game |
| BoardGame.SearchEnds | Lab - 7/Tutorial/client.c:76-92 | whatever the others do meanwhile, a search of a field with p points ends with the client's score grown by p and the field empty |
| BoardGame.SearchGoesOn | Lab - 7/Tutorial/client.c:85-92 | and until then its client can always take its next step |
| BoardGame.FinishedBehindEmpty | Lab - 7/Tutorial/client.c:79-84 | a client ends the game only behind an empty field |
| BoardGame.MutualExclusion | Lab - 7/Tutorial/client.c:56-92 | no two clients hold the mutex, though owners die with it |
| BoardGame.DiesWithMutex | Lab - 7/Tutorial/client.c:57-74 | a client that draws a 1 dies with the mutex, board and scores stay, and whoever waits for the mutex can have it |
| BoardGame.NoDeadlock | Lab - 7/Tutorial/client.c:54-95 | as long as a client is in the game some client can take a step |
| BoardGame.Program.DrawOne | Lab - 7/Tutorial/client.c:69-79 | dying or looking at a field in place is the Draw step of a run; afterwards one client at most has the mutex and no points are lost |
| BoardGame.Program.RunOne | Lab - 7/Tutorial/client.c:57-92 | locking, scoring, clearing and unlocking in place are Run steps of a run, likewise |
| Framing.FramesRecovered | Lab - 5/Tutorial/Pipe/prog22a.c:71-122 | for any interleaving of whole frames from any number of children, the bodies the parent reads are those of the frames in the order written, each of its length and nothing but its character, none short, and an empty pipe means all were read |
| Framing.StreamAppend | Lab - 5/Tutorial/Pipe/prog22a.c:75-79 | writing a frame appends its bytes behind those of all frames before |
| Framing.Parent.ReadFrame | Lab - 5/Tutorial/Pipe/prog22a.c:112-120 | reading a header and then a body in place, as steps of a run, yields exactly the body of the next frame written |
| Framing.Parent.Arrive | Lab - 5/Tutorial/Pipe/prog22a.c:75-79 | a child's write in place is the Write step of a run |
| Framing.FindLive | Lab - 5/Tutorial/Pipe/prog22a.c:95-98 | the wrap-around search ends at the first live child from the start on, round the array, and at a live child if and only if there is one |

## Left out

- UDP: the EPIPE branch (`Lab - 8/2_server.c`, lines 98 to 101), network byte order, the wrap of a 32-bit chunkNo, datagrams that no client sent or that are shorter than the buffer, an address used by a second client later, and how payloads are printed. Delivery means appending the datagram to a log.
- UDP: `bulk_write` of `Lab - 8/common.h` is not called by the transfer.
- UdpTransfer.CanFinish: some run finishes; that a client finishes in all runs is false, since the network may lose everything and clients give up.
- System calls: set-up of sockets, pipes, processes, shared memory and handlers, error exits, sleeping, printing, reading arguments. A read failure is modelled where a loop passes it on (`bulk_read`), not where it ends the program.
- Notification: the time before SIGUSR1 is blocked in the signal version, what is drained after SIGINT, the exit of the process while handler threads still run, and priorities of messages: the two lecture programs send with one priority; `Bingo.c` sends with 0 and 1, and its model keeps only the order of draining and registering.
- NotifySignal.Reader.RegisterAndDrain: nobody else sends while this method runs; the step model interleaves sends everywhere.
- Readers-writers: `readers_count` changes and is tested under mtx, which is one step; so are the single assignments of a thread that alone holds a mutex in the balls program. Fairness between readers and writers is not claimed: readers can keep a writer waiting.
- Reversal: the line that prints two cells after a request without their mutexes (`Lab - 3/Lab/sop-ca.c`, line 132), and further signals during a request. The model allows all requests with a <= b, more than the program draws.
- Roulette: setting up and closing the pipes in `create_children_and_pipes`; the pipes are taken as correctly set up, so reading from a player that has left reports the end. Probabilities are not modelled. Interrupted reads are repeated, which the model does not show.
- Chunk dispatch: failing reads and allocations, and m outside 1 to the size of the file, where the program divides by zero or has no chunks to give out. Text of a chunk is represented by its number.
- Frames: the store of the terminating zero byte (`Lab - 5/Tutorial/Pipe/prog22a.c`, line 121), children dying on SIGINT and being reaped, and the capacity of the pipe: writers never wait for space.
- Board game: boards larger than the 30 fields a side the server's usage text allows, and the size of the shared segment. Points are integers here, a `char` there.
- BallsAndBins.Program.AddUp: the throwers do not run during this loop; that none of their steps would change a bin is BinsSettled, and TotalIsBalls covers all interleavings.
- The concurrent programs run one atomic step per method call; the methods do not run at the same time, and the model of a step says what the hardware and the C library are taken to do atomically.
- Peterson: only the version with atomic variables. The plain one, the racy demonstrations and the reordering demonstration have no guarantee to state.
- The simple lock variants, `Lab - 3/sop-ca.c`, the unfinished ring and card-game tasks, the Lab 6 client and server, the Monte-Carlo, FUSE, linking and DNS examples: they would only add easy or near-duplicate members.
