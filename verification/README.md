# LegendServer: models and proofs

LegendServer is a C++ game server in the reactor style: one event loop per thread, callbacks posted to
loops, non-blocking connections, timers, a message codec, and game logic on top. This project models
the parts whose correctness is a matter of invariants rather than of input and output, and proves what
they guarantee for all inputs, all runs and all interleavings. `dafny verify dfyconfig.toml` checks it.

| file | models |
|---|---|
| `EventLoop.dfy` | functor posting across threads, the eventfd wakeup, the batch swap, timers after the batch |
| `Connection.dfy` | direct and buffered writes, write interest, half-close, forced close, high-water notices, as transitions |
| `ConnectionLogs.dfy` | what a run accepted, dropped and sent, read off its steps; forced closes carried out |
| `ConnectionProgress.dfy` | shutdowns carried out, output drained, high-water notices, taking down |
| `TcpConnections.dfy`, `Channel.dfy` | the connection object over its channel and its two buffers, proved against those transitions; the interest bits |
| `TimerManager.dfy` | ordered set and active set of timers over a heap that reuses addresses, cancel from callbacks |
| `TimerWheel.dfy` | slots and rounds, refined to a table of remaining ticks |
| `Md5Block.dfy`, `Md5Count.dfy`, `Md5.dfy`, `Md5Vector.dfy` | the block function, the two-word bit count, streaming MD5 against RFC 1321 and one of its test digests |
| `TaskQueue.dfy` | the condition-variable protocol of the blocking queue |
| `ConnectionPool.dfy` | leases of the MySQL connection pool |
| `SessionManager.dfy` | sessions with two secondary indexes |
| `Wire.dfy`, `Buffer.dfy`, `Streams.dfy`, `Codec.dfy` | byte order, the growing and compacting buffer, typed streams, message frames |
| `Delivery.dfy` | frames that arrive in pieces |
| `EndToEnd.dfy` | frames sent over a connection, decoded at its other end |
| `Aoi.dfy`, `Scene.dfy` | the nine-cell neighbour index and the scene above it |
| `RoleExp.dfy` | the experience and level loop |

How the models are built:

- Concurrent and callback-driven code is a transition system. A step is what one thread does without
  giving up its lock or returning to its loop; a step that cannot be taken in a state leaves it alone,
  so a run is any sequence of steps and a theorem over runs covers every interleaving. The kernel, the
  database, the clock, the allocator and the choice of a condition variable are arguments of the steps.
- Code that updates objects is a class whose methods have the source's branches and loops. Each
  method's contract gives the new state, as the step of the transition system it performs or as a
  function of the old contents; the theorems are about that system or that function. What a caller
  relies on (what is queued, written, expires or is handed out) is also written out in the fields.
- Logs in a state (posts, payloads, tasks) are proved equal to what can be read off the steps of the run.
- Loops of the source are loops here, with invariants.

Where the code does something else than it promises, the model follows the code, and lemmas say when
the promise is kept:

- A functor that a timer callback posts (`event_loop.cpp:75`), or that is posted before `loop()`, is not
  followed by a wakeup and can be slept on (`SleepsOnOwnPostIff`).
- A quit requested before `loop()` is erased when `loop()` starts (`QuitLostIff`, `QuitHonouredIff`).
- `shutdown`, `forceClose` and `forceCloseWithDelay` test `state_` and then store to it without a lock. A
  store that comes after the connection was closed revives it as disconnecting, with no interest on, and a
  half-close can then cut off bytes that are still buffered. That store is the one thing that breaks the
  interest bits (`InterestBreaksIff`), what a half-close has drained (`DrainBeforeHalfClose`) and what its
  peer decodes (`HalfCloseDeliversMessages`); `LateShutdownCutsOutput` is a run, and
  `LoopClosesAreNeverLate` a sufficient discipline.
- A half-close can overtake a send that another thread posted before `shutdown`
  (`DrainsAcceptedIff`, `HalfCloseCanOvertakeQueuedSend`).
- `connectDestroyed` fails the assertion in `remove` for a connection that is half-way through a
  shutdown (`DestroyAssertionIff`).
- The wheel's slot sum wraps in 32 bits (`AddRemainsIff`).
- The carry test of the MD5 bit count is wrong from 2^29 bytes per update on (`CountExactIff`).
- The comment at `codec.h:71-75` says the read pointer is restored for an incomplete frame; the code
  drops another 13 bytes (`NullKeepsBufferIff`), so frames that arrive in pieces come out exactly if every
  cut falls between frames or inside a header (`SplitDeliveryIff`, `PiecewiseDeliveryIff`).
- A string of 65536 bytes or more loses the top of its length (`ReadBackIff`).
- Entering a scene twice can leave a role in two cells (`EnterMatchIff`).
- Binding a session to a second player or role leaves an index entry that blocks the first key for good
  (`NextExactIff`, `RebindLeavesLeftover`, `LeftoverBlocks`).
- An `init` of the pool that failed half-way keeps its connections, and the limit is exceeded exactly if
  they leave no room for the minimum (`TotalBoundIff`). An `init` after a `close` can leave a borrower
  asleep beside an idle connection (`StrandsIff`, with a run in `InitCanStrandABorrower`), and a lease
  returned after it is idle without being counted (`IdleListedIff`). A dropped connection keeps its place
  (`ExhaustedForGood`).
- Negative experience does not take levels back (`AddTogetherIff`).

## Model

| member | source | states |
|---|---|---|
| EventLoop.NoLostWakeup | src/core/reactor/event_loop.cpp:53-105 | over every interleaving of the loop thread and any posters, a loop that sleeps in poll with an unreadable eventfd and no poster on its way to the wakeup misses no quit asked for since it last tested the flag, and no functor except those posted by timer callbacks or outside the loop |
| EventLoop.QuitLostIff | src/core/reactor/event_loop.cpp:57 | the step that loses a quit request is the start of loop(), which clears the flag |
| EventLoop.QuitHonouredIff | src/core/reactor/event_loop.cpp:53-86 | a request is honoured at the next test of the flag if and only if no start of loop() comes in between |
| EventLoop.SleepsOnOwnPostIff | src/core/reactor/event_loop.cpp:96-105 | a post of the loop thread is slept on at the next poll if and only if it was made in a timer callback or outside loop() |
| EventLoop.FunctorConservation | src/core/reactor/event_loop.cpp:138-152 | executed functors, the rest of the batch and the pending list always spell out the log of posts, so each runs at most once and in order |
| EventLoop.QueuedAreThePosts | src/core/reactor/event_loop.cpp:96-105 | the log of posts is the sequence of posts read off the steps of the run, each with the origin that its place gives it, and no other step changes it |
| EventLoop.EveryPostAccounted | src/core/reactor/event_loop.cpp:96-152 | over every interleaving, what has run, the rest of the batch and the pending list are the posts made by the steps, of whatever thread and whenever, in order |
| EventLoop.BatchIsClosed | src/core/reactor/event_loop.cpp:138-152 | until a batch ends, only functors of that batch run, however many posts are made meanwhile |
| EventLoop.PostedDuringBatchWaits | src/core/reactor/event_loop.cpp:142-149 | what runs during a batch was queued before its swap |
| EventLoop.IterationRunsAllQueued | src/core/reactor/event_loop.cpp:59-76 | one trip round the loop after poll returns calls every functor queued by then |
| EventLoop.RunKeepsInv | src/core/reactor/event_loop.cpp:53-152 | order and the wakeup guard are kept by every run |
| EventLoop.Reactor.HandleRead | src/core/reactor/event_loop.cpp:132-136 | reading the eventfd takes the whole counter |
| EventLoop.Reactor.QueueInLoop | src/core/reactor/event_loop.cpp:96-105 | the functor at the end of the pending list whoever calls, with its origin; one more wakeup from other threads and while a batch runs, and none otherwise |
| EventLoop.Reactor.RunInLoop | src/core/reactor/event_loop.cpp:88-94 | a direct call on the loop thread, a post elsewhere |
| EventLoop.Reactor.Quit | src/core/reactor/event_loop.cpp:81-86 | the flag, and a wakeup from other threads |
| EventLoop.Reactor.Iterate | src/core/reactor/event_loop.cpp:59-76 | one trip round the loop: what was pending and what the handlers posted has run, in order; what functors and timers posted waits |
| EventLoop.Reactor.DoPendingFunctors | src/core/reactor/event_loop.cpp:138-152 | the batch loop runs exactly the swapped-out functors in order and ends even if functors post themselves |
| Connection.ByteStreamConservation | src/common/network/connection.cpp:47-223 | for every run with any short writes, errors and interleaved calls of other threads, wire bytes followed by the output buffer are the payloads not dropped whole, in order; no interest is on without a use, and until a late store write interest is on exactly when the buffer is non-empty |
| ConnectionLogs.EveryByteAccounted | src/common/network/connection.cpp:47-223 | over every interleaving, the bytes the kernel took, read off the steps, followed by the buffer are the payloads that reached sendInLoop, read off the steps: whole, in order, and dropped only if nothing was waiting and the kernel answered with a broken pipe, or the connection was gone |
| ConnectionLogs.RunLogs | src/common/network/connection.cpp:47-223 | what was accepted, the fate of each payload and the bytes on the wire are those read off the steps, with every condition written out |
| ConnectionLogs.SendEffect | src/common/network/connection.cpp:180-223 | wire and buffer grow together by the whole payload, unless the connection is gone or, with nothing waiting, the pipe is broken: then both stay; when interest goes on and which callbacks are queued |
| ConnectionLogs.WriteEffect | src/common/network/connection.cpp:141-160 | exactly the bytes the kernel took move from the front of the buffer to the wire; with the last one interest ends, the callback is queued and a disconnecting connection is half-closed |
| ConnectionLogs.ForceCloseCloses | src/common/network/connection.cpp:236-241 | the queued forced close and the timer leave every open connection disconnected with no interest on |
| ConnectionLogs.ForceCloseNotForgotten | src/common/network/connection.cpp:85-97 | over every interleaving, a forced close begun on an open connection leaves it disconnected once no task, timer or call is left, until a store comes late |
| Connection.InterestBreaksIff | src/common/network/connection.cpp:78-97 | the step that breaks the interest bits is a store of kDisconnecting after the connection was closed; write interest, if bytes were waiting |
| Connection.NextInterest | src/common/network/connection.cpp:47-241 | no step turns an interest on without a use, and late stores are just these |
| Connection.LoopClosesAreNeverLate | src/common/network/connection.cpp:78-97 | no store is late if all closes come from the loop thread |
| Connection.LateShutdownCutsOutput | src/common/network/connection.cpp:78-83 | a run in which a late shutdown half-closes with a byte still buffered |
| Connection.StreamOnlyGrows | src/common/network/connection.cpp:141-223 | bytes once taken are never reordered or dropped later |
| Connection.DrainBeforeHalfClose | src/common/network/connection.cpp:229-234 | a half-close of a connection not disconnected comes with an empty buffer and all processed, unfaulted payloads on the wire if and only if the write interest was right, as it is until a late store |
| Connection.DrainsAcceptedIff | src/common/network/connection.cpp:47-83 | every accepted payload has been processed exactly when no send of another thread is queued or between its test and its post |
| Connection.LoopSendsDrainBeforeHalfClose | src/common/network/connection.cpp:78-83 | with sends and closes from the loop thread only, the half-close comes after every accepted payload that no fault dropped |
| Connection.HalfCloseCanOvertakeQueuedSend | src/common/network/connection.cpp:154-156 | a run in which a posted send is still queued when the write handler half-closes |
| ConnectionProgress.ShutdownNotForgotten | src/common/network/connection.cpp:78-97 | a connection that is disconnecting, has drained and has no task, timer or call left has been half-closed, over every interleaving |
| ConnectionProgress.WritableDrains | src/common/network/connection.cpp:141-160 | writable events that each get a byte out drain the buffer in order, switch interest off and half-close a disconnecting connection exactly once |
| ConnectionProgress.HighWaterAlternates | src/common/network/connection.cpp:210-217 | between two high-water notices the buffer dropped below the mark |
| ConnectionProgress.DestroyAssertionIff | src/common/network/connection.cpp:114-124 | the assertion in remove fails exactly for a connection left disconnecting with an interest on; until a late store, for any left disconnecting |
| Connection.RunKeepsInv | src/common/network/connection.cpp:47-241 | conservation, notice counts and the soundness of interest are kept by every run, the interest bits until a late store |
| TcpConnections.TcpConnection.SendInLoop | src/common/network/connection.cpp:180-223 | wire and buffer grow by the payload exactly unless it is dropped, when it is dropped, how much is written directly, the write interest and the callbacks queued |
| TcpConnections.TcpConnection.HandleWrite | src/common/network/connection.cpp:141-160 | draining, interest off when empty, completion callback, deferred half-close |
| TcpConnections.TcpConnection.HandleClose | src/common/network/connection.cpp:162-173 | disconnected with all interest off |
| TcpConnections.TcpConnection.Send | src/common/network/connection.cpp:47-58 | in place on the loop thread, posted elsewhere, refused unless connected |
| TcpConnections.TcpConnection.SendBuffer | src/common/network/connection.cpp:64-76 | sends what the buffer holds and empties it, or leaves it alone |
| TcpConnections.TcpConnection.HandleRead | src/common/network/connection.cpp:126-139 | what was read is appended to the input buffer; the end of the stream closes |
| TcpConnections.TcpConnection.Shutdown | src/common/network/connection.cpp:78-83 | disconnecting, and the half-close now or posted |
| TcpConnections.TcpConnection.ForceClose | src/common/network/connection.cpp:85-90 | disconnecting, and the close posted |
| TcpConnections.TcpConnection.ForceCloseWithDelay | src/common/network/connection.cpp:92-97 | disconnecting, and the close on a timer |
| TcpConnections.TcpConnection.ShutdownInLoop | src/common/network/connection.cpp:229-234 | half-close unless output is pending |
| TcpConnections.TcpConnection.ForceCloseInLoop | src/common/network/connection.cpp:236-241 | an open connection is disconnected with no interest on, any other left alone |
| TcpConnections.TcpConnection.ConnectEstablished | src/common/network/connection.cpp:103-112 | connected and reading |
| TcpConnections.TcpConnection.ConnectDestroyed | src/common/network/connection.cpp:114-124 | closes a connected connection, and whether the assertion that follows holds |
| Channel.Channel.EnableWriting | src/core/reactor/channel.h:63 | write interest on, read interest as it was |
| Channel.Channel.DisableWriting | src/core/reactor/channel.h:64 | write interest off, read interest as it was |
| Channel.Channel.EnableReading | src/core/reactor/channel.h:59 | read interest on, write interest as it was |
| Channel.Channel.DisableReading | src/core/reactor/channel.h:60 | read interest off, write interest as it was |
| Channel.Channel.DisableAll | src/core/reactor/channel.h:67 | both off |
| Channel.Channel.NoneIff | src/core/reactor/channel.h:50-56 | no event is registered exactly if both interests are off |
| TimerManager.EachTimerOwnedOnce | src/common/timer/timer_manager.cpp:17-100 | over every run with adds and cancels in callbacks and address reuse, no timer is used after it was freed, each live timer is in the ordered set or the batch but not both, and ordered set and active set agree |
| TimerManager.ExactExpiry | src/common/timer/timer_manager.cpp:72-87 | a batch is exactly the timers with expiration at most now, in (expiration, creation) order; the rest stays |
| TimerManager.BatchRunsInOrder | src/common/timer/timer_manager.cpp:33-35 | each timer of the batch runs once, in order, with its own callback, whatever callbacks do |
| TimerManager.ProcessExpired | src/common/timer/timer_manager.cpp:27-39 | expired timers ran once each in order; then one-shot and cancelled ones are gone, the others re-armed at now2 + interval, all others untouched |
| TimerManager.ResetAllExactly | src/common/timer/timer_manager.cpp:89-100 | which timers of a batch are re-armed and which freed, and that no other is touched |
| TimerManager.KeysFrozenInSet | src/common/timer/timer.h:39-45 | no key changes while its timer is in the ordered set |
| TimerManager.ExpiryBoundary | src/common/timer/timer.h:62-69 | the sentry's fresh sequence number puts the cut right after the timers that expire at now |
| TimerManager.StaleCancelIsInvisible | src/common/timer/timer_manager.cpp:61-70 | over every run, cancelling the id of a timer that is gone changes nothing, now or later, even if its address is in use again |
| TimerManager.CancelledRunsAtMostOnceMore | src/common/timer/timer_manager.cpp:61-70 | after cancel the callback runs at most once more, and only from the unrun part of the current batch |
| TimerManager.FiresWhenDue | src/common/timer/timer_manager.cpp:17-39 | after any run, a timer added for a time and not cancelled is in no batch that begins before that time and is called exactly once, with its own callback, by the first that begins at or after it, whatever else is added, cancelled and run |
| TimerManager.CancelExactly | src/common/timer/timer_manager.cpp:61-70 | the timer named goes if it is in the ordered set, is noted if a batch runs and it is not, and no other is touched |
| TimerManager.InsertKeepsSorted | src/common/timer/timer_manager.cpp:57 | insertion by the comparator keeps the set ordered and adds just that timer |
| TimerManager.EraseRemoves | src/common/timer/timer_manager.cpp:64 | erasure by an equivalent key removes just that timer |
| TimerManager.Manager.AddTimer | src/common/timer/timer_manager.cpp:17-21 | a new timer at that address that expires at the given time, has the given interval and callback, repeats exactly if the interval is positive, and has the next sequence number, which is in its id |
| TimerManager.Manager.Cancel | src/common/timer/timer_manager.cpp:61-70 | erase and free, or note for the running batch, or nothing |
| TimerManager.Manager.GetExpiredTimers | src/common/timer/timer_manager.cpp:72-87 | the loops that move expired timers out of both sets |
| TimerManager.Manager.ResetTimers | src/common/timer/timer_manager.cpp:89-100 | the loop that re-arms or frees the batch |
| TimerManager.Manager.ProcessExpiredTimers | src/common/timer/timer_manager.cpp:27-39 | the whole batch with callbacks that add and cancel |
| TimerWheel.AddRemainsIff | src/common/timer/timer_wheel.cpp:22-45 | a new timer has the asked-for ticks remaining if and only if the 32-bit slot sum does not wrap or the wheel size divides 2^32 |
| TimerWheel.AddRefines | src/common/timer/timer_wheel.cpp:22-45 | an add puts one timer into the countdown table |
| TimerWheel.CancelRefines | src/common/timer/timer_wheel.cpp:47-60 | a cancel removes just that timer, and changes nothing for an id not pending |
| TimerWheel.TickRefines | src/common/timer/timer_wheel.cpp:62-85 | a tick fires exactly the timers with nothing remaining, in id order, and takes one tick off the others |
| TimerWheel.RemainingFormula | src/common/timer/timer_wheel.cpp:31-32 | remaining ticks are ((slot - cur) mod size) + size * rounds |
| TimerWheel.Bookkeeping | src/common/timer/timer_wheel.cpp:39-60 | after every run id map and slot lists are in bijection, and every id is pending, fired once or cancelled, and only one of these |
| TimerWheel.CountsDown | src/common/timer/timer_wheel.cpp:62-85 | a timer with r ticks remaining that is not cancelled fires on exactly the (r+1)-th later tick |
| TimerWheel.DelayBounds | src/common/timer/timer_wheel.cpp:26-29 | the delay is more than the timeout and at most a tick more, or exactly two ticks for a timeout under a tick |
| TimerWheel.FiresAfterDelay | src/common/timer/timer_wheel.cpp:22-85 | after any run a timer has fired exactly if its delay has passed on the wheel's clock, and is pending until then |
| TimerWheel.SweepList | src/common/timer/timer_wheel.cpp:67-82 | the sweep over a slot's list splits it into kept and due entries in list order |
| TimerWheel.Wheel.AddTimer | src/common/timer/timer_wheel.cpp:22-45 | ticks, rounds, slot and map entry of a new timer |
| TimerWheel.Wheel.Cancel | src/common/timer/timer_wheel.cpp:47-60 | true exactly for pending ids, and the table without that id |
| TimerWheel.Wheel.Tick | src/common/timer/timer_wheel.cpp:62-85 | one sweep, the clock and the slot advance |
| Md5.FoldContinues | src/common/crypto/md5.cpp:38-66 | more input continues from the chaining value with the left-over bytes in front |
| Md5.HashChunks | src/common/crypto/md5.cpp:38-66 | whatever the pieces (each under 2^29 bytes), the digest is that of RFC 1321 on their concatenation |
| Md5.HexDigest | src/common/crypto/md5.cpp:178-193 | the hexadecimal form of that digest |
| Md5.HexInjective | src/common/crypto/md5.cpp:183-190 | different digests print differently |
| Md5.PadLengthIsLeast | src/common/crypto/md5.cpp:166-167 | the padding is the shortest that section 3.1 of RFC 1321 allows |
| Md5.PaddedIsBlocks | src/common/crypto/md5.cpp:155-169 | a padded message is whole blocks |
| Md5.PaddedBytes | src/common/crypto/md5.cpp:155-169 | the padded message byte by byte: the message, 0x80, zeros, and the bit length modulo 2^64 in eight bytes, low-order byte first |
| Md5Count.LowWordDigits | src/common/crypto/md5.cpp:47-51 | the low word of the count has the four low bytes of the bit length as its digits |
| Md5Count.HighWordDigits | src/common/crypto/md5.cpp:47-51 | the high word has the next four |
| Md5Block.EncodedBytes | src/common/crypto/md5.cpp:171-173 | the digest is the four registers in order, each low-order byte first |
| Md5.HexDigits | src/common/crypto/md5.cpp:183-190 | two lower-case digits for each byte of the digest, the high half first |
| Md5Vector.AlphabetDigest | src/common/crypto/md5.cpp:27-176 | the digest of the 26 letters is the one in the test suite of RFC 1321, appendix A.5, which pins the table, the shifts, the words and the starting registers |
| Md5.Context.Update | src/common/crypto/md5.cpp:38-66 | absorbs the input and keeps the count, or ignores it after the digest was taken |
| Md5.Context.AbsorbBlocks | src/common/crypto/md5.cpp:54-65 | filling the buffer, compressing whole blocks, keeping the tail |
| Md5.Context.Final | src/common/crypto/md5.cpp:155-176 | the digest of the padded message with the count as it stood |
| Md5.Context.TakeDigest | src/common/crypto/md5.cpp:195-200 | taking the digest twice gives the same bytes |
| Md5Count.CountExactIff | src/common/crypto/md5.cpp:47-51 | an update keeps the 64-bit count exact if and only if it is under 2^29 bytes or the low words do overflow |
| Md5Count.CountRightIff | src/common/crypto/md5.cpp:47-51 | the count is right modulo 2^64 if and only if the comparison agrees with the carry |
| Md5Count.LongFirstUpdateMiscounts | src/common/crypto/md5.cpp:47-51 | a first update of 2^29 bytes or more always miscounts |
| Md5Count.IndexRight | src/common/crypto/md5.cpp:44 | the buffer index taken from the low word is the message length modulo 64 |
| Md5Block.UpdateRegisters | src/common/crypto/md5.cpp:72-147 | groups of four calls that update a, d, c, b in place equal the calls with rotating roles |
| Md5Block.Transform | src/common/crypto/md5.cpp:72-153 | the block function with the starting registers added |
| Md5Block.TransformBlock | src/common/crypto/md5.cpp:72-153 | sixteen groups of the calls with their words, shifts and constants make the block function |
| TaskQueue.TaskConservation | src/common/thread/task_queue.h:30-120 | over every interleaving, tasks taken off followed by tasks queued are the tasks pushed, in order |
| TaskQueue.EveryTaskAccounted | src/common/thread/task_queue.h:30-120 | over every interleaving, the tasks taken, read off the steps, followed by those queued are the tasks pushed, read off the steps |
| TaskQueue.RunLogs | src/common/thread/task_queue.h:30-120 | both logs are those read off the steps, with who takes what written out, and no other step changes them |
| TaskQueue.NoStuckSleeper | src/common/thread/task_queue.h:30-68 | while not stopped, sleeping poppers imply at least as many awake poppers as queued tasks |
| TaskQueue.StoppedStaysStopped | src/common/thread/task_queue.h:107-111 | once stopped, until a reset nobody sleeps and no pop receives a task |
| TaskQueue.StopWakesAll | src/common/thread/task_queue.h:107-111 | whoever waits, stop leaves nobody asleep |
| TaskQueue.AwakePoppersServe | src/common/thread/task_queue.h:44-57 | when all woken poppers had their turn, each took a task as far as there were any, and no task and sleeper are left together |
| TaskQueue.Queue.Push | src/common/thread/task_queue.h:30-34 | the task at the end of the queue, and the sleepers that the notify chose woken |
| TaskQueue.Queue.WaitLoopTurn | src/common/thread/task_queue.h:46-56 | a turn of the wait loop: wait, leave empty-handed, or take the first task |
| TaskQueue.Queue.TryPop | src/common/thread/task_queue.h:60-68 | the first task or nothing, stopped or not |
| TaskQueue.Queue.PopAll | src/common/thread/task_queue.h:89-92 | all tasks at once |
| TaskQueue.Queue.Stop | src/common/thread/task_queue.h:107-111 | the flag, and all sleepers woken |
| TaskQueue.Queue.Reset | src/common/thread/task_queue.h:114-120 | running again with an empty queue |
| ConnectionPool.LeaseExclusivity | src/database/mysql/mysql_connection_pool.cpp:19-111 | over every run, with failed inits and closes, no connection is idle and lent, queued twice, or handed out while lent |
| ConnectionPool.EveryConnectionAccounted | src/database/mysql/mysql_connection_pool.cpp:19-86 | until closed, every listed connection is idle, lent or dropped, exactly one of these, and they add up |
| ConnectionPool.AccountedIff | src/database/mysql/mysql_connection_pool.cpp:78-111 | which steps break that: a close while connections are lent or dropped, and a return to a pool that is not running |
| ConnectionPool.IdleListedIff | src/database/mysql/mysql_connection_pool.cpp:78-86 | an idle connection is missing from the list exactly if it was returned as a stray to a running pool |
| ConnectionPool.StraysFromClose | src/database/mysql/mysql_connection_pool.cpp:110 | only a close makes strays |
| ConnectionPool.StrandsIff | src/database/mysql/mysql_connection_pool.cpp:19-60 | the step that leaves a borrower asleep beside an idle connection is an init that fills the queue past the awake borrowers while others wait |
| ConnectionPool.NoStuckBorrower | src/database/mysql/mysql_connection_pool.cpp:48-111 | over every run without such an init, with closes, borrowers sleep only if awake ones claim all idle connections |
| ConnectionPool.NoStuckBorrowerUntilClosed | src/database/mysql/mysql_connection_pool.cpp:48-60 | in particular until the first close |
| ConnectionPool.InitCanStrandABorrower | src/database/mysql/mysql_connection_pool.cpp:100-111 | a run with such an init |
| ConnectionPool.ExceedsIff | src/database/mysql/mysql_connection_pool.cpp:26-50 | which steps push the list over max(min, max): only an init without room for its connections |
| ConnectionPool.TotalBoundIff | src/database/mysql/mysql_connection_pool.cpp:19-50 | over every run without a close, the total stays within max(min, max) if and only if what failed inits opened leaves room for the minimum |
| ConnectionPool.TotalBound | src/database/mysql/mysql_connection_pool.cpp:26-50 | over every run, with closes, whose inits have room, the total stays within the limit |
| ConnectionPool.ExhaustedForGood | src/database/mysql/mysql_connection_pool.cpp:66-73 | with every place taken by a dropped connection nobody gets one until the pool is closed |
| ConnectionPool.LentAreTheLeases | src/database/mysql/mysql_connection_pool.cpp:40-86 | over every run, what borrowers hold is what the steps call for: a new connection if nobody is idle, there is room and the connect succeeds, the first idle one if it answers or reconnects, without those given back |
| ConnectionPool.ServedIff | src/database/mysql/mysql_connection_pool.cpp:40-76 | a borrower is put to sleep exactly if nobody is idle and there is no room or the connect fails, and a connection is dropped exactly if ping and reconnect fail |
| ConnectionPool.Pool.GetTurn | src/database/mysql/mysql_connection_pool.cpp:47-76 | the lease and the new queue and list, for every answer of the database |
| ConnectionPool.Pool.Init | src/database/mysql/mysql_connection_pool.cpp:19-38 | the loop that opens the minimum, or stops at the first failure |
| ConnectionPool.Pool.Get | src/database/mysql/mysql_connection_pool.cpp:40-76 | a lease is of a connection nobody else holds |
| ConnectionPool.Pool.Resume | src/database/mysql/mysql_connection_pool.cpp:57-76 | so is one after a wait, which does not look at the running flag again |
| ConnectionPool.Pool.Return | src/database/mysql/mysql_connection_pool.cpp:78-86 | back into the queue with a notify while running |
| ConnectionPool.Pool.Close | src/database/mysql/mysql_connection_pool.cpp:100-111 | empties the queue and the list and wakes all |
| SessionManager.LiveSessionFound | src/core/session/session_manager.cpp:16-129 | after every run a live session with a positive player (or role) id is the one found under it |
| SessionManager.NoSharedKey | src/core/session/session_manager.cpp:72-105 | no two live sessions share a player, or a role |
| SessionManager.RemovedForGood | src/core/session/session_manager.cpp:16-22 | session ids are never reused |
| SessionManager.LeftoverBlocks | src/core/session/session_manager.cpp:79-100 | an entry left behind, on either side, resolves to no session, and its key cannot be bound until it is unbound |
| SessionManager.UnbindFrees | src/core/session/session_manager.cpp:107-129 | an unbound key is free, its live session has none, any live session can be bound to it, and nothing else changes |
| SessionManager.EntriesOfRun | src/core/session/session_manager.cpp:57-129 | after every run the entry of a key is the session it was last bound to while free, unless unbound or removed since |
| SessionManager.RebindLeavesLeftover | src/core/session/session_manager.cpp:57-88 | rebinding a session and removing it leaves such an entry |
| SessionManager.NextExactIff | src/core/session/session_manager.cpp:16-129 | a step breaks the bijection between bound sessions and index entries exactly if it binds a non-positive key or a session that has another one |
| SessionManager.CarefulBijection | src/core/session/session_manager.cpp:16-129 | without such steps lookup and key are inverse to each other after every run |
| SessionManager.Manager.CreateSession | src/core/session/session_manager.cpp:16-22 | a new session under the next id |
| SessionManager.Manager.RemoveSession | src/core/session/session_manager.cpp:57-70 | the session goes, with the entries of its current keys |
| SessionManager.Manager.BindPlayer | src/core/session/session_manager.cpp:72-88 | refused exactly for unknown sessions and keys of another session |
| SessionManager.Manager.BindRole | src/core/session/session_manager.cpp:90-105 | the same for roles |
| SessionManager.Manager.UnbindPlayer | src/core/session/session_manager.cpp:107-117 | the entry goes, and the key of its session if live |
| SessionManager.Manager.UnbindRole | src/core/session/session_manager.cpp:119-129 | the same for roles |
| SessionManager.Manager.GetSessionByPlayerId | src/core/session/session_manager.cpp:33-43 | the live session the index names |
| SessionManager.Manager.GetSessionByRoleId | src/core/session/session_manager.cpp:45-55 | the same for roles |
| Wire.SwapsAreInvolutions | src/common/base/buffer.h:245-251 | each byte swap undoes itself |
| Wire.BigEndian | src/common/base/buffer.h:245-247 | the most significant byte goes first |
| Wire.BigEndian16 | src/common/network/buffer_stream.h:161-164 | the same for 16 bits |
| Wire.BigEndian64 | src/common/network/buffer_stream.h:170-173 | the same for 64 bits |
| Wire.LengthOnWire | src/core/message/codec.h:47 | a length goes out as its digits to base 256, most significant first, as far as two or four bytes go |
| Wire.NumberOnWire | src/common/base/buffer.h:167-173 | and is read as the number that the bytes spell |
| Wire.Wire32 | src/common/base/buffer.h:161-185 | four bytes are what a 32-bit write puts exactly if a read of them gives the value |
| Wire.Wire16 | src/common/network/buffer_stream.h:59-65 | the same for 16 bits |
| Wire.Wire64 | src/common/network/buffer_stream.h:71-77 | the same for 64 bits |
| Wire.NumberOfWord32 | src/core/message/codec.h:47 | a cast to 32 bits keeps the length modulo 2^32 |
| Buffer.Buffer.Retrieve | src/common/base/buffer.h:91-103 | drops from the front, or everything |
| Buffer.Buffer.RetrieveAsString | src/common/base/buffer.h:111-115 | splits the contents in two |
| Buffer.Buffer.MakeSpace | src/common/base/buffer.h:231-242 | always enough room, contents unchanged |
| Buffer.Buffer.Compact | src/common/base/buffer.h:235-240 | the forward copy over overlapping ranges moves the contents intact |
| Buffer.Buffer.Grow | src/common/base/buffer.h:233 | the resize keeps the contents |
| Buffer.Buffer.Append | src/common/base/buffer.h:118-137 | appends to the contents |
| Buffer.Buffer.Prepend | src/common/base/buffer.h:145-149 | puts bytes in front of the contents |
| Buffer.Buffer.ReadUInt32 | src/common/base/buffer.h:167-173 | reads the value whose bytes it consumes |
| Buffer.Buffer.WriteUInt32 | src/common/base/buffer.h:182-185 | appends the bytes of the value |
| Buffer.Buffer.PeekUInt32 | src/common/base/buffer.h:188-192 | the value at the front, contents unchanged |
| Buffer.Buffer.Shrink | src/common/base/buffer.h:195-207 | the same contents in new storage with the reserve |
| Buffer.Buffer.ReadFd | src/common/base/buffer.cpp:13-32 | appends exactly the bytes read, however they split between tail and spill area |
| Streams.ReadBackIff | src/common/network/buffer_stream.h:32-94 | a value is read back, leaving what follows, if and only if it is not a string of 65536 bytes or more |
| Streams.ValueBytes | src/common/network/buffer_stream.h:143-193 | the bytes of each kind of value |
| Streams.ReadCanonical | src/common/network/buffer_stream.h:32-94 | what is read is what was written for the value returned |
| Streams.ReadAllBack | src/common/network/buffer_stream.h:143-193 | any sequence of values is read back by the same sequence of reads |
| Streams.ReadAllCanonical | src/common/network/buffer_stream.h:32-94 | and nothing else is accepted |
| Streams.BufferOutputStream.WriteString | src/common/network/buffer_stream.h:185-188 | the length cast to 16 bits and the bytes |
| Streams.BufferOutputStream.WriteUInt64 | src/common/network/buffer_stream.h:170-173 | the eight bytes of the value |
| Streams.BufferInputStream.ReadString | src/common/network/buffer_stream.h:89-94 | the string the bytes at the front stand for |
| Streams.BufferInputStream.ReadUInt16 | src/common/network/buffer_stream.h:59-65 | the 16-bit value at the front |
| Streams.BufferInputStream.ReadUInt64 | src/common/network/buffer_stream.h:71-77 | the 64-bit value at the front |
| Codec.HeaderBack | src/core/message/message.cpp:10-28 | a written header is read back, its length modulo 2^32 |
| Codec.FrameRoundTrip | src/core/message/codec.h:39-88 | a frame decodes to its message and leaves what follows, for bodies of any length |
| Codec.StreamRoundTrip | src/core/message/codec.h:39-88 | any messages back to back, followed by any bytes, decode to the same messages and leave those bytes |
| Codec.FrameLayout | src/core/message/codec.h:39-56 | a frame byte by byte: magic number, version, length of the whole frame and id with the most significant byte first, and the body |
| Codec.DecodeCases | src/core/message/codec.h:58-88 | what decode gives and leaves for any bytes at all, including wrong headers, incomplete frames and unknown ids |
| Codec.NullKeepsBufferIff | src/core/message/codec.h:58-88 | a null result leaves the buffer unchanged exactly if less than a header is there |
| Codec.SplitDeliveryIff | src/core/message/codec.h:70-75 | a frame that arrives in two pieces comes out exactly if the cut is inside the header or at the end |
| Delivery.DecodeBeginning | src/core/message/codec.h:58-88 | decoding a beginning of a stream of frames gives its whole frames, keeps a partial header and loses from a longer part |
| Delivery.PiecewiseDeliveryIff | src/core/message/codec.h:70-75 | frames cut into any pieces all come out, in order, if and only if every cut falls between frames or inside a header |
| Codec.RecordReadsBack | src/core/message/codec.h:81-85 | messages made of stream values meet what the round trips ask of a body |
| Codec.RecordsFrugal | src/core/message/codec.h:81-85 | and read no message out of fewer bytes than it is written in |
| Codec.DefaultCodec.EncodeTo | src/core/message/codec.h:39-56 | appends the frame |
| Codec.DefaultCodec.ReadHeader | src/core/message/message.cpp:17-28 | consumes the header field by field |
| Codec.DefaultCodec.DecodeFrom | src/core/message/codec.h:58-88 | the decoded message or null, and what is left in the buffer |
| EndToEnd.KeptFrames | src/core/message/codec.h:39-56 | the bytes of the kept payloads are the frames of the kept messages |
| EndToEnd.FramesArriveInOrder | src/common/network/connection.cpp:180-223 | over every run, wire and buffer decode to the messages whose frames no fault dropped, in order, and to nothing else |
| EndToEnd.HalfCloseDeliversMessages | src/common/network/connection.cpp:229-234 | at a half-close the wire alone decodes to all of them if and only if the write interest was right, as it is until a late store |
| Aoi.SeesWithinReach | src/game/scene/aoi.cpp:101-125 | a query includes every role within one cell width and height |
| Aoi.MissesOutOfReach | src/game/scene/aoi.cpp:101-125 | and excludes roles two cell widths or heights away on the grid |
| Aoi.LastCellHasNoEnd | src/game/scene/aoi.cpp:102-103 | beyond the grid distance excludes nobody |
| Aoi.SeesIsSymmetric | src/game/scene/aoi.cpp:52-70 | who sees whom is mutual |
| Aoi.CellsCover | src/game/scene/aoi.cpp:16-17 | the ceiling divisions cover the scene with less than one unit to spare per cell |
| Aoi.IndexNamesCell | src/game/scene/aoi.cpp:101-111 | a position's index is in range and decodes to its cell |
| Aoi.AroundGrids | src/game/scene/aoi.cpp:107-125 | the cells around a cell that exist, each once |
| Aoi.EnterMatchIff | src/game/scene/aoi.cpp:22-27 | entering keeps cell sets and positions in agreement exactly if the role was not in another cell |
| Aoi.AOI.Enter | src/game/scene/aoi.cpp:22-27 | the new position, and when the index stays valid |
| Aoi.AOI.Leave | src/game/scene/aoi.cpp:29-36 | the role is in no cell and has no position |
| Aoi.AOI.Move | src/game/scene/aoi.cpp:38-50 | a present role is in the cell of its new position and no other |
| Aoi.AOI.GetAroundRoles | src/game/scene/aoi.cpp:52-70 | exactly what a search of all positions gives, each role once |
| Aoi.AOI.GetAroundRolesAt | src/game/scene/aoi.cpp:72-85 | the same around a place |
| Aoi.SceneCells | src/game/scene/scene.cpp:16-18 | cells of a scene are 51 to 100 units, or one covers the axis |
| Aoi.SmallestCell | src/game/scene/scene.cpp:16-18 | a cell of 51 units does occur |
| Aoi.SceneReach | src/game/scene/scene.cpp:11-19 | the guaranteed reach in a scene is 51 units or the whole axis |
| Scene.SceneQuery | src/game/scene/scene.cpp:47-49 | a scene query includes everyone within 51 units and nobody 200 units away |
| Scene.Scene.Enter | src/game/scene/scene.cpp:23-31 | both tables take the position, and when they stay valid |
| Scene.Scene.Leave | src/game/scene/scene.cpp:33-36 | the role leaves both tables |
| Scene.Scene.Move | src/game/scene/scene.cpp:38-45 | a present role moves in both tables |
| RoleExp.SettledIff | lua_scripts/modules/role.lua:146-150 | the loop's result is the one level and remainder with the same total and less left than the next price |
| RoleExp.AddTogetherIff | lua_scripts/modules/role.lua:138-161 | adding a then b equals adding a + b if and only if b is not negative or costs no level already paid for |
| RoleExp.SpentClosedForm | lua_scripts/modules/role.lua:164-166 | the total price of n levels is 100 n(n+1)(2n+1)/6 |
| RoleExp.AddExp | lua_scripts/modules/role.lua:138-161 | total experience is conserved, the remainder is below the next price, and the level event fires exactly if a level was gained |

## Left out

- Channel.Channel.EnableReading: the registration with the poller that follows each change is not modelled.
- Sockets, epoll, eventfd, MySQL and the clock appear only as arguments of steps: short counts, error codes, ready events, connect and ping results, times.
- Memory order and the polling timeout: a step sees all earlier steps, also of the plain field `state_`, and `poll` may return at any time.
- EventLoop.Reactor.Iterate: one trip without interruption; posts of other threads during it are covered by the theorems over runs.
- EventLoop.Reactor.DoPendingFunctors: the same, and each functor posts a fixed list.
- TimerManager.EachTimerOwnedOnce: covers the loop thread only; `EventLoop::runAt` and `cancel` reach the timer sets from any thread without a lock.
- TcpConnections.TcpConnection.Shutdown: from another thread, its test, store and post without interruption (as for `Send`, `ForceClose` and `ForceCloseWithDelay`); what comes in between is covered by the theorems over runs.
- ConnectionProgress.ShutdownNotForgotten: the timer that `forceCloseWithDelay` adds from another thread is one step.
- Lifetimes of connections and sessions held by `shared_ptr`, and what user callbacks do beyond posting, sending, adding and cancelling.
- TimerWheel.Wheel.Tick: callbacks that call the wheel again are not modelled, because they would lock the same mutex twice.
- ConnectionPool.LeaseExclusivity: borrowers give back only what they hold; the source does not check.
- `checkConnections` reconnects connections in place and changes neither queue nor list.
- Md5: the word layout of a block is that of a little-endian host, as the source assumes.
- Aoi.AOI.Enter: 32-bit overflow of cell indices is not modelled, and after a role was entered twice in different cells no further promise is made; positions a cell width or more below zero index before the first cell in the source and are excluded.
- Scene roles' hit and magic points are never set or read by the modelled code.
- SessionManager: keys that other code sets on a session directly, and overflow of the 64-bit id.
- Streams.ReadBackIff: signed integers share the bits of the unsigned ones; `readInt8` skips a byte before reading, and floats are bit casts of integers, so neither has a member here.
- Streams: the source does not check that enough bytes are there; a read past the end is a result of its own here and a precondition of the stream methods.
- Buffer.Buffer.Prepend: a prefix longer than the space before the read index is excluded, because the source's index would underflow.
- `Buffer`'s moved-from state, `findCRLF`, and the signed reads that repeat the unsigned ones.
- `LengthFieldCodec` and `getMessageLength`, whose header sizes do not match what they read.
- RoleExp.AddExp: the database row is an argument and a result; attribute bonuses of a level-up are not modelled.
- `PriorityTaskQueue`, `redis_pool` and `message_queue`, which repeat the modelled monitors.
- AES, whose column mix has no inverse in the source, and the SQL, chat, friend, skill and battle modules.
