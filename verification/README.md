# KnetLib: a verified model of the reactor core

KnetLib is a reactor-style network library: one event loop per thread, connections with
input and output buffers, timers, an asynchronous logger and a thread pool. This project
models the parts that carry state and proves what they keep on every run.

Each component comes in up to three layers.

* A *machine*: the component's state as a datatype, its atomic steps as functions, and system
  calls (`write`, `readv`, `epoll_ctl`, `epoll_wait`, eventfd, timerfd, `fwrite`) as parameters
  of the steps, so that every answer the kernel may give is covered. In the machines of the
  poller, the connection, the timers and the logger a failed `assert` of the source, a fatal error
  or the use of freed memory is a result of its own (`Aborted`, `Fatal`, `AssertFailed`, `Crash`,
  `UseAfterFree`); a run of buffer operations stops at the first whose assert does not hold.
* *Theorems about runs*: invariants that every step keeps, and from them statements about
  every state, or every pair of states, of every run. Histories that a machine keeps (bytes on the
  wire, tasks accepted, timers live, lines appended) are proved to be what the events of the run
  and the answers of the kernel say, by functions of the events alone.
* The *code*: a class with the source's fields, whose methods work step by step as the source
  does and are proved to be steps of the machine.

| component | machine | theorems | code |
|---|---|---|---|
| Buffer | `BufferSpec`, `IntCodec` | same | `BufferClass` |
| Channel and Epoll | `PollSpec` | same | `Polling` |
| TcpConnection | `ConnectionSpec` | `ConnectionProofs`, `ConnectionRuns`, `ConnectionBooks`, `ConnectionStreams`, `ConnectionCalls`, `ConnectionLedger`, `ConnectionLimits` | `TcpConnections` |
| EventLoop | `EventLoopSpec` | `EventLoopProofs`, `EventLoopLedger` | `EventLoops` |
| TimerQueue and Timer | `TimerSpec` | `TimerProofs`, `TimerHistory`, `TimerRuns`, `TimerReference`, `TimerLimits` | `TimerQueues` |
| AsyncLogging | `LoggingSpec` | `LoggingProofs`, `LoggingLosses`, `LoggingLedger` | `AsyncLoggings` |
| ThreadPool | `ThreadPoolSpec` | same | `ThreadPools` |
| EventLoop and TcpConnection together | `SendPipeline` | same | |

`dafny verify dfyconfig.toml` checks everything.

## What the connection machine covers

A run of a connection is any sequence of loop-thread events: `connectEstablished`, `send`,
sends queued by other threads and executed later, `shutdown`, `forceClose`, `stopRead`,
`startRead`, the application consuming input, a poll that reports a mask, and the dispatch of
each reported handler as an event of its own. Other events may fall between a poll and its
dispatch, which is how callbacks, tasks and other channels' handlers interfere. A write may take
any part of its bytes or fail with any error, after SHUT_WR only the latter; reads may bring any
amount up to what `readv` can deliver. The mark
and the set of callbacks are fixed at the start of a run.

## Where the code does not keep the general promise

Each of these is stated as an exact condition or as a lemma about every state of the kind.

* **Idle logging pass.** A pass of the background thread that finds nothing gives its spare
  buffer away and goes back to the start of the loop; the next pass that collects something
  empties the newest collected buffer for reuse before writing it. The comment there speaks of
  using a spare or creating one. `NothingLostExactly` says exactly which runs lose lines (this
  case and the deliberate drop above 25 buffers); `IdlePassLosesNextLine` shows the loss after
  one idle pass.
* **Refilling the spares.** On every run the asserts at the end of a logging pass fail exactly
  when the pass started without its first spare, `nextBuffer_` had been used up and two buffers
  were collected (`RecycleCrashesExactly`). An idle pass and two lines that together fill a
  buffer get there from the start (`IdlePassThenCrash`, `CrashIsReached`).
* **Logging after the end.** An append after the final flush dereferences a null pointer exactly
  when the flush took a non-empty current buffer away; otherwise its line never reaches the log
  (`LateAppendExactly`, `FinishedIsFinal`, `FinalLogExactly`).
* **Arming within a millisecond.** The delay is at least 1 ms, so the timerfd is armed by the
  earliest deadline exactly when it was programmed at least 1 ms before it (`DelayExact`,
  `AlwaysArmed`, `ArmedInTimeExactly`).
* **Cancelling.** `cancelTimer` deletes a timer that it does not find in the set, while the
  comment calls that safe. Between passes a cancel is safe exactly when the timer is in the set
  (`CancelSafeExactly`). A pass whose callbacks add and cancel anything goes through with every
  timer in its place exactly when each cancel is of a timer in the set (`PassSafeExactly`);
  otherwise it ends in a use after free or, when the freed address is handed out again, in an
  entry without a timer (`CancelInPassExactly`, `ReusedAddressDangles`).
* **Hang-up with error.** A reported mask makes the handlers abort exactly when it has EPOLLHUP
  and EPOLLERR without EPOLLIN (`MaskAbortsExactly`); and a connection closed between the poll
  and the dispatch of an error aborts (`CloseBeforeDispatchAborts`).
* **Sends after the half-close.** A send that another thread had queued may run after SHUT_WR. It
  calls `write` (`LateWritesExactly`), and unless that answers with a broken pipe the message
  becomes backlog that can never leave (`LateSendExactly`): so a closing connection has issued
  SHUT_WR exactly when it has no backlog or such a message was refused (`HalfCloseExactly`).
* **Calls from other threads.** `shutdown` and `forceClose` exchange the state after a separate
  load: the state moves backwards exactly when the race with a close is lost
  (`ForeignExchangeExact`), and the close callback can then run twice (`LostRaceClosesTwice`).
  The `shutdownInLoop` that `shutdown` queues is the second to issue SHUT_WR exactly when, at its
  turn, the connection is up, has no backlog and had some since the call; it issues the only one
  when there has been none, and leaves it to the drain while there is backlog
  (`ForeignShutdownExactly`).
* **Reading switched too early or too late.** `stopRead` and `startRead` do not look at the state.
  They can register the socket of a closed connection again (`ReadSwitchAfterClose`); and after a
  `startRead` before `connectEstablished` an end of file or a read error aborts
  (`EarlyStartReadAborts`).
* **Before `loop()`.** A task queued on the loop thread before `loop()` is not signalled, and a
  `quit` before it, by any thread, is forgotten (`EarlyQueueingIsNotSignalled`,
  `EarlyQuitIsForgotten`).
* **A pool without workers** accepts tasks and never runs them (`NoWorkersNoDrain`).

## Model

| member | source | states |
|---|---|---|
| `IntCodec.WidthsExact` | include/knetlib/Buffer.h:164-183 | the four widths are 1, 2, 4 and 8 bytes and hold the usual signed ranges |
| `IntCodec.EncodedBytes` | include/knetlib/Buffer.h:164-183 | byte i of an encoded signed value x is the digit x / 256^(size-1-i) modulo 256: network byte order, two's complement |
| `IntCodec.EncodedValue` | include/knetlib/Buffer.h:164-183 | read as an unsigned number, the bytes of x are x itself, or x plus 256 to the width when x is negative |
| `IntCodec.MostSignificantFirst` | include/knetlib/Buffer.h:164-183 | byte i of a bit pattern is its digit of weight 256^(k-1-i), for every width |
| `IntCodec.DecodeEncode` | include/knetlib/Buffer.h:164-242 | decoding undoes encoding for every signed value of 8, 16, 32 or 64 bits |
| `IntCodec.EncodeDecode` | include/knetlib/Buffer.h:213-242 | every byte string of the right size is the encoding of exactly the value read from it |
| `IntCodec.DecodeEncodeAll` | include/knetlib/Buffer.h:164-211 | a list of values of mixed widths is read back unchanged and the bytes behind it are untouched |
| `BufferSpec.EnsureWritableFacts` | include/knetlib/Buffer.h:144-150 | both branches of makeSpace keep the bytes and leave the room asked for, and the assert before sliding (reader above 8) holds, also after prepends |
| `BufferSpec.AppendGrowth` | include/knetlib/Buffer.h:287-301 | the vector grows only when sliding cannot make the room, and then to exactly the room asked for, by a bounded amount; the reader moves only by sliding down to 8 |
| `BufferSpec.SizesExact` | include/knetlib/Buffer.h:17-28 | 8 bytes in front and 1024 behind in a new buffer, 8 in front of a drained one, and a side buffer of 65536 for a read |
| `BufferSpec.ApplyFacts` | include/knetlib/Buffer.h:77-162 | each operation, wherever the reader stands, does to the bytes what its sequence meaning says and never shrinks the vector |
| `BufferSpec.RunRefinesSequence` | include/knetlib/Buffer.h:77-162 | any list of operations has the sequence model's bytes, up to the first one whose assert does not hold |
| `BufferSpec.AppendThenRetrieve` | include/knetlib/Buffer.h:77-139 | retrieving the old bytes after an append leaves exactly the appended ones |
| `BufferSpec.Search` | include/knetlib/Buffer.h:49-75 | the first occurrence at or after the start, or none anywhere |
| `BufferSpec.CrlfContainsEol` | include/knetlib/Buffer.h:49-75 | where findCRLF finds a line end, findEOL finds one no later than its LF |
| `BufferClass.Buffer.constructor` | include/knetlib/Buffer.h:20-28 | empty view, 8 bytes in front, the requested room behind |
| `BufferClass.Buffer.Swap` | include/knetlib/Buffer.h:30-35 | the two buffers exchange bytes, room and arrays |
| `BufferClass.Buffer.Retrieve` | include/knetlib/Buffer.h:77-84 | drops the first len bytes; a drained buffer returns both indices to 8 |
| `BufferClass.Buffer.RetrieveAll` | include/knetlib/Buffer.h:105-109 | empty view, indices at 8 |
| `BufferClass.Buffer.RetrieveAsString` | include/knetlib/Buffer.h:114-120 | returns the first len bytes and drops exactly those |
| `BufferClass.Buffer.Append` | include/knetlib/Buffer.h:134-139 | the array's view grows by exactly the data, through either branch of makeSpace |
| `BufferClass.Buffer.EnsureWritableBytes` | include/knetlib/Buffer.h:144-150 | room for len bytes, same view |
| `BufferClass.Buffer.MakeSpace` | include/knetlib/Buffer.h:287-301 | resize or overlapping move-down on the array computes the simple form; the assert in between holds |
| `BufferClass.Buffer.MoveDown` | include/knetlib/Buffer.h:294-296 | the forward copy onto an overlapping lower range moves the readable bytes unchanged |
| `BufferClass.Buffer.Prepend` | include/knetlib/Buffer.h:265-271 | data stands in front of the view, the rest is unchanged |
| `BufferClass.Buffer.ReadFd` | src/Buffer.cpp:12-35 | for every split between the tail and the 64 KiB side buffer the view grows by exactly the bytes read, in order; -1 changes nothing |
| `BufferClass.Buffer.FindCRLF` | include/knetlib/Buffer.h:49-61 | the first CR LF among the readable bytes from the start, or none |
| `BufferClass.Buffer.FindEOL` | include/knetlib/Buffer.h:63-75 | the first LF among the readable bytes from the start, or none |
| `BufferClass.Buffer.AppendInt` | include/knetlib/Buffer.h:164-183 | appends the network-order bytes of the value |
| `BufferClass.Buffer.PeekInt` | include/knetlib/Buffer.h:213-242 | the value whose encoding stands at the front |
| `BufferClass.Buffer.ReadInt` | include/knetlib/Buffer.h:185-211 | splits the view into the encoding of the returned value and the rest |
| `BufferClass.Buffer.PrependInt` | include/knetlib/Buffer.h:244-263 | puts the encoding in front |
| `BufferClass.Buffer.AppendFields` | include/knetlib/Buffer.h:164-183 | appending a record extends the view by its encoding |
| `BufferClass.Buffer.ReadFields` | include/knetlib/Buffer.h:185-211 | reading with the same widths returns the record and leaves what followed it |
| `BufferClass.Buffer.FrameWithLength` | include/knetlib/Buffer.h:192-271 | a header prepended is the header read, and the body is as before |
| `BufferClass.Buffer.Perform` | include/knetlib/Buffer.h:77-162 | every operation on the array is the operation of the sequence model |
| `BufferSpec.RunPairRefinesSequences` | include/knetlib/Buffer.h:30-162 | any list of operations on two buffers, swaps among them, has the sequence model's bytes in both |
| `BufferClass.PerformAll` | include/knetlib/Buffer.h:30-162 | carried out on two real arrays, such a list computes exactly that and stops at the first assert that does not hold |
| `PollSpec.ChangeExact` | src/Channel.cpp:69-88 | with agreement epoll_ctl never fails, the assert fails exactly for an unregistered channel left without interest, and otherwise pooling, kernel mask and events_ agree again |
| `PollSpec.RemoveExact` | src/Epoll.cpp:68-74 | removal leaves the channel unregistered on both sides |
| `PollSpec.AgreementOverRuns` | src/Epoll.cpp:49-99 | after any sequence of interest changes and removals on any descriptors, pooling holds exactly when the kernel has the entry, with mask events_ and non-zero |
| `PollSpec.StaysRegistered` | src/Channel.cpp:69-84 | since disableRead keeps EPOLLPRI, a channel that enabled reading stays in the kernel's list through any read and write changes |
| `PollSpec.InterestBits` | src/Channel.cpp:69-88 | each interest change sets and clears exactly its bits: EPOLLIN and EPOLLPRI on, EPOLLIN off, EPOLLOUT on and off, all off |
| `PollSpec.HandlersExact` | src/Channel.cpp:118-134 | close for EPOLLHUP without EPOLLIN, error for EPOLLERR, read for EPOLLIN, EPOLLPRI or EPOLLRDHUP, write for EPOLLOUT: each exactly then, at most once, and in this order |
| `Polling.Epoll.UpdateChannel` | src/Epoll.cpp:49-66 | ADD, MOD or DEL on the kernel table as the simple form says; other descriptors' entries are untouched |
| `Polling.Epoll.RemoveChannel` | src/Epoll.cpp:68-74 | drops the kernel entry if there is one; other entries are untouched |
| `Polling.Epoll.Ctl` | src/Epoll.cpp:76-99 | ENOENT is forgiven for MOD and DEL; only adding a descriptor that is already there is fatal, with nothing changed; otherwise the entry is the channel's mask or gone |
| `Polling.Channel.Set` | src/Channel.cpp:69-88 | adjusts the mask and the registration together |
| `Polling.SetOne` | src/Channel.cpp:110-112 | a change on one channel leaves every other channel's registration as it was |
| `ConnectionProofs.StepGood` | src/TcpConnection.cpp:192-336 | every possible event that is no misuse goes through without a failed assert and keeps the byte, interest, half-close and dispatch invariants |
| `ConnectionProofs.AssertFailsExactlyOnMisuse` | src/TcpConnection.cpp:74-253 | an assert of the connection fails exactly for a second or late connectEstablished, a shutdown after the close, or a close or error handler dispatched after the close |
| `ConnectionProofs.SendInLoopGood` | src/TcpConnection.cpp:266-318 | direct write, short write, refusal, broken pipe and queueing behind backlog all keep the stream and the interest in step |
| `ConnectionProofs.HandleWriteGood` | src/TcpConnection.cpp:214-243 | draining keeps the stream, stops watching EPOLLOUT exactly when the backlog is gone and then serves a pending half-close |
| `ConnectionProofs.HandleReadGood` | src/TcpConnection.cpp:192-213 | data, end of file and errors keep the invariant; a disconnected connection ignores the event |
| `ConnectionProofs.HandleCloseGood` | src/TcpConnection.cpp:244-253 | the close unregisters the channel and runs the close callback once |
| `ConnectionProofs.ForceCloseGood` | src/TcpConnection.cpp:153-165 | closes from any state that is up; a second call does nothing |
| `ConnectionProofs.KeepRestExact` | src/TcpConnection.cpp:307-317 | what was not written joins the backlog with EPOLLOUT watched and one high-water task if the mark is crossed |
| `ConnectionProofs.HandlersShape` | src/Channel.cpp:118-134 | the write handler comes last and is run exactly when EPOLLOUT is reported |
| `ConnectionRuns.InitInv` | src/TcpConnection.cpp:22-37 | a new connection meets the invariant, so runs from it are covered |
| `ConnectionRuns.RunsContinue` | src/TcpConnection.cpp:192-336 | no run gets stuck |
| `ConnectionRuns.OutputConservation` | src/TcpConnection.cpp:214-318 | accepted bytes are the wire followed by the backlog while the connection is up, and the wire is a growing prefix of them for ever |
| `ConnectionRuns.WritingMatchesBacklog` | src/TcpConnection.cpp:214-318 | EPOLLOUT is watched exactly while there is backlog, also for a write handler reported before other callbacks ran |
| `ConnectionRuns.RegisteredWhileUp` | src/TcpConnection.cpp:74-80 | the kernel watches the connection from connectEstablished to handleClose, and not afterwards |
| `ConnectionRuns.ReceiveConservation` | src/TcpConnection.cpp:192-213 | bytes consumed followed by the input buffer are the bytes taken from the socket |
| `ConnectionRuns.Lifecycle` | src/TcpConnection.cpp:153-273 | the state never moves back, Disconnected is final, the close callback has run exactly once by then, and later events touch neither buffers nor registration nor the counts of read and write calls |
| `ConnectionRuns.HalfClose` | src/TcpConnection.cpp:141-152 | SHUT_WR at most once, only with every accepted byte on the wire, nothing on the wire after it, and issued by the time a closing connection's backlog is gone |
| `ConnectionRuns.HalfCloseExactly` | src/TcpConnection.cpp:232-242 | over every run and every answer of write: a closing connection has issued SHUT_WR exactly when it has no backlog or a queued message was refused after SHUT_WR |
| `ConnectionRuns.LateSendExactly` | src/TcpConnection.cpp:279-317 | a queued send that runs after SHUT_WR calls write once and adds nothing to the wire: a broken pipe closes, any other error keeps the message as backlog |
| `ConnectionCalls.LateWritesExactly` | src/TcpConnection.cpp:279-281 | after SHUT_WR write is called again exactly when a queued send is run while the connection is up |
| `ConnectionCalls.CallsExactly` | src/TcpConnection.cpp:192-318 | between any two moments of any run, write and readv are called exactly as often as sends without watched backlog, write handlers and read handlers run on a connection that is up |
| `ConnectionCalls.NoCallsAfterClose` | src/TcpConnection.cpp:192-219 | once disconnected the socket is neither written nor read |
| `ConnectionCalls.DrainEnds` | src/TcpConnection.cpp:232-242 | dispatched writes that each take a byte empty the backlog within as many dispatches as there were bytes, counting those accepted meanwhile, and a closing connection has then issued SHUT_WR |
| `ConnectionLedger.KernelAnswersExactly` | src/TcpConnection.cpp:192-318 | between any two moments of any run the wire grows by exactly the bytes write reported, the rest of what was accepted is the backlog, and what readv delivered is, in order, consumed or in the input buffer |
| `ConnectionLedger.StateExactly` | src/TcpConnection.cpp:74-273 | at every step the next state is the one the event calls for; a connection that is up closes exactly on forceClose, a close or error report, end of file or a failed read, or EPIPE or ECONNRESET from write |
| `ConnectionLedger.ReadingExactly` | src/TcpConnection.cpp:167-183 | isReading is at every moment what connectEstablished, startRead and stopRead last asked for, whatever sends, drains and closes do |
| `ConnectionLedger.OneReadPerReport` | src/Channel.cpp:118-134 | a poll that reports EPOLLIN, EPOLLPRI or EPOLLRDHUP leads to exactly one readv once its handlers have been dispatched, any other to none, short of a close |
| `ConnectionBooks.WriteBooks` | src/TcpConnection.cpp:222-233 | handleWrite calls write once, and exactly the bytes it took leave the backlog for the wire |
| `ConnectionBooks.ReadBooks` | src/TcpConnection.cpp:198-212 | handleRead calls readv once, and exactly what arrived joins the input |
| `ConnectionBooks.SendLeaves` | src/TcpConnection.cpp:279-317 | sendInLoop leaves in the backlog exactly what the kernel did not take, nothing on a broken pipe |
| `ConnectionRuns.HighWaterPerCrossing` | src/TcpConnection.cpp:307-314 | between any two moments the high-water tasks queued are as many as the backlog's upward crossings of the mark |
| `ConnectionRuns.NextHighWater` | src/TcpConnection.cpp:307-314 | a step queues a high-water task, carrying the length reached, exactly when it crosses the mark |
| `ConnectionRuns.DropBetweenHighWaters` | src/TcpConnection.cpp:307-314 | between two notifications the backlog was below the mark |
| `ConnectionRuns.WriteCompleteExact` | src/TcpConnection.cpp:232-242 | a write-complete task is queued exactly by a step that finishes a send or drains the backlog, with every accepted byte on the wire |
| `ConnectionStreams.QueueConserved` | src/TcpConnection.cpp:111-126 | on every run, closed or not, messages sent from other threads leave the queue once each and in the order of submission |
| `ConnectionStreams.HandedInOrder` | src/TcpConnection.cpp:111-126 | sendInLoop is handed the sends accepted on the loop thread and the queued ones, in event order, whatever the mix |
| `ConnectionStreams.CrossThreadStream` | src/TcpConnection.cpp:108-318 | end to end, whoever sends: wire and backlog are exactly the messages handed over, in order, and the queued ones among them followed by the queue are exactly the messages other threads submitted |
| `ConnectionLimits.CloseBeforeDispatchAborts` | src/TcpConnection.cpp:244-264 | a close between the poll and the dispatch of an error makes the dispatch abort |
| `ConnectionLimits.MaskAbortsExactly` | src/Channel.cpp:118-134 | the handlers of a reported mask abort exactly for EPOLLHUP and EPOLLERR without EPOLLIN |
| `ConnectionLimits.ForeignExchangeExact` | src/TcpConnection.cpp:141-165 | the exchange by another thread keeps the connection's invariant exactly when the connection is not closed and no half-close is due at once; it moves the state backwards exactly after a close |
| `ConnectionLimits.LostRaceClosesTwice` | src/TcpConnection.cpp:153-165 | after losing the race the connection looks up while unregistered, and forceClose runs the close callback a second time |
| `ConnectionLimits.ForeignShutdownExactly` | src/TcpConnection.cpp:141-152 | after shutdown by another thread, at any moment of any run: the queued shutdownInLoop is the second to issue SHUT_WR exactly when the connection is up, has no backlog and had some since the call, and the first exactly when it is up and had none |
| `ConnectionLimits.ForeignShutdownIssuesTwice` | src/TcpConnection.cpp:232-237 | with backlog, the schedule that runs the queued task first leaves SHUT_WR to the drain, and the one that drains first issues it twice |
| `ConnectionLimits.ReadSwitchAfterClose` | src/TcpConnection.cpp:167-180 | on any closed connection stopRead and startRead register the socket again exactly when they change the mask |
| `ConnectionLimits.EarlyStartReadAborts` | src/TcpConnection.cpp:174-180 | startRead before connectEstablished registers the socket, and a read then aborts exactly when it brings the end of file or an error |
| `TcpConnections.TcpConnection.constructor` | src/TcpConnection.cpp:22-37 | the initial state of the machine, which meets the invariant |
| `TcpConnections.TcpConnection.ConnectEstablished` | src/TcpConnection.cpp:74-80 | Connected, registered for reading |
| `TcpConnections.TcpConnection.Send` | src/TcpConnection.cpp:111-119 | does nothing unless connected, otherwise sendInLoop's step |
| `TcpConnections.TcpConnection.SendInLoop` | src/TcpConnection.cpp:266-318 | the code over the array buffer and the channel is the machine's step, its assert included, and the output buffer gains exactly what was not taken |
| `TcpConnections.TcpConnection.HandleRead` | src/TcpConnection.cpp:192-213 | the code over readFd is the machine's step, and the input buffer gains exactly what arrived |
| `TcpConnections.TcpConnection.HandleWrite` | src/TcpConnection.cpp:214-243 | given EPOLLOUT interest and backlog, as its asserts demand and DispatchNext derives from the invariant, the code is the machine's step, and the output buffer loses exactly the bytes taken |
| `TcpConnections.TcpConnection.HandleClose` | src/TcpConnection.cpp:244-253 | the code is the machine's step |
| `TcpConnections.TcpConnection.Shutdown` | src/TcpConnection.cpp:141-152 | on the loop thread, the machine's step |
| `TcpConnections.TcpConnection.ShutdownInLoop` | src/TcpConnection.cpp:323-330 | issues SHUT_WR exactly when up and without EPOLLOUT interest |
| `TcpConnections.TcpConnection.ForceClose` | src/TcpConnection.cpp:153-165 | on the loop thread, the machine's step |
| `TcpConnections.TcpConnection.StopRead` | src/TcpConnection.cpp:167-173 | on a connection that is up, the machine's step |
| `TcpConnections.TcpConnection.StartRead` | src/TcpConnection.cpp:174-180 | on a connection that is up, the machine's step |
| `TcpConnections.TcpConnection.DispatchNext` | src/Channel.cpp:118-134 | the next reported handler, run on the code, is the machine's dispatch |
| `TcpConnections.TcpConnection.Perform` | src/TcpConnection.cpp:74-336 | every event carried out on buffers, channel and poller is one step of the machine |
| `TcpConnections.TcpConnection.Handle` | src/TcpConnection.cpp:74-336 | hence the code keeps the invariant behind every theorem about runs |
| `EventLoopProofs.InitInv` | src/EventLoop.cpp:36-56 | a new loop with any number of producers meets the invariant |
| `EventLoopProofs.StepKeeps` | src/EventLoop.cpp:86-153 | every step of any number of producers and of the loop thread keeps queue and wakeup invariants |
| `EventLoopProofs.NoLostWakeup` | src/EventLoop.cpp:86-153 | at the blocking poll with work queued or a quit requested, the eventfd is readable or a producer still owes its write |
| `EventLoopProofs.WakeupReadSucceeds` | src/EventLoop.cpp:215-225 | the wakeup handler always finds the counter positive |
| `EventLoopProofs.FifoExactlyOnce` | src/EventLoop.cpp:121-140 | executed tasks, the rest of the batch and the pending ones are exactly the tasks pushed, in order, at every moment |
| `EventLoopLedger.LedgerExact` | src/EventLoop.cpp:121-153 | on every run from a new loop the tasks pushed are those of the push steps in order, one task is executed per run step, and the eventfd holds the writes since its last read, up to its maximum |
| `EventLoopLedger.ExecutedExactly` | src/EventLoop.cpp:182-194 | what has been executed is exactly the first tasks pushed, as many as run steps were taken |
| `EventLoopLedger.QuitExactly` | src/EventLoop.cpp:100-105 | quit is set exactly after a request |
| `EventLoopProofs.PassRunsExactlyItsBatch` | src/EventLoop.cpp:182-194 | during a pass, executed and remaining tasks are what was pending at the swap, whatever is queued meanwhile |
| `EventLoopProofs.PassComplete` | src/EventLoop.cpp:182-194 | at its end the pass has run exactly those |
| `EventLoopProofs.QuietStep` | src/EventLoop.cpp:86-98 | the loop thread alone is never blocked while tasks are unexecuted, and each step makes progress |
| `EventLoopProofs.LoopDrainsQueue` | src/EventLoop.cpp:86-98 | left alone, the loop thread runs every task pushed so far |
| `EventLoopProofs.RemainingFalls` | src/EventLoop.cpp:86-98 | whatever any thread does, short of a quit, the bound on the loop's own steps until the tasks pushed so far are executed does not grow, and each step of the loop lowers it |
| `EventLoopProofs.BoundedResponse` | src/EventLoop.cpp:86-140 | over every interleaving without a quit, every task pushed by a moment is executed within ten of the loop's own steps per task waiting then, and ten more, whatever is pushed meanwhile |
| `EventLoopProofs.QuitIsServed` | src/EventLoop.cpp:86-105 | once quit is set and signalled, loop() returns by its own steps after finishing its batch |
| `EventLoopProofs.EarlyQueueingIsNotSignalled` | src/EventLoop.cpp:121-130 | queueing on the loop thread before loop() adds no wakeup: the poll can return for it exactly when the eventfd was readable before |
| `EventLoopProofs.EarlyQuitIsForgotten` | src/EventLoop.cpp:86-105 | a quit before loop(), by another thread or on the loop thread, is overwritten |
| `EventLoops.EventLoop.QueueInLoop` | src/EventLoop.cpp:121-130 | push, then wakeup when on another thread or inside a batch: the machine's two steps in a row |
| `EventLoops.EventLoop.Wakeup` | src/EventLoop.cpp:143-153 | the counter is positive and in range afterwards; a full counter refuses the write |
| `EventLoops.EventLoop.Quit` | src/EventLoop.cpp:100-105 | the flag, then a wakeup from another thread |
| `EventLoops.EventLoop.HandleRead` | src/EventLoop.cpp:215-225 | the counter is read back to zero: the machine's step |
| `EventLoops.EventLoop.DoPendingTasks` | src/EventLoop.cpp:182-194 | runs exactly what was pending, in order; what the tasks queue stays for the next pass and is signalled |
| `SendPipeline.InitInv` | src/TcpConnection.cpp:22-37 | a new loop and a new connection start in step |
| `SendPipeline.MoveKeeps` | src/TcpConnection.cpp:111-126 | loop and connection together: no move of producers, loop thread or connection fails an assert, and the sends in batch and queue stay the connection's queue |
| `SendPipeline.RunSendIsQueuedSend` | src/EventLoop.cpp:182-194 | the send that the loop runs next is the oldest one submitted and not yet run |
| `SendPipeline.ProducersToWire` | src/TcpConnection.cpp:111-126 | from the producers to the wire over every interleaving: the messages on wire and in backlog, then those in batch and queue, are the sends pushed, in push order; when both are empty all are on the wire |
| `SendPipeline.WaitingSendIsSignalled` | src/EventLoop.cpp:121-153 | a send waiting while the loop stands at its poll has its wakeup |
| `SendPipeline.SendsAreServed` | src/TcpConnection.cpp:111-126 | every send pushed by a moment is handed to sendInLoop in push order within that bound of the loop's own steps, if the connection stays up and nobody quits |
| `TimerSpec.DelayExact` | src/TimerQueue.cpp:29-64 | the programmed delay is exactly max(when - now, 1 ms), nanoseconds below 10^9, never the disarming zero; and it ends by the deadline exactly when that is at least 1 ms away |
| `TimerSpec.InsertFacts` | src/TimerQueue.cpp:91-91 | insertion keeps the set ordered and adds exactly the entry |
| `TimerSpec.LowerBound` | src/TimerQueue.cpp:150-153 | splits the set at the key |
| `TimerProofs.AddKeeps` | src/TimerQueue.cpp:87-100 | adding keeps every live timer in the set or the batch once, under its own deadline |
| `TimerProofs.CancelKeeps` | src/TimerQueue.cpp:102-120 | cancelling a timer of the set removes its entry and frees it, nothing else |
| `TimerProofs.FireOneKeeps` | src/TimerQueue.cpp:127-140 | a turn goes through, fires its timer once and reinserts or frees it, whatever adds its callback makes and whatever timers of the set it cancels |
| `TimerHistory.FireOneTraces` | include/knetlib/Timer.h:36-39 | a turn adds exactly one firing to its timer's history in the log, one interval after the last, and none to any other's |
| `TimerProofs.ExpiredExact` | src/TimerQueue.cpp:148-157 | getExpired returns exactly the entries due, in deadline order, and leaves exactly the rest |
| `TimerHistory.EmptyInv` | src/TimerQueue.cpp:68-76 | a new queue meets the invariant |
| `TimerHistory.PassKeeps` | src/TimerQueue.cpp:122-145 | a pass goes through without a failed assert or a use after free, fires exactly the due timers once each in order, keeps every live timer on its grid and arms the timerfd again |
| `TimerRuns.StepKeeps` | src/TimerQueue.cpp:87-145 | add, cancel, kernel expiry and handleRead go through and keep ownership, arming and history; no assert fails and freed timers are never touched |
| `TimerRuns.AlwaysArmed` | src/TimerQueue.cpp:87-145 | a non-empty queue always has its timerfd readable or armed, and armed by the earliest deadline exactly when it was programmed at least 1 ms before |
| `TimerRuns.TimersConserved` | src/TimerQueue.cpp:122-157 | at every moment the live timers are exactly those in the set, each once under its own when() |
| `TimerRuns.NoDriftOverRuns` | src/TimerQueue.cpp:126-144 | at every moment of every run the n-th logged firing of a live timer was for its first deadline plus n intervals, and its deadline is the next of that row |
| `TimerReference.QueueMatchesRequests` | src/TimerQueue.cpp:87-145 | on every run the live timers are exactly those the calls ask for, with the deadline and interval asked for, and the set holds exactly their deadlines after the firings so far |
| `TimerReference.TurnExact` | src/TimerQueue.cpp:131-139 | a turn leaves a timer with an interval in the set one interval later and frees any other, whatever its callback adds and is allowed to cancel |
| `TimerRuns.PassConsumesExpiration` | src/TimerQueue.cpp:124-124 | after handleRead the timerfd is not readable |
| `TimerRuns.PassFiresDueTimersOnce` | src/TimerQueue.cpp:122-145 | each pass of each run fires exactly the timers due, once each, however late |
| `TimerRuns.RestartPaysOne` | include/knetlib/Timer.h:36-39 | one restart lowers the number of overdue periods by exactly one |
| `TimerRuns.FireOnePays` | src/TimerQueue.cpp:127-140 | firing a due timer pays exactly one firing owed |
| `TimerRuns.PassPays` | src/TimerQueue.cpp:122-145 | with the clock held still a pass lowers the firings owed by the number of due timers |
| `TimerRuns.CatchUpTerminates` | src/TimerQueue.cpp:126-144 | so a bounded number of passes leaves nothing due |
| `TimerRuns.FiringsBounded` | src/TimerQueue.cpp:87-145 | on every run, whatever is added and cancelled, as long as no clock reading passes a moment and nobody adds a timer already due then, the firings made and still owed at that moment never exceed those owed before |
| `TimerLimits.ArmedInTimeExactly` | src/TimerQueue.cpp:29-40 | a new earliest timer is armed by its deadline exactly when that is at least 1 ms away |
| `TimerLimits.CancelSafeExactly` | src/TimerQueue.cpp:102-120 | between passes a cancel is safe exactly for a timer in the set |
| `TimerLimits.PassSafeExactly` | src/TimerQueue.cpp:102-145 | whatever callbacks add and cancel, a pass goes through and leaves every timer in its place exactly when each cancel is of a timer in the set at that moment |
| `TimerLimits.CancelInPassExactly` | src/TimerQueue.cpp:102-145 | a lone cancel from the callback that fires next lets the pass go through exactly for a timer in the set, not for one of the batch being fired |
| `TimerLimits.ReusedAddressDangles` | src/TimerQueue.cpp:102-145 | a callback that cancels the next timer of its batch and adds one at the freed address lets both turns return and leaves an entry without a timer |
| `TimerLimits.SelfCancelIsUseAfterFree` | src/TimerQueue.cpp:131-134 | a callback that cancels its own timer leads to a use after free |
| `TimerQueues.TimerQueue.TimerfdSet` | src/TimerQueue.cpp:54-64 | the timerfd is armed for the later of the deadline and 1 ms from now |
| `TimerQueues.TimerQueue.AddTimer` | src/TimerQueue.cpp:87-100 | stores the timer with the deadline and interval asked for, inserts its entry, which is new as asserted, and programs the timerfd when it is the first |
| `TimerQueues.TimerQueue.CancelTimer` | src/TimerQueue.cpp:102-120 | the search loop removes the timer's entry if there is one and frees the timer either way |
| `TimerQueues.TimerQueue.GetExpired` | src/TimerQueue.cpp:148-157 | splits the set at the first entry that is not due |
| `TimerQueues.TimerQueue.Fire` | src/TimerQueue.cpp:127-140 | one turn of the loop is the machine's turn; the assert holds |
| `TimerQueues.TimerQueue.HandleRead` | src/TimerQueue.cpp:122-145 | the whole pass is the machine's pass, keeps the invariant and fires exactly the due timers |
| `LoggingProofs.InitialInv` | src/AsyncLogging.cpp:10-22 | a new logger meets the invariant |
| `LoggingProofs.StepKeeps` | src/AsyncLogging.cpp:43-203 | append, exchange, write, recycling, stop and final flush keep conservation and the spares; the reuse asserts hold |
| `LoggingProofs.LoggingConservation` | src/AsyncLogging.cpp:43-203 | log, buffers being written, waiting buffers and current buffer hold every appended line whole and in order; both spares are there at each pass start; after the final flush the log is everything |
| `LoggingProofs.LogOnlyGrows` | src/AsyncLogging.cpp:139-159 | the log is a growing prefix of the appended lines |
| `LoggingLedger.AppendedAreLines` | src/AsyncLogging.cpp:43-67 | on every run from a new logger the bytes counted as appended are those of the lines appended, in order |
| `LoggingLedger.FinalLogBytes` | src/AsyncLogging.cpp:184-203 | byte for byte, on a run that lost nothing the final log is all lines back to back |
| `LoggingLedger.RunningUntilStopped` | src/AsyncLogging.cpp:35-41 | the background thread is told to go on exactly until the stop |
| `LoggingLedger.SwitchExactly` | src/AsyncLogging.cpp:46-53 | append goes on to the next buffer exactly when the line would fill the current one to 65536 bytes |
| `LoggingLedger.BuffersStaySmall` | src/AsyncLogging.cpp:43-67 | on every run every buffer in use holds less than 65536 bytes or a single line |
| `LoggingProofs.ExchangeKeeps` | src/AsyncLogging.cpp:84-137 | what one exchange keeps, in contract or not |
| `LoggingLosses.ExchangeLosesExactly` | src/AsyncLogging.cpp:99-137 | an exchange loses lines exactly when it collects some and the first spare is missing or more than 25 buffers are collected |
| `LoggingLosses.KeptExact` | src/AsyncLogging.cpp:98-137 | what an exchange goes on to write is a prefix of what it collected: without the last buffer when the first spare is missing, and the first two when more than 25 remain |
| `LoggingLosses.NothingLostExactly` | src/AsyncLogging.cpp:43-203 | on any run, up to a crash, every line is in the log or on its way exactly when no exchange so far was of that kind |
| `LoggingLosses.FinalLogExactly` | src/AsyncLogging.cpp:184-203 | once the thread has finished, the log is everything exactly when no exchange lost lines and no line came after the final flush |
| `LoggingLosses.LateAppendExactly` | src/AsyncLogging.cpp:43-47 | an append after the final flush crashes exactly when the flush took a non-empty current buffer; otherwise its line stays out of the log |
| `LoggingLosses.FinishedIsFinal` | src/AsyncLogging.cpp:184-203 | nothing reaches the log after the final flush |
| `LoggingLosses.SpareAfterPassExactly` | src/AsyncLogging.cpp:109-128 | a pass goes straight back to its start exactly when nothing is left to write, and then without its first spare |
| `LoggingLosses.RecycleCrashesExactly` | src/AsyncLogging.cpp:98-179 | on every run a pass fails its refill asserts exactly when it started without its first spare, nextBuffer_ had been used up and it collected two buffers |
| `LoggingLosses.CrashesExactly` | src/AsyncLogging.cpp:43-203 | on every run the next step crashes in two cases only: the refill after writing a single buffer without a second spare, and an append after a final flush that took the current buffer |
| `LoggingLosses.IdlePassThenCrash` | src/AsyncLogging.cpp:98-179 | after any idle pass, two lines that together fill a buffer make the next pass fail |
| `LoggingLosses.CrashIsReached` | src/AsyncLogging.cpp:98-179 | from the start: an idle pass, two lines of 40000 bytes and one pass reach the failed assert |
| `LoggingLosses.IdlePassLosesNextLine` | src/AsyncLogging.cpp:99-128 | after an idle pass the next short line is discarded by the pass that collects it |
| `AsyncLoggings.AsyncLogging.constructor` | src/AsyncLogging.cpp:10-22 | four distinct empty buffers, the machine's initial state |
| `AsyncLoggings.AsyncLogging.PairwiseDistinct` | src/AsyncLogging.cpp:69-182 | current, next, spare, waiting and written buffers are pairwise different objects |
| `AsyncLoggings.AsyncLogging.Append` | src/AsyncLogging.cpp:43-67 | the pointer moves and the insertion are the machine's append |
| `AsyncLoggings.AsyncLogging.Exchange` | src/AsyncLogging.cpp:84-137 | the critical section on heap buffers is the machine's exchange |
| `AsyncLoggings.AsyncLogging.WriteOne` | src/AsyncLogging.cpp:139-159 | one buffer's lines reach the log |
| `AsyncLoggings.AsyncLogging.RecycleBuffers` | src/AsyncLogging.cpp:161-181 | given enough written buffers, as its asserts demand and Handle derives from the invariant, refilling and emptying the spares is the machine's recycling |
| `AsyncLoggings.AsyncLogging.Flush` | src/AsyncLogging.cpp:184-203 | everything left is written |
| `AsyncLoggings.AsyncLogging.Handle` | src/AsyncLogging.cpp:43-203 | any step in contract, carried out on heap buffers, keeps ownership and conservation |
| `ThreadPoolSpec.InitInv` | src/ThreadPool.cpp:3-23 | a new pool with at least one worker meets the invariant |
| `ThreadPoolSpec.StepKeeps` | src/ThreadPool.cpp:3-35 | every step of producers, workers and destructor keeps the task and wakeup invariants |
| `ThreadPoolSpec.PoolDrains` | src/ThreadPool.cpp:3-35 | on every run of a pool with workers the tasks taken and then those queued are exactly the tasks added before the stop, in order; each is run at most once; and when all workers have returned each has been run exactly as often as it was added |
| `ThreadPoolSpec.AcceptedAreAdded` | include/knetlib/ThreadPool.h:37-46 | the tasks accepted are those of the add steps before the stop, in order, and the pool is stopped exactly after the stop |
| `ThreadPoolSpec.DoneIsFinished` | src/ThreadPool.cpp:16-19 | the tasks counted as run are those that workers have finished, in order |
| `ThreadPoolSpec.QueuedWorkIsServed` | src/ThreadPool.cpp:10-17 | queued work always has a worker able to move or a notify still to come |
| `ThreadPoolSpec.JoinIsBounded` | src/ThreadPool.cpp:25-35 | once the destructor joins, workers take a bounded number of further steps on any schedule |
| `ThreadPoolSpec.JoinNeverBlocks` | src/ThreadPool.cpp:25-35 | and until all have returned some worker can move |
| `ThreadPoolSpec.NoWorkersNoDrain` | src/ThreadPool.cpp:3-5 | on every run of a pool of size zero no accepted task is ever taken or run |
| `ThreadPools.ThreadPool.Enqueue` | include/knetlib/ThreadPool.h:37-46 | refused exactly after stop; otherwise queued last and one sleeper is notified |
| `ThreadPools.ThreadPool.TakeTask` | src/ThreadPool.cpp:10-17 | the worker's critical section: sleep, return, or take the front task |
| `ThreadPools.ThreadPool.Shutdown` | src/ThreadPool.cpp:25-30 | stop is set and no worker is left asleep |

## Left out

- Addresses, sockets, the acceptor and small system-call helpers (src/Socket.cpp, src/InetAddress.cpp, src/Acceptor.cpp, src/utils.cpp): thin wrappers.
- Connector and TcpClient: callback wiring around connect and its retries.
- TcpServer and TcpServerSingle: shared-pointer ownership and teardown.
- EventLoopThread and EventLoopThreadPool: start handshake and round-robin choice, easy members.
- The legacy echo path (src/Connection.cpp, src/Server.cpp), examples and scripts.
- Logger front end and the naming of rolled files (src/AsyncLogging.cpp:205-253): the rolled files count as one log, and fopen and fwrite succeed.
- `Channel::tie`, `useET`, `setUseThreadPool` and destructors: object lifetime or empty stubs.
- `EventLoop::loop` and `runInLoop`: the loop is the machine's program counter rather than a method, and runInLoop is a direct call or queueInLoop.
- `Epoll::poll`: the growth of its event vector and EINTR; the connection machine starts from the mask reported for one channel.
- EBADF from epoll_ctl: descriptors in the model are open.
- Clocks: one clock in nanoseconds on unbounded integers; system_clock against CLOCK_MONOTONIC and 64-bit overflow are not modelled.
- Memory order: every atomic access and every critical section is one sequentially consistent step.
- Timer objects are values in a map from addresses, so that reading a freed one shows; they are not heap objects of Dafny.
- Log buffers hold the list of lines copied into them; their bytes are that list's concatenation, and `append` with a negative length is not modelled. The capacity reserved by `reserve` is not modelled.
- `stopRead` and `startRead` outside the time between connectEstablished and the close appear only in the lemmas of `ConnectionLimits`.
- A failing `::shutdown` call: it is only logged, and the model counts the call.
- assertInLoopThread: loop-thread code is called on the loop thread.
- `send(Buffer&)`: sendInLoop of the buffer's bytes followed by retrieveAll, both modelled apart.
- `shutdown` and `forceClose` from other threads appear only in the theorems of `ConnectionLimits` about what they break; the other run theorems are about loop-thread calls, and sends from any thread.
- Data appended to a buffer is a value, so appending a buffer to itself is not modelled.
- Callbacks run as further events of the run, in any order the machine allows, not as nested calls; replacing the callbacks or the mark in the middle of a run is not modelled.
- LoggingProofs.LoggingConservation: assumes passes that find between 1 and 25 buffers; the general case is LoggingLosses.NothingLostExactly.
- TimerRuns.AlwaysArmed: does not promise a wakeup by the earliest deadline when that is less than 1 ms after programming, because the code never programs a shorter delay.
- TimerRuns.CatchUpTerminates: callbacks leave the queue alone; TimerRuns.FiringsBounded allows them any cancel and any timer not yet due, because a callback that keeps adding due timers prolongs the catch-up for ever.
- EventLoops.EventLoop.DoPendingTasks: runs without producers in between; interleavings with producers are in EventLoopProofs.
