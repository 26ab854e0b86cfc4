# muduo-notes: a verified model

muduo is a multi-threaded reactor library for network servers: one event loop per thread, connections that live on an
I/O loop and are named on the base loop, timers behind one timerfd, buffers, an asynchronous logger. Most of what its
code asserts holds only because of how threads, loops and queues work together. This project states those properties in
Dafny 4.11 and proves them.

Every protocol is given twice. A *step function* on values says what one atomic action does; it is total, and an action
that is not enabled changes nothing. An invariant is proved of every step and so of every finite sequence of steps, in
any interleaving; the theorems about runs follow. A *class* with the fields of the source then performs the same steps
in the source's own order of statements, and each method is proved to change its state exactly as the step function
does. What each step changes is also stated on its own, without the handlers: on the events of a report, the result of a
system call, the functor that runs or the arguments of the caller, in every state that a run can reach (the modules
`TcpServerEffects`, `TcpOutputEffects`, `TimerSchedule`, `ConnectorOutcomes` and `HttpGrammar`). System calls are
parameters: what `write`, `readv`, `connect`, `poll` or the clock return is arbitrary within their documented contracts.

| file | what it models |
|---|---|
| `Date.dfy`, `TimeZone.dfy` | Julian day numbers; UTC break-down; local time over a table of transitions (section 3.2 of RFC 8536) |
| `Buffer.dfy`, `Receiving.dfy` | the byte buffer; any sequence of its operations; a request received in pieces |
| `HttpContext.dfy`, `HttpGrammar.dfy` | the incremental parser of request line and header fields (sections 3.1.1 and 3.2 of RFC 7230), and what it accepts |
| `TimerQueue.dfy`, `TimerRuns.dfy`, `TimerSchedule.dfy`, `TimerQueueClass.dfy` | the timer queue: steps and invariant, theorems on runs, when callbacks run, the class |
| `EventLoop.dfy`, `EventLoopClass.dfy` | the functor queue with its eventfd |
| `TcpOutput.dfy`, `TcpOutputEffects.dfy`, `TcpConnection.dfy` | the output path of a connection |
| `TcpServer.dfy`, `TcpServerInvariant.dfy`, `TcpServerRuns.dfy`, `TcpServerEffects.dfy`, `TcpServerClass.dfy` | the life of connections across the loops |
| `AsyncLog.dfy`, `AsyncLogging.dfy` | the asynchronous logger and its fixed buffers |
| `Pollers.dfy`, `BothPollers.dfy` | channels, the epoll poller and the poll poller; the same run on both |
| `Common.dfy` | shared datatypes |
| `Connector.dfy`, `ConnectorOutcomes.dfy` | the client connector with its retries, and what becomes of every attempt |
| `ThreadPool.dfy`, `ThreadPoolClass.dfy` | the thread pool's monitor |

`dafny verify dfyconfig.toml` checks everything.

## Where the code falls short of what one would expect

For each there is a member that shows the failure on an input or in a run from the start, and one that says exactly when
it happens.

- A message that another thread sends just before `shutdown` can be lost: a writable event between the two calls and
  their functors drains the buffer and half-closes at once (`TcpOutput.PostedMessageIsLost`). Exactly the messages that
  wait in the queue at the half-close are lost (`TcpOutput.ExactlyTheWaitingAreLost`); with both calls in the loop thread
  there are none (`TcpOutput.GracefulShutdown`).
- A queued shutdown that runs after the connection was closed shuts a socket with bytes still pending
  (`TcpOutput.HalfClosedWithBytesPending`, `TcpOutput.HalfCloseIsClean`).
- A hang-up without input that comes together with priority data or a peer shutdown closes a connection twice when the
  read then finds the end of input (`TcpServerRuns.ClosedTwice`, `TcpServerInvariant.FailsExactly`), and delivers a
  message after the down callback when it finds something (`TcpServerRuns.MessageAfterDown`,
  `TcpServerRuns.MessagesBetweenUpAndDown`).
- A `startRead` posted from another thread that runs after the connection was closed switches reading on again; unless a
  posted `stopRead` follows, destroying the connection fails the assertion that its channel asks for nothing
  (`TcpServerRuns.DestroyedWhileReading`, `TcpServerInvariant.DestroyFailsExactly`).
- Closing a connection whose channel asks for nothing, because reading was stopped and nothing was pending, adds its
  descriptor to epoll instead of deleting it: a later hang-up of the peer closes the connection a second time
  (`TcpServerRuns.HangupAfterClose`, `TcpServerRuns.ClosedCanFailExactly`).
- Lines in the logger's buffers are never written if `stop()` finds the back end anywhere but between its test of
  `running_` and its collection (`AsyncLogs.LostAtStop`, `AsyncLogs.WrittenAtStop`, `AsyncLogs.StopLosesExactly`). A line
  of 4,000,000 bytes or more is dropped silently (`AsyncLogs.LongLineIsDropped`, `AsyncLogs.KeptIffShort`).
- A functor queued by the loop thread before `loop()`, or from the destructor of a functor, does not wake the loop
  (`EventLoops.PushBeforeLoopStalls`, `EventLoops.PushFromDestructorStalls`, `EventLoops.SelfPushStallsExactly`). A
  `quit()` before `loop()` is forgotten (`EventLoops.QuitBeforeLoopIsLost`, `EventLoops.QuitLostExactly`).
- `stop()` of the thread pool drops every queued task but one for each worker already past its test of `running_`
  (`ThreadPools.DroppedAtStop`, `ThreadPools.StopDropsExactly`).
- A cancel that overtakes the insertion of its timer is forgotten (`TimerRuns.CancelBeforeInsertion`,
  `TimerRuns.CancelTakesEffectExactly`).
- A retry timer that fires in the same round as the failed attempt finds the channel still there and fails an assertion
  (`Connectors.ImmediateRetryFails`, `Connectors.AttemptNeedsReset`).
- A clock set back by anything but one hour from daylight saving to standard time is not undone by `fromLocalTime`
  (`TimeZone.StandardTimeSetBackIsLost`, `TimeZone.LocalRoundTripExactly`).
- Far before 1970 `tm_wday` is negative on most days and `tm_yday` is one short in the first year of the range
  (`TimeZone.DayCountsBeforeDayZero`, `TimeZone.UtcDayCounts`).
- A channel whose first update asks for no event cannot be removed from the poll poller without failing an assertion
  (`Pollers.RemoveFailsAfterAskingForNothing`, `Pollers.SlotIgnored`). A channel removed from it keeps its index, so that
  adding it again fails (`Pollers.AddAfterRemoveFails`, `Pollers.UpdateAllowedExactly`); with the epoll poller it works
  (`Pollers.RemoveThenAdd`).
- `parseRequest` entered after a complete request never returns (`Http.ReenteredNeverReturns`,
  `Http.LoopEndsExactly`). A header line without a colon
  ends the headers like an empty line (`Http.HeaderAfterColonlessLineIsUnread`, `Http.ColonlessLineEndsHeaders`).

## Model

| member | source | states |
|---|---|---|
| TcpServerRuns.EveryRun | muduo/net/TcpServer.cc:58-102 | in every interleaving of base loop, I/O loops and callers, reading switched on and off included: each connection passes established, closed, erased, destroyed in this order, each at most once; its name is known exactly until it is erased, its channel is in the poller exactly from established to destroyed; while it is up the kernel watches it exactly if the channel asks for something; between close and destruction it asks exactly if reading was switched on last, and is watched exactly in the cases of Rearmed; an assertion has failed exactly if some step was a failing one |
| TcpServerRuns.EveryCarefulRun | muduo/net/TcpConnection.cc:222-330 | in every run without events that close twice, without a posted read switch overtaken by the close and without a close of a connection that asks for nothing: no assertion fails, channels ask for events and are watched only while their connection is up, and only such connections wait for events |
| TcpServerInvariant.ApplyInv | muduo/net/TcpConnection.cc:222-254 | every step, without exception, keeps: connection stage, name map, channel, kernel registration and the functors queued in every loop agree |
| TcpServerInvariant.FailsExactly | muduo/net/TcpConnection.cc:394-398 | a step fails an assertion exactly if it is a dispatch that closes twice or closes a closed connection, or the destruction of a connection for which reading was last switched on after its close |
| TcpServerRuns.RunFailsExactly | muduo/net/TcpConnection.cc:394-398 | a run fails exactly if one of its steps does |
| TcpServerRuns.MilestonesStay | muduo/net/TcpConnection.cc:308-330 | along any run the milestones of a connection only grow, and it never changes its loop |
| TcpServerRuns.Settled | muduo/net/TcpServer.cc:84-102 | when all queues are empty every connection is up or has been through its whole life: no close is left half done |
| TcpServerRuns.ReadyToDelete | muduo/net/TcpConnection.cc:46-50 | a connection held by no name and no destroy functor is disconnected and its channel is out of the poller, as the destructors assert |
| TcpServerRuns.BarePointersAreSafe | muduo/net/TcpConnection.cc:177-186 | a queued functor bound to the connection without owning it (send, shutdown, startRead, stopRead) runs before that connection is destroyed |
| TcpServerRuns.LoopCanGoOn | muduo/net/EventLoop.cc:114-133 | the next event or functor always finds its connection, for events one that has been up and is not destroyed |
| TcpServerEffects.DownExactly | muduo/net/TcpConnection.cc:343-347 | a connection goes down in a step if and only if it was up and its report is a hang-up without input, or input, priority data or a peer shutdown of which the read returns nothing, or its forced close runs, in whichever loop |
| TcpServerEffects.ConnectionExactly | muduo/net/TcpConnection.cc:222-407 | for every step and every connection: the milestones gained, one message for a read that returns bytes while up and one late message after the close, the state and both interests of the channel; everybody else is untouched |
| TcpServerEffects.AcceptExactly | muduo/net/TcpServer.cc:58-82 | a connection appears exactly when the listening socket is handled: with the next number, its name entered, up at once if and only if it belongs to the base loop |
| TcpServerEffects.LoopExactly | muduo/net/EventLoop.cc:114-133 | every step moves a loop only by its own reports and functors and appends to a queue exactly what the call, the close or the removal posts there |
| TcpServerEffects.FirstInFirstOut | muduo/net/EventLoop.cc:263-278 | the functors of a loop run in the order in which they were posted; none is lost or invented |
| TcpServerInvariant.DispatchFailsExactly | muduo/net/Channel.cc:67-102 | handling events fails exactly for a hang-up without input together with priority data or peer shutdown and a read of zero bytes, or for events that close a closed connection; otherwise the invariant is kept |
| TcpServerRuns.ClosedTwice | muduo/net/Channel.cc:71-95 | a run from the start in which such a report closes a connection twice |
| TcpServerRuns.MessagesBetweenUpAndDown | muduo/net/TcpConnection.cc:332-354 | the user gets messages only between the up and the down callback, except exactly when a read finds something after the close: after such a hang-up, or because reading was switched on again |
| TcpServerRuns.LateMessagesExactly | muduo/net/TcpConnection.cc:332-354 | along any run a message has come after the down callback exactly if one of these steps occurred |
| TcpServerRuns.MessageAfterDown | muduo/net/Channel.cc:71-95 | a run from the start with such a message |
| TcpServerRuns.DestroyedWhileReading | muduo/net/TcpConnection.cc:278-291 | a run from the start: startRead is posted, a hang-up closes first, the functor switches reading on, and destruction fails |
| TcpServerRuns.HangupAfterClose | muduo/net/poller/EPollPoller.cc:92-133 | a run from the start: reading is stopped, the connection closed by force, and a hang-up of the peer closes it again |
| TcpServerRuns.ClosedCanFailExactly | muduo/net/poller/EPollPoller.cc:92-133 | when a loop polls, events of a closed connection can make it fail exactly if the descriptor was armed again: closed while asking for nothing, or by the read switches run since |
| TcpServerInvariant.CloseInv | muduo/net/TcpConnection.cc:394-407 | closing a connection that is up keeps the invariant, whether the removal runs at once (base loop) or is queued (another loop) |
| TcpServerInvariant.DestroyFailsExactly | muduo/net/TcpConnection.cc:319-330 | destruction finds the channel in the poller and not among the active ones, and fails exactly if the last read switch run after the close switched reading on; otherwise it keeps the invariant |
| TcpServerInvariant.SwitchInv | muduo/net/TcpConnection.cc:278-306 | switching reading on or off, before or after the close, keeps the invariant |
| TcpServerObjects.TcpServer.NewConnection | muduo/net/TcpServer.cc:58-82 | the name is new and is entered; establishment runs at once or is queued on the I/O loop; the invariant is kept |
| TcpServerObjects.TcpServer.RemoveConnectionInLoop | muduo/net/TcpServer.cc:93-102 | exactly one name goes, the set is one smaller, the destruction becomes the last functor of the I/O loop, the connection gains the erased milestone, and no other connection or loop changes |
| TcpServerObjects.TcpServer.HandleClose | muduo/net/TcpConnection.cc:394-407 | the state assertion holds; the connection is down, its channel asks for nothing, and it is erased at once if it belongs to the base loop; no other connection changes |
| TcpServerObjects.TcpServer.HandleEvent | muduo/net/Channel.cc:67-102 | for every report that does not fail, the callbacks in source order take an up connection down exactly on a hang-up without input or the end of input, and hand over exactly one message when bytes are read |
| TcpServerObjects.TcpServer.RunFunctor | muduo/net/EventLoop.cc:263-278 | the head functor finds what its assertions ask for, unless it is a destruction that fails; each kind has its effect: up, erased, destroyed, forced down if up, reading as asked |
| TcpServerObjects.TcpServer.SwitchReadingInLoop | muduo/net/TcpConnection.cc:283-306 | after the two tests and updates of the source reading is on or off as asked, and the invariant is kept |
| TcpServerObjects.TcpServer.SwitchReading | muduo/net/TcpConnection.cc:278-296 | at once in the loop thread, queued with the bare pointer from another one |
| TcpServerObjects.TcpServer.ForceClose | muduo/net/TcpConnection.cc:222-230 | a live connection starts disconnecting and its close is the last functor of its loop; otherwise nothing changes |
| TcpOutput.EveryRun | muduo/net/TcpConnection.cc:119-196 | in every run: bytes on the socket followed by the buffer are the messages not discarded, in order; every accepted message went through sendInLoop once or still waits; until the close, write interest is on exactly while bytes are pending; half-closed and not closed means nothing pending |
| TcpOutput.DiscardedOnlyWhole | muduo/net/TcpConnection.cc:119-175 | whatever the socket takes, the message follows all that was sent or pending; it is discarded only whole, exactly if the connection is closed or a direct write meets a broken connection |
| TcpOutput.GracefulShutdown | muduo/net/TcpConnection.cc:177-196 | with send and shutdown in the loop thread: when the half-close has happened, every accepted message not discarded is fully on the socket |
| TcpOutput.PostedMessageIsLost | muduo/net/TcpConnection.cc:356-377 | a run from the start that loses a message sent and shut down from another thread |
| TcpOutput.ExactlyTheWaitingAreLost | muduo/net/TcpConnection.cc:177-196 | at any half-close all accepted messages have been through sendInLoop exactly if none waits in the queue; in any run after it exactly the messages waiting then are discarded, in order, and the socket gets nothing more |
| TcpOutput.HalfClosedWithBytesPending | muduo/net/TcpConnection.cc:188-196 | a run from the start that half-closes over pending bytes |
| TcpOutput.HalfCloseIsClean | muduo/net/TcpConnection.cc:188-196 | a half-close finds bytes pending exactly if it runs on a closed connection with bytes pending |
| TcpOutput.NothingAfterHalfClose | muduo/net/TcpConnection.cc:119-175 | after the half-close no run adds a byte to the socket or the buffer |
| TcpOutput.HighWaterMarkCrossed | muduo/net/TcpConnection.cc:160-167 | the high-water callback is queued exactly when a step takes the pending bytes from below the mark to it or beyond, and reports their number |
| TcpOutput.WriteCompleteMeansDrained | muduo/net/TcpConnection.cc:356-392 | the write-complete callback is queued only with nothing pending, and whenever pending bytes have all gone |
| TcpOutputEffects.StepExactly | muduo/net/TcpConnection.cc:119-407 | for every step: whether write(2) is called and with what (the pending bytes on a writable event asked for, a message on an open connection with nothing pending), what goes to the socket, what stays pending, when the socket is half-closed and the write-complete callback queued |
| TcpOutputEffects.WritesExactly | muduo/net/TcpConnection.cc:361-372 | along every run the socket holds what the calls of write(2) took, in order, and as much as they returned |
| TcpOutputEffects.ShutdownExactly | muduo/net/TcpConnection.cc:188-196 | a shutdown in the loop thread half-closes at once if and only if nothing is pending; otherwise a writable event does so if and only if it takes the last byte |
| TcpOutputEffects.DrainExactly | muduo/net/TcpConnection.cc:356-392 | what the socket took leaves the front of the pending bytes, for every result of write(2) and every state |
| TcpConnections.TcpConnection.SendInLoop | muduo/net/TcpConnection.cc:119-175 | a message is written directly exactly if the connection is open with no interest and nothing pending, and the socket gets what write(2) took; overflow and discard on a real buffer are the send step |
| TcpConnections.TcpConnection.Send | muduo/net/TcpConnection.cc:65-112 | sends at once in the loop thread, queues from another thread, ignores when not connected |
| TcpConnections.TcpConnection.Shutdown | muduo/net/TcpConnection.cc:177-186 | only a connected connection starts disconnecting, with the half-close at once or queued |
| TcpConnections.TcpConnection.HandleWrite | muduo/net/TcpConnection.cc:356-392 | with write interest and bytes pending, in every state, the socket gets what write(2) took off the front of the buffer; when it is empty, write interest goes and a disconnecting connection is half-closed; without interest nothing changes |
| TcpConnections.PerformAll | muduo/net/TcpConnection.cc:65-407 | any run of calls and events on a new connection object conserves the messages, keeps write interest right and sends as much as the calls of write(2) returned |
| TimerRuns.EveryRun | muduo/net/TimerQueue.cc:115-260 | in every run both sets have the same size, and between loop steps the timerfd fires no later than the earliest expiration or 100 microseconds after it was armed |
| TimerRuns.SetsAgree | muduo/net/TimerQueue.cc:129-151 | both sets hold exactly the same live timers, under their current expirations |
| TimerRuns.EveryTimerInOnePlace | muduo/net/TimerQueue.cc:175-218 | every timer ever created is deleted exactly once and gone, or live in exactly one of queue, sets and batch |
| TimerRuns.NeverEarlyNeverDeleted | muduo/net/TimerQueue.cc:153-173 | a callback about to run belongs to a live timer whose time has come |
| TimerRuns.CancelIsFinal | muduo/net/TimerQueue.cc:129-151 | after cancelInLoop of an inserted timer the callback runs at most once more, only if it waited in the batch being run, and the timer never enters the sets again |
| TimerRuns.CancelTakesEffectExactly | muduo/net/TimerQueue.cc:115-151 | a cancelled timer stays out of the active set in every later run exactly if it had been inserted when the cancel ran |
| TimerRuns.CancelBeforeInsertion | muduo/net/TimerQueue.cc:100-113 | a run from the start in which the timer becomes active after its cancel |
| TimerRuns.StaleCancel | muduo/net/TimerQueue.cc:129-151 | cancelling with the identifier of a deleted timer changes nothing in any later state but its own mark, even if the address is in use again |
| TimerRuns.ResetOutcome | muduo/net/TimerQueue.cc:200-230 | at the end of a batch each timer of it is put back with its new expiration exactly if it repeats and was not cancelled, else deleted |
| TimerRuns.OneShotRunsAtMostOnce | muduo/net/Timer.cc:8-18 | the callback of a timer without an interval runs at most once in any run |
| TimerSchedule.RunsOnSchedule | muduo/net/Timer.h:18-22 | in any run after a timer was created with `when` and an interval, its callback is in no batch before the clock reaches `when`, its expiration is `when` until it has run, and it is about to run for the (k + 1)-th time only when k intervals have passed since `when` |
| TimerSchedule.RunsInFirstBatch | muduo/net/TimerQueue.cc:175-198 | once inserted, a timer that has not run is in the next batch collected if and only if the clock has reached `when` |
| TimerSchedule.CollectedExactly | muduo/net/TimerQueue.cc:175-198 | a batch holds exactly the inserted timers that are due |
| TimerSchedule.BatchRunsInOrder | muduo/net/TimerQueue.cc:153-173 | whatever callbacks and other threads do meanwhile, a batch runs the callbacks of all its entries, in order |
| TimerSchedule.TimerfdExactly | muduo/net/TimerQueue.cc:30-69 | the timerfd after every step: set to the earliest expiration, but at least 100 microseconds ahead, when an insertion changes it and at the end of a batch; readable when its deadline comes; disarmed by reading |
| Timers.ApplyInv | muduo/net/TimerQueue.cc:100-260 | every step, whatever callbacks add or cancel, keeps the whole invariant |
| TimerQueues.TimerQueue.NewTimer | muduo/net/Timer.h:18-22 | a timer gets the time, interval and repetition asked for and the next sequence number, also at an address used before; no other timer changes |
| TimerQueues.TimerQueue.InsertTimer | muduo/net/TimerQueue.cc:232-260 | both insertions take place, and the result tells whether the earliest expiration changed |
| TimerQueues.TimerQueue.AddTimerInLoop | muduo/net/TimerQueue.cc:115-127 | inserts and arms as the step says, keeping the invariant |
| TimerQueues.TimerQueue.CancelInLoop | muduo/net/TimerQueue.cc:129-151 | erases and deletes an active timer, marks one whose batch is running, ignores others |
| TimerQueues.TimerQueue.GetExpired | muduo/net/TimerQueue.cc:175-198 | removes exactly the expired entries from both sets, in order |
| TimerQueues.TimerQueue.ResetTimers | muduo/net/TimerQueue.cc:200-230 | the loop over the batch reinserts or deletes each timer and rearms the timerfd |
| TimerQueues.TimerQueue.HandleRead | muduo/net/TimerQueue.cc:153-173 | a whole batch with arbitrary work done by each callback is the run of its steps |
| EventLoops.NoLostWakeup | muduo/net/EventLoop.cc:165-179 | in every run a loop blocked in poll with functors pending or after quit has a readable eventfd or a thread about to write it, unless the loop thread itself queued outside event handling and functors |
| EventLoops.RunInLockOrder | muduo/net/EventLoop.cc:263-278 | functors run in the order of their pushes, each at most once, none dropped |
| EventLoops.RunsWhatWasQueued | muduo/net/EventLoop.cc:165-179 | along every run, the functors run, those in the batch and those pending are exactly those queued, in the order of the lock |
| EventLoops.PendingCanRun | muduo/net/EventLoop.cc:114-133 | an awakened loop can reach a state in which all that was pending has run |
| EventLoops.SelfPushStallsExactly | muduo/net/EventLoop.cc:165-179 | a functor queued by the loop thread is left pending at the next poll with nobody to wake the loop exactly if it was queued before loop() or after the functors of a batch, nobody was waking the loop, and no quit ends it |
| EventLoops.PushBeforeLoopStalls | muduo/net/EventLoop.cc:106-118 | a run from the start with the first kind of stall |
| EventLoops.PushFromDestructorStalls | muduo/net/EventLoop.cc:263-278 | a run from the start with the second kind: a functor has run and its destructor queues another one |
| EventLoops.QuitLostExactly | muduo/net/EventLoop.cc:106-151 | whatever happens between a quit and the next test of the flag, the loop goes on exactly if it had not been entered when quit was called |
| EventLoops.QuitStays | muduo/net/EventLoop.cc:106-151 | only entering loop() clears the flag |
| EventLoops.QuitBeforeLoopIsLost | muduo/net/EventLoop.cc:106-112 | a run from the start that forgets a quit |
| EventLoopObjects.EventLoop.QueueInLoop | muduo/net/EventLoop.cc:165-179 | appends under the lock and wakes exactly if called from another thread or while functors run; keeps the invariant |
| EventLoopObjects.EventLoop.QuitLoop | muduo/net/EventLoop.cc:139-151 | sets the flag and, from another thread, makes poll return |
| EventLoopObjects.EventLoop.DoPendingFunctors | muduo/net/EventLoop.cc:263-278 | exactly what was pending runs, in order; what the functors and other threads queue meanwhile stays pending and the next poll returns at once |
| AsyncLogs.EveryRun | muduo/base/AsyncLogging.cc:58-143 | in every run, at every moment: batches, full buffers and current buffer are the retained lines in lock order; the file and what it is still owed are every batch, whole or as a notice and its first two buffers if it had more than 25; outside a round nothing is owed and both spares are there and empty; no next buffer means a full one waits; no assertion fails |
| AsyncLogs.NothingDropped | muduo/base/AsyncLogging.cc:96-112 | while no batch exceeds 25 buffers, at every moment file, lines in flight, full buffers and current buffer are the retained stream |
| AsyncLogs.KeptIffShort | muduo/base/AsyncLogging.cc:27-56 | append keeps a line exactly if it is shorter than 4,000,000 bytes, whatever the buffers hold, and adds nothing else |
| AsyncLogs.AppendExactly | muduo/base/AsyncLogging.cc:27-56 | a line joins the current buffer if and only if it fits strictly; otherwise that buffer is closed and the line begins the next |
| AsyncLogs.BuffersFit | muduo/base/AsyncLogging.cc:27-56 | no buffer, filled or being written, ever holds 4,000,000 bytes, in any run |
| AsyncLogs.LongLineIsDropped | muduo/base/LogStream.h:27-36 | a run from the start whose only line is in no buffer |
| AsyncLogs.StopLosesExactly | muduo/base/AsyncLogging.cc:69-143 | whatever happens until the back end exits, all lines appended before stop() have been collected, and every batch is in the file, exactly if stop() found the back end between its test and its collection or found the buffers empty |
| AsyncLogs.LostAtStop | muduo/base/AsyncLogging.h:39-45 | a run from the start in which stop() finds the back end before its test, and the line is lost |
| AsyncLogs.WrittenAtStop | muduo/base/AsyncLogging.h:39-45 | a run in which it finds the back end waiting, and the line is written |
| AsyncLogs.AssertionsHold | muduo/base/AsyncLogging.cc:69-137 | every assertion of the back-end thread holds where it acts |
| AsyncLoggings.FixedBuffer.Append | muduo/base/LogStream.h:27-36 | the bytes are appended exactly if fewer than the room left, else nothing changes |
| AsyncLoggings.FixedBuffer.Reset | muduo/base/LogStream.h:44-44 | the buffer is empty again |
| AsyncLoggings.AsyncLogging.Append | muduo/base/AsyncLogging.cc:27-56 | the critical section of the front end is the append step and keeps the invariant |
| AsyncLoggings.AsyncLogging.CollectBuffers | muduo/base/AsyncLogging.cc:76-96 | the critical section of the back end is the collect step; the batch is not empty |
| AsyncLoggings.AsyncLogging.WriteBuffers | muduo/base/AsyncLogging.cc:108-113 | the loop writes all lines of the batch in order |
| AsyncLoggings.AsyncLogging.RecycleBuffers | muduo/base/AsyncLogging.cc:114-139 | there is a written buffer for each missing spare, and both spares are empty afterwards |
| AsyncLoggings.AsyncLogging.Round | muduo/base/AsyncLogging.cc:69-141 | one round, with any lines appended while it waits and while it writes: the rendering of what was in the buffers and came during the wait is added to the file, what came later is in the buffers |
| Pollers.EPollPoller.UpdateChannel | muduo/net/poller/EPollPoller.cc:92-133 | the registration stays exactly the added channels with their current events, the interest map changes at this descriptor only, and the channel ends up added unless it was and asks for nothing |
| Pollers.EPollPoller.RemoveChannel | muduo/net/poller/EPollPoller.cc:135-154 | a channel that asks for nothing is forgotten, is new again, and the interest map is unchanged |
| Pollers.RemoveThenAdd | muduo/net/poller/EPollPoller.cc:92-154 | a channel removed from the epoll poller can be added again |
| Pollers.EPollPoller.Update | muduo/net/poller/EPollPoller.cc:156-175 | asks that ADD is issued only for absent, MOD and DEL only for present descriptors, which both callers are proved to respect, and changes the kernel's table accordingly |
| Pollers.EPollPoller.FillActiveChannels | muduo/net/poller/EPollPoller.cc:75-90 | the channels of the reported descriptors, in order, with their reported events |
| Pollers.PollPoller.UpdateChannel | muduo/net/poller/PollPoller.cc:64-101 | slots and indices stay in bijection, each slot holds its channel's events and is ignored exactly if that is none, and the interest map changes at this descriptor only |
| Pollers.PollPoller.RemoveChannel | muduo/net/poller/PollPoller.cc:103-140 | swap and pop keep the bijection and the interest map; the channel keeps its index, so that the assertions of its next update fail |
| Pollers.UpdateAllowedExactly | muduo/net/poller/PollPoller.cc:64-91 | all assertions of updateChannel, those on slot and index included, hold exactly if the channel is new and unknown or known as itself; for a channel not in the poller, exactly if its index is negative |
| Pollers.AddAfterRemoveFails | muduo/net/poller/PollPoller.cc:103-140 | a channel enabled, disabled and removed, for which they fail |
| Pollers.PollPoller.FillActiveChannels | muduo/net/poller/PollPoller.cc:44-62 | exactly the channels of the slots that report something, in slot order, although the loop stops early |
| Pollers.SlotIgnored | muduo/net/poller/PollPoller.cc:109-115 | the assertion before removal holds exactly if the channel has not merely asked for nothing once |
| Pollers.RemoveFailsAfterAskingForNothing | muduo/net/poller/PollPoller.cc:68-82 | a new channel that asks for nothing, for which it fails |
| Pollers.DropSlot | muduo/net/poller/PollPoller.cc:119-139 | dropping an unwatched slot by swap and pop keeps bijection, interest and faithfulness |
| Pollers.Channel.Change | muduo/net/Channel.h:47-73 | enabling and disabling set and clear exactly the bits meant, both read bits together, and the epoll poller's interest map follows |
| Pollers.Channel.ChangeInPoll | muduo/net/Channel.h:47-73 | the same with the poll poller |
| BothPollers.Compare | muduo/net/poller/PollPoller.cc:64-140 | any sequence of changes and removals, performed on both pollers, ends with equal interest maps, namely what the changes ask for |
| BothPollers.EPollInterest | muduo/net/poller/EPollPoller.cc:92-154 | what a valid epoll poller watches depends only on what its channels ask for |
| BothPollers.PollInterest | muduo/net/poller/PollPoller.cc:64-140 | likewise for the poll poller |
| Http.ChunkingIsIrrelevant | muduo/net/http/HttpContext.cc:62-120 | outcome, request and unread bytes do not depend on how the bytes are cut |
| Http.ParseAppend | muduo/net/http/HttpContext.cc:62-120 | parsing stops for good or resumes with what it left unread |
| Http.ParseRender | muduo/net/http/HttpContext.cc:7-48 | parsing the text of any well-formed request gives that request and leaves what follows unread |
| Http.ParseFields | muduo/net/http/HttpContext.cc:90-113 | header lines yield their map, later duplicates winning |
| Http.RequestLineExactly | muduo/net/http/HttpContext.cc:7-48 | a request line is accepted if and only if it is one of the five methods, a target without spaces and HTTP/1.0 or HTTP/1.1, with one space between them |
| HttpGrammar.RequestLineSets | muduo/net/http/HttpContext.cc:16-44 | an accepted line sets method and version as named, and path and query as the target cut at its first question mark |
| HttpGrammar.ParseFailsExactly | muduo/net/http/HttpContext.cc:66-90 | parsing fails if and only if there is a first complete line and it is not a request line |
| HttpGrammar.HeaderLineExactly | muduo/net/http/HttpRequest.h:112-128 | a header line maps what precedes its first colon to what follows it, stripped of the white space around it; no other header changes |
| Http.ColonlessLineEndsHeaders | muduo/net/http/HttpContext.cc:93-107 | a header line ends the headers, leaving the rest unread, exactly if it has no colon |
| Http.HeaderAfterColonlessLineIsUnread | muduo/net/http/HttpContext.cc:100-107 | an input with a header that is not seen because of such a line |
| Http.LoopEndsExactly | muduo/net/http/HttpContext.cc:66-118 | the loop of parseRequest ends after some number of passes exactly if it is entered in the request-line or header state |
| Http.ReenteredNeverReturns | muduo/net/http/HttpContext.cc:66-118 | entered after a complete request, with any bytes, the loop still has more to do after any number of passes |
| Http.LoopParses | muduo/net/http/HttpContext.cc:66-118 | the passes then compute the reference parse |
| Http.TrimPadding | muduo/net/http/HttpRequest.h:112-128 | blanks around a value are trimmed and nothing else |
| Http.HttpRequest.SetMethod | muduo/net/http/HttpRequest.h:41-70 | succeeds exactly for the five known methods |
| Http.HttpRequest.SetVersionOf | muduo/net/http/HttpContext.cc:28-44 | succeeds exactly for HTTP/1.0 and HTTP/1.1 and sets the version named |
| Http.HttpRequest.AddHeaderLine | muduo/net/http/HttpRequest.h:112-128 | the two trimming loops compute the trimmed value and enter it |
| Http.HttpContext.ProcessRequestLine | muduo/net/http/HttpContext.cc:7-48 | succeeds if and only if the line is a request line of the grammar; the fields are those of the reference parse, also on the partial results of a failure |
| Http.HttpContext.ParseRequest | muduo/net/http/HttpContext.cc:62-120 | terminates and computes the reference parse on a real buffer; the receive time is set exactly with the request line |
| Receiving.Receive | muduo/net/http/HttpServer.cc:50-71 | appending pieces and parsing after each gives the parse of all bytes at once |
| Receiving.PerformAll | muduo/net/Buffer.h:97-353 | any sequence of buffer operations, readFd included, acts on the readable bytes and returns numbers, strings and counts as on a plain byte sequence; it stops only before an operation without the room it asks for |
| Buffers.NetworkRoundTrip | muduo/net/Buffer.h:182-304 | every signed value of any width survives the trip to network order and back |
| Buffers.NetworkRoundTripBytes | muduo/net/Buffer.h:245-277 | every byte string is the encoding of the value it decodes to |
| Buffers.BigEndian | muduo/net/Endian.h:18-46 | the bytes of an encoded integer, weighted with the most significant first, add up to it in two's complement |
| Buffers.Buffer.MakeSpace | muduo/net/Buffer.h:336-353 | growth or compaction keeps the readable bytes and gives the room |
| Buffers.Buffer.Retrieve | muduo/net/Buffer.h:97-108 | drops exactly the first len readable bytes |
| Buffers.Buffer.Append | muduo/net/Buffer.h:145-150 | the bytes follow the readable ones |
| Buffers.Buffer.Prepend | muduo/net/Buffer.h:306-312 | the bytes precede the readable ones, using prepend room |
| Buffers.Buffer.Shrink | muduo/net/Buffer.h:314-321 | keeps the readable bytes and the reserve |
| Buffers.Buffer.ReadFd | muduo/net/Buffer.cc:16-49 | exactly the n bytes read, across both segments, are appended; an error changes nothing |
| Buffers.Buffer.FindCRLFFrom | muduo/net/Buffer.h:62-77 | the first CRLF from the start given, or none |
| Buffers.Buffer.FindEOLFrom | muduo/net/Buffer.h:79-92 | the first newline from the start given, or none |
| Buffers.Buffer.ReadInt | muduo/net/Buffer.h:209-239 | the value of the first bytes, which are retrieved |
| Buffers.WriteThenReadInts | muduo/net/Buffer.h:182-304 | prepended and appended integers are read back unchanged |
| Date.NextDayIsNextNumber | muduo/base/Date.cc:16-23 | the next calendar day has the next Julian day number |
| Date.JulianDayMonotone | muduo/base/Date.cc:16-23 | day numbers order valid dates |
| Date.YearMonthDayThenJulianDay | muduo/base/Date.cc:25-38 | every day number from -32044 gives a valid date with that number |
| Date.JulianDayThenYearMonthDay | muduo/base/Date.cc:25-38 | every valid date is recovered from its number |
| Date.EpochDayNumber | muduo/base/Date.cc:40-40 | the day number of 1970-01-01 |
| Date.YearDayByNumbers | muduo/base/Date.cc:16-23 | the difference of day numbers counts the days of the year by the calendar, one short only in the year -4800 |
| Date.WeekDayExactly | muduo/base/Date.h:73-73 | when the remainder is the day of the week |
| Date.GetJulianDayNumber32 | muduo/base/Date.cc:16-23 | in 32-bit integers no step overflows and the result agrees, for years -4799 to 5,000,000 |
| Date.GetYearMonthDay32Agrees | muduo/base/Date.cc:25-38 | likewise for day numbers up to 536,838,866 |
| TimeZone.UtcRoundTrip | muduo/base/TimeZone.cc:295-334 | every second of the range, before or after 1970, breaks down into valid fields and back |
| TimeZone.UtcFieldsInRange | muduo/base/TimeZone.cc:295-334 | on the day numbers from 0 on every field, day of week and day of year included, is in range and counts what it should, and the fields give the second back |
| TimeZone.UtcFieldsRoundTrip | muduo/base/TimeZone.cc:295-334 | valid fields are recovered from the second they denote |
| TimeZone.UtcTimeOfDay | muduo/base/TimeZone.cc:295-334 | hour, minute and second are those of the seconds since midnight, before 1970 too |
| TimeZone.UtcDayCounts | muduo/base/TimeZone.cc:308-319 | on the whole range: day of year is in range, and right exactly after the year -4800; day of week is right, and in range, exactly from day -1 on and on the Sundays before it |
| TimeZone.DayCountsBeforeDayZero | muduo/base/TimeZone.cc:308-319 | a day with a negative day of week and a day counted one short |
| TimeZone.FindTransitionIsLastNotAfter | muduo/base/TimeZone.cc:204-233 | the binary search finds the last transition not after the time, in UTC and in local time |
| TimeZone.LastNotAfterUnique | muduo/base/TimeZone.cc:204-233 | there is only one such transition |
| TimeZone.FindLocaltimeExactly | muduo/base/TimeZone.cc:204-233 | before the first transition the first local time type is found, afterwards that of the last transition not after the key |
| TimeZone.LocalLookup | muduo/base/TimeZone.cc:274-293 | a local reading is looked up in its own period, or in the next if shown twice |
| TimeZone.LocalRoundTripExactly | muduo/base/TimeZone.cc:252-293 | fromLocalTime undoes toLocalTime exactly if the reading is shown once or repeats by the one hour that ends daylight saving time |
| TimeZone.LocalRoundTrip | muduo/base/TimeZone.cc:252-293 | for tables whose only set-backs are one hour of daylight saving time every second survives the trip, the repeated hour included |
| TimeZone.StandardTimeSetBackIsLost | muduo/base/TimeZone.cc:283-290 | a table and a second for which it does not |
| Connectors.EveryRun | muduo/net/Connector.cc:27-220 | in every run no assertion fails, every socket is in exactly one place, closed or handed over at most once, at most one attempt or retry is outstanding, and retry k waits min(500 * 2^k, 30000) ms |
| Connectors.BackoffValue | muduo/net/Connector.cc:206-220 | the delays double from 500 ms up to 30 s |
| Connectors.StopIsFinal | muduo/net/Connector.cc:47-64 | after stop(), until the client restarts, no run creates or hands over a socket or sets a timer, and with the queue empty no attempt is under way |
| Connectors.AttemptNeedsReset | muduo/net/Connector.cc:116-145 | the assertion that the channel is free holds exactly if no reset of it is queued |
| Connectors.ImmediateRetryFails | muduo/net/Connector.cc:206-220 | a run in which it is |
| ConnectorOutcomes.HandedExactly | muduo/net/Connector.cc:147-192 | while a socket is watched it is handed over in exactly those steps in which it is reported writable with no error event, no SO_ERROR and no self-connect and the connection is wanted; otherwise the end of the attempt closes it, and a retry timer is set if and only if the attempt failed and is still wanted |
| ConnectorOutcomes.OutcomeExactly | muduo/net/Connector.cc:27-220 | for every step: whether connect(2) is called, which socket is under way, closed or handed over afterwards, the state, the retry timers and the functors queued |
| ConnectorObjects.Connector.RetryLater | muduo/net/Connector.cc:206-220 | the socket is closed and the state disconnected; if still wanted exactly one timer more is set, which as the k-th retry waits min(500 * 2^k, 30000) ms, and the back-off schedule is kept |
| ConnectorObjects.Connector.OnWritable | muduo/net/Connector.cc:147-192 | a sound socket is handed over if wanted, any other is closed; a retry timer is set if and only if the socket is not sound and the connection is still wanted |
| ConnectorObjects.Connector.OnError | muduo/net/Connector.cc:194-204 | an error while connecting closes the socket, hands nothing over, and sets a retry timer if and only if the connection is still wanted |
| ConnectorObjects.Connector.Perform | muduo/net/Connector.cc:27-145 | any functor, timer, event or client call performs its step and keeps the invariant |
| ThreadPools.BoundedFifo | muduo/base/ThreadPool.cc:56-103 | in every run the queue stays within its bound and tasks leave in order, at most once |
| ThreadPools.TasksExactly | muduo/base/ThreadPool.cc:56-97 | while the pool runs, a task offered is queued if there is room and its producer waits if not, a worker takes the first task or waits if there is none; after stop() nothing is queued, but the rest is still taken |
| ThreadPools.NobodyIsForgotten | muduo/base/ThreadPool.cc:56-97 | in every run no task waits while all workers sleep unsignalled; while a worker sleeps unsignalled each queued task has a woken worker of its own coming, while a producer does each free slot has a woken producer coming |
| ThreadPools.NobodyWaitsAfterStop | muduo/base/ThreadPool.cc:36-48 | after stop nobody waits, ever again, and nothing more is queued |
| ThreadPools.LeavesExactly | muduo/base/ThreadPool.cc:56-97 | once the pool has stopped a waiting thread leaves exactly by its own next step, which it can take at any time, and no thread starts to wait |
| ThreadPools.EverybodyLeaves | muduo/base/ThreadPool.cc:36-48 | so as many steps as there are threads waiting let everybody out |
| ThreadPools.StopDropsExactly | muduo/base/ThreadPool.cc:105-124 | whatever happens after stop(), once no worker is left past its test, exactly as many tasks have been taken from the front as there were such workers, and all others are dropped |
| ThreadPools.DroppedAtStop | muduo/base/ThreadPool.cc:36-48 | a task queued from the start that no run after stop() takes |
| ThreadPoolObjects.ThreadPool.Run | muduo/base/ThreadPool.cc:56-77 | waits exactly if full and running; otherwise a running pool has queued the task within the bound |
| ThreadPoolObjects.ThreadPool.Take | muduo/base/ThreadPool.cc:79-97 | waits exactly if empty and running; otherwise takes the first task, or none when stopped |
| ThreadPoolObjects.ThreadPool.StopPool | muduo/base/ThreadPool.cc:36-48 | clears the flag and wakes everybody |
| ThreadPoolObjects.ThreadPool.GoesOn | muduo/base/ThreadPool.cc:105-124 | the head of the worker loop lets the worker past exactly if the pool runs |

## Left out

- Threads: what happens under a mutex, in one event handler, in one functor or in one call from outside is one atomic step. A state check together with the functor it queues is one step too (the source marks the gap between them "use compare and swap").
- TcpServers: the server outlives its connections, and `startRead` and `stopRead` are called only while the connection is up (their functors may run later). Connection names are the numbers in them. The round robin over the loops is any choice of a loop. Channels are registered with the epoll poller, the default one; when the output path waits for writability is any choice here and is decided in TcpOutput.
- TcpServerRuns.EveryCarefulRun: its condition is sufficient; FailsExactly and ClosedCanFailExactly say exactly what the excluded steps lead to.
- Pollers.Channel: events are numbers whose low three bits are the read and write masks.
- Pollers.PollPoller.RemoveChannel: asks that the channel's first update did not ask for nothing, since the source asserts it.
- TcpOutput: both user callbacks are taken as set; what they do is left to later steps. The input path and user access to the output buffer are not modelled. After the half-close the socket answers every non-empty write with a broken pipe or a reset.
- Timers: one logical clock in microseconds, unbounded integers, intervals as whole microseconds; destroying a callback does nothing to the queue. The split into seconds and nanoseconds is not modelled.
- AsyncLogs: file writes succeed; a notice is represented by the number of buffers dropped, not by its text; the wait with its timeout is any stretch of time between the test of `running_` and the collection. Buffers held by unique pointers are represented by the lines they hold; `FixedBuffer` shows separately that its array holds them.
- EventLoopObjects.EventLoop.DoPendingFunctors: a functor is represented by what is queued while it runs, by it or by another thread, each push together with its wakeup; pushes and wakeups that interleave further are in EventLoops.
- ThreadPoolObjects.ThreadPool: one call is one critical section, up to a wait or the end; the loop around a wait is the next call. A pool without threads runs tasks directly and is not modelled.
- Connectors: one `start`, then any stops, outcomes and restarts after a lost connection; a start after a stop is not modelled.
- TimeZone: reading a zone file; `gmtime_r` and `timegm` are replaced by the library's own `toUtcTime` and `fromUtcTime`.
- Http: request bodies and behaviour after a failed parse; receive times do not take part in the reference parse.
- Buffers: sizes are unbounded; `internalCapacity` and the allocation policy of `std::vector` are not modelled.
- Socket wrappers, acceptor, client, loop thread pool, blocking queues, latches, log formatting, HTTP responses and the inspector: they would only add easy members.
