# A verified model of the cache server and its network library

The repository is a distributed key-value cache on top of an event-driven network library.
This project models the stateful parts of both in Dafny and proves what they promise: the
timer queue, the wakeup protocol of the event loop, TCP connections and their life cycle, the
two pollers, the indexed LRU store, the byte buffer and the two stream parsers that read from
it, calendar arithmetic, the logging back end, integer formatting and the bounded queue.

`dafny verify dfyconfig.toml` verifies the project.  Each file is one component:

| file | contents |
|---|---|
| `TimerSpec.dfy`, `TimerQueue.dfy` | timers by sequence number, with properties over every run; the queue of pointers and ordered sets, which refines it |
| `WakeupProtocol.dfy`, `EventLoop.dfy` | the queue-and-eventfd protocol as a state machine; the loop's code, every execution of which is a run of it |
| `TcpSpec.dfy`, `TcpConnection.dfy` | a connection as a state machine over steps of loop, users and kernel; the connection's and the server's code as runs of it |
| `Pollers.dfy` | channels, both pollers, and one registry that both refine |
| `LruSpec.dfy`, `Db.dfy` | a recency list and its theory; the list, hash map and multimap that refine it |
| `Buffer.dfy`, `Codec.dfy`, `Http.dfy` | the buffer over an array, network integers, message framing, HTTP requests |
| `Calendar.dfy` | Julian day numbers, UTC conversion, lookup of the local time |
| `AsyncLogging.dfy`, `LogStream.dfy` | the hand-over of log buffers; numerals and fixed buffers |
| `BlockingQueue.dfy` | the monitor of the bounded queue and the thread pool |
| `MachineArithmetic.dfy`, `Wrappers.dfy` | truncating division; optional values |

How the parts are modelled:

- Objects that the code updates in place are classes whose methods have the code's branches
  and loops.  A specification kept in a ghost field, or a function of the contents, says what
  they compute; the theorems are proved about it.
- A heap address is a number that may be handed out again once it is free.  A callback is any
  finite script of calls.
- Concurrency is interleaving of atomic steps: what happens under a mutex, one access to an
  atomic flag, or one system call.  Tasks handed to another thread run at any later time.
- The kernel is an adversary: it may answer a write with any count or error, deliver any
  bytes, report any events on a watched descriptor.  It keeps the contract of its calls: a
  write side that was shut down refuses writes, poll(2) reports nothing on a negative
  descriptor, an eventfd adds up.
- Clocks, the allocator's choice of address, the serializer of messages and the checksum are
  parameters.

Results that are not what a first reading suggests:

- A timer cancelled by a callback of its own batch still runs in that batch (the batch is
  fixed when it is collected); it is in no later one.
- A connection is closed twice, against an assertion, exactly when a descriptor is reported
  as hung up without input but with another reason to read, and the read then finds the end
  of the stream (`TcpProtocol.AssertsHoldIff`, `TcpProtocol.DoubleCloseHappens`).
- A shutdown asked for by another thread can reach the socket after the connection closed,
  with bytes undelivered, and nothing else shuts it down so
  (`TcpProtocol.ShutdownLosesBytesIff`, `TcpProtocol.LateShutdownHappens`).
- A closed connection on which the last call about reading was a start can run into two
  assertions: that of its destruction, and that of `handleClose` when an event reports the end
  again.  Between events and after any other history it can run into none
  (`TcpProtocol.ClosedAssertsHoldIff`, `TcpProtocol.ClosedCanFailIff`,
  `TcpProtocol.ReadAfterCloseHappens`).  After the destruction a start, or a first stop, puts
  the channel back into the poller, against the assertion of its destructor
  (`TcpProtocol.RemovedStaysOutIff`).
- A refused HTTP request line that begins with a known method makes the next call run into
  the assertion of `setMethod`; any other is refused again by every call
  (`HttpMessages.RetryAfterFailure`, `HttpMessages.RetryFails`, `HttpMessages.RefusedForGood`).
- How many of several requests on a connection are answered depends on how they are cut,
  since one call answers at most one: all of them exactly when, for every k, the last k chunks
  complete at most k (`HttpMessages.AnsweredCount`, `HttpMessages.AnsweredIff`,
  `HttpMessages.PipelinedWaits`).
- A live key is filed under the slot of its insertion, even when it is set again with another
  (`Dbs.FiledUnderInsertionSlot`, `Dbs.FiledUnderSentSlotIff`, `Dbs.ResetKeepsOldSlot`).
- A day of the week is out of range for most days before 23 November -4713
  (`TimeZones.WeekDayInRangeIff`, `TimeZones.FirstWeekDayIsNegative`).
- Stopping a thread pool can leave a producer waiting for ever
  (`BlockingQueues.StrandedHappens`, `BlockingQueues.StrandedIffFull`).
- `Db.cc` line 69 reads through the end iterator; the model pushes `key`, the evident intent.

## Model

| member | source | states |
|---|---|---|
| `TimerSpec.RunKeeps` | master/net/TimerQueue.cc:132-251 | over every run of adds, cancels and expirations, with callbacks that add and cancel, the queue stays consistent: pending and in-flight timers are disjoint, live timers have distinct addresses, and a sequence number is never revived or issued twice |
| `TimerSpec.NextKeeps` | master/net/TimerQueue.cc:121-226 | one call, or one whole expiration with its callbacks and reset, keeps that consistency and leaves nothing in flight |
| `TimerSpec.ApplyKeeps` | master/net/TimerQueue.cc:121-152 | an add or a cancel keeps it in any state, also while callbacks run, and never changes the batch in flight |
| `TimerSpec.GoneForever` | master/net/TimerQueue.cc:175-195 | a sequence number that was issued and is no longer pending is in no later batch of any run |
| `TimerSpec.CancelPending` | master/net/TimerQueue.cc:132-145 | cancelling a waiting timer removes that timer and nothing else, and no later batch of any run contains it |
| `TimerSpec.CancelDuringBatch` | master/net/TimerQueue.cc:132-152 | a cancel that any call of any callback of a batch makes works for every timer inserted by then: a waiting one, one that an earlier call of the batch added, another timer of the batch, or the timer whose callback runs; no later batch contains it |
| `TimerSpec.CancelInsertedDuringBatch` | master/net/TimerQueue.cc:146-150 | in particular for every timer inserted before the batch |
| `TimerSpec.StaleCancelIsHarmless` | master/net/TimerQueue.cc:136-150 | a stale TimerId changes no timer and no alarm, even when its address belongs to another timer now |
| `TimerSpec.OneShotFiresOnce` | master/net/TimerQueue.cc:197-215 | a timer without interval is in at most one batch of any run |
| `TimerSpec.RepeatingTimerReturns` | master/net/TimerQueue.cc:197-207 | a repeating timer is pending again after its batch, one interval after the time of the batch, if and only if no callback of the batch cancels it |
| `TimerSpec.AddedDuringBatch` | master/net/TimerQueue.cc:104-130 | an add that a callback of a batch makes, at an address no timer has and no other call of the batch asks for, issues exactly one number; its timer is pending after the batch, with the time and interval asked for, if and only if no later call of the batch cancels it |
| `TimerSpec.AddedByCallback` | master/net/TimerQueue.cc:154-173 | every number a batch issues comes from an add of one of its callbacks |
| `TimerSpec.InsertedBeforeBatch` | master/net/TimerQueue.cc:154-215 | a timer inserted before a batch is pending after it if and only if no callback cancels it and it was not due or repeats, with its expiration |
| `TimerSpec.BatchIsDue` | master/net/TimerQueue.cc:175-195 | a batch is the timers due, each once and in order of expiration |
| `TimerSpec.RunAlarm` | master/net/TimerQueue.cc:121-226 | with positive timestamps the kernel timer is, between events of every run, set no later than the larger of the earliest expiration and 100 microseconds after it was set |
| `TimerSpec.RunAlarmExact` | master/net/TimerQueue.cc:29-42 | and over every run without a cancel between batches it is set for the earliest expiration exactly, or, when that is too soon, for 100 microseconds after it was set |
| `TimerSpec.HowMuchTimeFromNow` | master/net/TimerQueue.cc:29-42 | the seconds and nanoseconds handed to the kernel are a valid timespec for exactly the delay that the alarm property speaks of, never below 100 microseconds |
| `TimerQueues.SizesAgree` | master/net/TimerQueue.cc:134 | the two ordered sets have the same number of elements whenever the code asserts it |
| `TimerQueues.FirstIsEarliest` | master/net/TimerQueue.cc:231-237 | comparing with the first element of the ordered set is comparing with the earliest pending expiration |
| `TimerQueues.BatchIsOrdered` | master/net/TimerQueue.cc:175-186 | what `lower_bound` with the sentry cuts off are exactly the timers due, in order of expiration |
| `TimerQueues.SplitMatches` | master/net/TimerQueue.cc:177-194 | moving the batch out of both sets keeps them in bijection with the pending timers |
| `TimerQueues.DropMatches` | master/net/TimerQueue.cc:136-145 | erasing and deleting a cancelled timer keeps the bijection; its entry is in both sets and its object is live |
| `TimerQueues.RecordMatches` | master/net/TimerQueue.cc:146-150 | an id that is not active cancels nothing that is waiting, whatever its address |
| `TimerQueues.AllocateMatches` | master/net/Timer.h:17-24 | a timer allocated at an address that is not live gets a new sequence number and is in neither set yet |
| `TimerQueues.TimerQueue.Insert` | master/net/TimerQueue.cc:228-251 | a live timer in neither set enters both; the result says whether it is now the earliest; every assertion holds |
| `TimerQueues.TimerQueue.AddTimerInLoop` | master/net/TimerQueue.cc:121-130 | inserts, and sets the kernel timer when the new timer is the earliest |
| `TimerQueues.TimerQueue.AddTimer` | master/net/TimerQueue.cc:104-112 | allocates at any free address, possibly a recycled one, and behaves as the add of the specification; the id pairs the address with the new sequence number |
| `TimerQueues.TimerQueue.CancelInLoop` | master/net/TimerQueue.cc:132-152 | behaves as the cancel of the specification, on pointers, sets and the record of cancellations; nothing is deleted twice |
| `TimerQueues.TimerQueue.RunCallback` | master/net/TimerQueue.cc:164-168 | any finite script of adds and cancels behaves as the script of the specification, of which the lemmas about batches say what it inserts and cancels |
| `TimerQueues.TimerQueue.EraseActive` | master/net/TimerQueue.cc:188-193 | every expired timer is found in the second set and removed from it, and nothing else is |
| `TimerQueues.TimerQueue.GetExpired` | master/net/TimerQueue.cc:175-195 | takes exactly the timers due by the given time out of both sets, in order |
| `TimerQueues.TimerQueue.Recycle` | master/net/TimerQueue.cc:197-215 | restarts and re-enters the repeating timers of the batch that were not cancelled and deletes each other one once |
| `TimerQueues.TimerQueue.Reset` | master/net/TimerQueue.cc:197-226 | and sets the kernel timer for the earliest pending expiration |
| `TimerQueues.TimerQueue.RunExpired` | master/net/TimerQueue.cc:164-168 | runs the callback of each timer of the batch once, in order, while it is still live |
| `TimerQueues.TimerQueue.HandleRead` | master/net/TimerQueue.cc:154-173 | one read event is exactly one expiration step of the specification: batch, callbacks with re-entrant calls, reset |
| `TimerQueues.TimerQueue.Destroy` | master/net/TimerQueue.cc:91-102 | between events the destructor deletes every live timer, once |
| `TimerQueues.Drive` | master/net/TimerQueue.cc:78-251 | every sequence of calls and read events on a fresh queue is a legal run of the specification, and leaves the kernel timer set in time |
| `WakeupProtocol.NextKeepsInv` | master/net/EventLoop.cc:116-209 | every atomic step of the loop, of its functors and of remote threads keeps the invariant of the protocol |
| `WakeupProtocol.RunKeepsInv` | master/net/EventLoop.cc:116-209 | and so does every interleaving |
| `WakeupProtocol.NoLostWakeup` | master/net/EventLoop.cc:124-151 | under every interleaving, a loop at its poll with something queued or a quit requested has a readable eventfd, or a remote thread is between its push or quit and its wakeup |
| `WakeupProtocol.ExactlyOnceInOrder` | master/net/EventLoop.cc:295-310 | functors run once each, in the order in which they were queued; what has not run is in hand or still queued |
| `WakeupProtocol.RunsWithinOneIteration` | master/net/EventLoop.cc:124-151 | everything queued while the loop is at its poll has run when the loop is back at its test |
| `WakeupProtocol.SweptAfterPoll` | master/net/EventLoop.cc:295-310 | what had been queued when a poll returned has been run by the next poll |
| `WakeupProtocol.QuitWithinOnePoll` | master/net/EventLoop.cc:167-179 | after a quit the loop polls at most once more, and not at all unless it was at its poll |
| `WakeupProtocol.HistoryGrows` | master/net/EventLoop.cc:194-209 | nothing queued or run is forgotten, and a quit is not taken back |
| `WakeupProtocol.PushedByPushes` | master/net/EventLoop.cc:194-209 | what was queued is what the pushes of the run queued, by whatever thread, in order; to quit was requested if and only if some step requested it |
| `WakeupProtocol.OwnAmongPushes` | master/net/EventLoop.cc:194-209 | what the loop thread queues is among what is queued, as often |
| `WakeupProtocol.OwnWakeupIsNeeded` | master/net/EventLoop.cc:203-208 | the wakeup the loop thread writes to itself is not redundant: a reachable state depends on it |
| `EventLoops.EventLoop.RemoteAction` | master/net/EventLoop.cc:194-209 | the push, the store of the quit flag and the write to the eventfd of a remote thread are steps of the protocol |
| `EventLoops.EventLoop.Interrupted` | master/net/EventLoop.cc:194-209 | at a point of interruption remote threads do everything they attempt that is possible, a run of the protocol that leaves the loop where it is |
| `EventLoops.EventLoop.QueueInLoop` | master/net/EventLoop.cc:194-209 | a functor queued by the loop thread is in the queue next, is the only one the loop thread queues, and is followed by a wakeup exactly when functors are being run |
| `EventLoops.EventLoop.Serve` | master/net/EventLoop.cc:128-144 | what a handler or functor asks for is queued, once each and in order; a quit asked for is requested |
| `EventLoops.FunctorsAreAsked` | master/net/EventLoop.cc:194-209 | as often as it is asked for |
| `EventLoops.EventLoop.RequestQuit` | master/net/EventLoop.cc:167-179 | a quit by the loop thread is a step of the protocol |
| `EventLoops.EventLoop.HandleRead` | master/net/EventLoop.cc:284-293 | reading the eventfd resets its counter |
| `EventLoops.EventLoop.RunAll` | master/net/EventLoop.cc:305-308 | runs the functors swapped out, each once and in order, under interference, and queues what they ask for |
| `EventLoops.EventLoop.SwapOut` | master/net/EventLoop.cc:295-303 | takes the whole queue at once, under interference |
| `EventLoops.EventLoop.DoPendingFunctors` | master/net/EventLoop.cc:295-310 | swaps the queue out once and runs what it held: all that was queued before has run |
| `EventLoops.EventLoop.Iterate` | master/net/EventLoop.cc:124-151 | one iteration: handlers, then the functors collected; what was asked for up to the collection has run; when the poll reports the wakeup, the wakeups left unread were written in this iteration |
| `EventLoops.EventLoop.Loop` | master/net/EventLoop.cc:116-151 | every execution of the loop, under any interference between its atomic actions, is a run of the protocol, so that no wakeup is lost; every functor that a handler asks for has run by the end of its iteration, and every one that a functor asks for by the end of the next; the loop ends exactly when asked to quit |
| `EventLoops.ProgressRuns` | master/net/EventLoop.cc:124-151 | the same, from what is known after any number of iterations |
| `TcpProtocol.NextKeepsInv` | master/net/TcpConnection.cc:127-430 | every step of the loop, of users on any thread and of the kernel keeps the stream, closing, life-cycle and dispatch invariants |
| `TcpProtocol.TaskKeepsInv` | master/net/TcpConnection.cc:199-347 | so does every queued task, run at any later time and in any order, and its assertions hold |
| `TcpProtocol.DispatchKeepsInv` | master/net/Channel.cc:89-127 | so does each part of the handling of an event, with other steps between the parts |
| `TcpProtocol.AssertsHoldIff` | master/net/TcpConnection.cc:416-422 | at every reachable state an assertion fails in exactly one case: end of stream is read for a descriptor reported as hung up without input but with another reason to read |
| `TcpProtocol.RunKeepsInv` | master/net/TcpConnection.cc:127-430 | every run without that case, and without starting or stopping to read at the wrong time, keeps the invariants and runs into no failing assertion |
| `TcpProtocol.DoubleCloseHappens` | master/net/Channel.cc:94-119 | that case is reachable |
| `TcpProtocol.StepAccepts` | master/net/TcpConnection.cc:135-197 | a message is accepted whole or refused whole; it is refused if and only if the connection is closed or the direct write finds the other end gone; nothing sent is taken back |
| `TcpProtocol.Conservation` | master/net/TcpConnection.cc:135-216 | over every run the bytes the kernel took followed by the queued bytes are the accepted messages in order |
| `TcpProtocol.ReceivedIsDelivered` | master/net/TcpConnection.cc:350-358 | over every run the bytes received are those of the reads whose events call for reading, in order, and of these the user has taken as many as it asked for |
| `TcpProtocol.HandedOverIsSent` | master/net/TcpConnection.cc:94-101 | a message that another thread hands over while connected is sent once by the loop thread, or still waits for it |
| `TcpProtocol.SendEffect` | master/net/TcpConnection.cc:142-196 | a send writes at once only when nothing is queued; of its message the kernel takes what it says; the write-complete callback is due if and only if that is everything, the high-water callback if and only if the bytes queued rise from below 64 MiB to at least that |
| `TcpProtocol.WriteEffect` | master/net/TcpConnection.cc:372-414 | a write takes from the queue what the kernel says, and stops writing, with the write-complete callback and the shutdown that waits, if and only if nothing is left |
| `TcpProtocol.EventOutcome` | master/net/Channel.cc:94-127 | an event closes an open connection if and only if it is a hang-up without input or its read finds the end; its data is received; queued bytes are written if it reports writing and the connection is open still |
| `TcpProtocol.SendKeepsInv` | master/net/TcpConnection.cc:135-197 | sending keeps interest in writing equivalent to having queued bytes |
| `TcpProtocol.WriteKeepsInv` | master/net/TcpConnection.cc:372-414 | so does writing, for every answer of the kernel |
| `TcpProtocol.ShutdownMeansDelivered` | master/net/TcpConnection.cc:199-216 | unless the connection has closed, its write side is shut down only when every accepted byte is delivered |
| `TcpProtocol.ShutdownLosesBytesIff` | master/net/TcpConnection.cc:208-216 | the exact exception: it is shut down with bytes undelivered if and only if a shutdown queued by another thread runs after the connection closed with bytes left |
| `TcpProtocol.LateShutdownHappens` | master/net/TcpConnection.cc:208-216 | which is reachable |
| `TcpProtocol.ClosedAssertsHoldIff` | master/net/TcpConnection.cc:300-347 | a closed connection, in any run with reading started and stopped at will, meets every assertion except in two cases: it is destroyed while the last call on its reading was a start, or an event reports the end again; an event begins only after such a start |
| `TcpProtocol.ClosedCanFailIff` | master/net/TcpConnection.cc:300-347 | between events of a closed connection, some continuation without further calls on its reading fails an assertion if and only if the last such call since the close was a start |
| `TcpProtocol.RemovedStaysOutIff` | master/net/Channel.cc:30-38 | after its removal a channel is out of the poller, as its destructor asserts, if and only if reading was not started since, nor stopped for the first time |
| `TcpProtocol.ReadCallKeepsInvIff` | master/net/TcpConnection.cc:295-323 | in every state, the calls on reading that leave mask and registration in order are exactly those the regular runs admit |
| `TcpProtocol.ReadAfterCloseHappens` | master/net/TcpConnection.cc:300-308 | reading started after the close makes the assertion on the channel fail when the connection is destroyed |
| `TcpProtocol.ShutdownNotLost` | master/net/TcpConnection.cc:199-261 | a requested shutdown is not forgotten: with every byte delivered it has happened, or a task that closes the connection is still queued |
| `TcpProtocol.NeverGoesBack` | master/net/TcpConnection.cc:127-430 | over every run the state only goes on: connecting, connected, disconnecting, disconnected |
| `TcpProtocol.RequestsStick` | master/net/TcpConnection.cc:199-261 | a close asked for on an open connection, now or with a delay, is done or queued ever after; a shutdown asked for ends sending ever after and is done, queued, or waits for bytes to be written |
| `TcpProtocol.OpenReads` | master/net/TcpConnection.cc:300-334 | a connection that is not closed waits for input exactly when its start or its user last wanted it to |
| `TcpProtocol.NothingAfterClose` | master/net/TcpConnection.cc:416-430 | after the close no run accepts or writes anything, also not later in the same event, even with reading started again; the connection stays closed, its removal takes its course, and it waits for input exactly when the last call on its reading was a start |
| `TcpProtocol.LifeExactlyOnce` | master/net/TcpConnection.cc:325-347 | up, down, close callback, removal from the map and removal of the channel happen in this order and at most once; a closed connection without pending removal tasks has had each exactly once |
| `TcpConnections.TcpConnection.constructor` | master/net/TcpConnection.cc:30-57 | a new connection is at the start of the protocol |
| `TcpConnections.TcpConnection.WriteDirectly` | master/net/TcpConnection.cc:149-173 | the attempt to write at once, made only when nothing is queued |
| `TcpConnections.TcpConnection.Enqueue` | master/net/TcpConnection.cc:183-196 | queues the rest, enables writing, and posts the high-water callback exactly when the mark is crossed |
| `TcpConnections.TcpConnection.SendInLoop` | master/net/TcpConnection.cc:135-197 | on the real buffer and interest mask, is the send of the protocol |
| `TcpConnections.TcpConnection.HandleWrite` | master/net/TcpConnection.cc:372-414 | is the write of the protocol, including the shutdown that waited for the last byte |
| `TcpConnections.TcpConnection.WriteQueued` | master/net/TcpConnection.cc:377-397 | what a write does to the buffer, the mask, the tasks and the write side |
| `TcpConnections.TcpConnection.HandleRead` | master/net/TcpConnection.cc:350-370 | is the read of the protocol: data goes to the end of the input buffer, end of stream closes, an error changes nothing |
| `TcpConnections.TcpConnection.HandleClose` | master/net/TcpConnection.cc:416-430 | is the close of the protocol |
| `TcpConnections.TcpConnection.Send` | master/net/TcpConnection.cc:85-103 | a send on the loop thread is taken only while connected |
| `TcpConnections.TcpConnection.RemoteSend` | master/net/TcpConnection.cc:94-101 | a send on another thread becomes a task |
| `TcpConnections.TcpConnection.Shutdown` | master/net/TcpConnection.cc:199-206 | starts disconnecting, and shuts down at once if nothing is queued |
| `TcpConnections.TcpConnection.RemoteShutdown` | master/net/TcpConnection.cc:199-206 | starts disconnecting and leaves the rest to a task |
| `TcpConnections.TcpConnection.ForceClose` | master/net/TcpConnection.cc:242-249 | starts disconnecting and queues the close, on any thread |
| `TcpConnections.TcpConnection.ForceCloseWithDelay` | master/net/TcpConnection.cc:251-261 | starts disconnecting and has the close requested later |
| `TcpConnections.TcpConnection.ForceCloseInLoop` | master/net/TcpConnection.cc:263-271 | closes unless closed already |
| `TcpConnections.TcpConnection.StartReadInLoop` | master/net/TcpConnection.cc:300-308 | turns interest in reading on, in every state; a step of a regular run exactly when it is timely |
| `TcpConnections.TcpConnection.StopReadInLoop` | master/net/TcpConnection.cc:315-323 | turns interest in reading off, in every state; a step of a regular run exactly when it is timely |
| `TcpConnections.TcpConnection.ConnectEstablished` | master/net/TcpConnection.cc:325-334 | registers the channel and makes the up callback |
| `TcpConnections.TcpConnection.ConnectDestroyed` | master/net/TcpConnection.cc:336-347 | removes the channel, closing first if still connected |
| `TcpConnections.TcpConnection.RunTask` | master/net/TcpConnection.cc:135-347 | running a queued task is a step of the protocol and meets its assertions |
| `TcpConnections.TcpConnection.HandleEvent` | master/net/Channel.cc:89-127 | one event is close, error, read and write in this order, with exactly the possible and timely calls of the user code that the message callback runs, and a run of the protocol |
| `TcpConnections.TcpConnection.Callback` | master/net/TcpConnection.cc:356-358 | user code makes each of its calls that is possible and timely, in order |
| `TcpConnections.TcpConnection.Facts` | master/net/TcpConnection.cc:135-430 | what holds of the fields of every connection at any time: conservation of the bytes accepted and of the bytes delivered, interest in reading as last wanted, interest in writing exactly while bytes are queued, shutdown only when none are, callbacks in order and once |
| `TcpServers.TcpServer.NewConnection` | master/net/TcpServer.cc:69-109 | a new connection never replaces one in the map |
| `TcpServers.TcpServer.RemoveConnectionInLoop` | master/net/TcpServer.cc:117-128 | a closed connection is in the map when its removal runs, as the code asserts, is taken out, and its destruction is queued |
| `PollPollers.WatchedIsRegistry` | master/net/poller/PollPoller.cc:67-102 | an arranged array makes poll(2) watch exactly the registered descriptors with non-empty masks |
| `PollPollers.PushArranged` | master/net/poller/PollPoller.cc:70-84 | appending a new channel keeps the array arranged if and only if its mask is not empty |
| `PollPollers.ChangeArranged` | master/net/poller/PollPoller.cc:85-101 | storing a mask, or silencing the descriptor, keeps it arranged |
| `PollPollers.SwapRemoveArranged` | master/net/poller/PollPoller.cc:116-132 | swapping the last entry into the place of the removed one, silenced or not, keeps it arranged |
| `PollPollers.PollPoller.UpdateChannel` | master/net/poller/PollPoller.cc:67-102 | is the update of the registry, and keeps the array in order if and only if the first mask of a new channel is not empty |
| `PollPollers.PollPoller.Push` | master/net/poller/PollPoller.cc:71-84 | the entry of a new channel |
| `PollPollers.PollPoller.RemoveChannel` | master/net/poller/PollPoller.cc:104-133 | is the removal from the registry; its assertions hold |
| `PollPollers.PollPoller.MoveLast` | master/net/poller/PollPoller.cc:121-131 | the channel whose entry moved learns its new index |
| `PollPollers.PollPoller.Ask` | master/net/poller/PollPoller.cc:21-34 | poll(2) fills in what happened, nothing on silenced entries, and counts the entries |
| `PollPollers.PollPoller.Poll` | master/net/poller/PollPoller.cc:21-45 | a registered channel is listed if and only if the kernel's answer for it is a positive short; once, in the order of the array, and showing the answer; a poll that fails lists none |
| `PollPollers.PollPoller.FillActiveChannels` | master/net/poller/PollPoller.cc:47-65 | stopping after the reported number of entries misses none: the channels listed are exactly those on whose entries something happened, in the order of the array and with what happened |
| `PollPollers.PollPoller.ArrayWatches` | master/net/poller/PollPoller.cc:67-133 | poll(2) always watches what the registry says |
| `PollRegistry.LastActionCounts` | master/net/poller/PollPoller.cc:67-133 | a descriptor is registered, with some mask, if and only if the last update or removal of it stored that mask |
| `EPollPollers.EPollPoller.UpdateChannel` | master/net/poller/EPollPoller.cc:106-149 | is the update of the registry, and only legal operations are asked of the kernel |
| `EPollPollers.EPollPoller.AddToKernel` | master/net/poller/EPollPoller.cc:111-129 | a new or silenced channel is added to the kernel's set |
| `EPollPollers.EPollPoller.RemoveChannel` | master/net/poller/EPollPoller.cc:151-171 | is the removal from the registry |
| `EPollPollers.EPollPoller.KernelWatches` | master/net/poller/EPollPoller.cc:106-193 | the kernel always watches what the registry says |
| `PollerEquivalence.Step` | master/net/poller/PollPoller.cc:67-133 | one legal update or removal keeps both pollers in step |
| `PollerEquivalence.Drive` | master/net/poller/EPollPoller.cc:106-171 | driven by the same legal sequence, both pollers watch the same descriptors and masks, those of the registered channels |
| `Channels.Channel.EnableWriting` | master/net/Channel.h:72-76 | adds writing to the mask; the channel counts as added to the loop |
| `Channels.Channel.DisableAll` | master/net/Channel.h:82-86 | empties the mask; the channel counts as added to the loop |
| `Channels.Channel.Remove` | master/net/Channel.cc:62-67 | asks for an empty mask, as asserted; the channel no longer counts as added to the loop |
| `LruSpec.RunKeeps` | server/Db.cc:45-75 | after any trace the keys are distinct and not more than the capacity |
| `LruSpec.HitReturnsLastSet` | server/Db.cc:15-75 | a hit returns the value set last, and never one deleted since |
| `LruSpec.RecentlySetHits` | server/Db.cc:45-75 | a key that was set and not deleted since is a hit for as long as fewer other keys have been named than there are places |
| `LruSpec.ListOrderedByUse` | server/Db.cc:45-75 | the list is ordered by last use, so the victim is the least recently used key |
| `LruSpec.InclusionByOne` | server/Db.cc:15-75 | on the same trace a cache with room for one more holds the same items in the same order, and at most one more |
| `LruSpec.InclusionNewKey` | server/Db.cc:59-72 | inserting a new key keeps that, whichever of the two caches evicts, and whom |
| `LruSpec.InclusionExtraKey` | server/Db.cc:15-57 | so does using or deleting the one extra key |
| `LruSpec.Inclusion` | server/Db.cc:15-75 | for any larger capacity the smaller list is a subsequence of the larger |
| `LruSpec.LargerNeverMisses` | server/Db.h:35 | a larger cache hits wherever a smaller one does, with the same value |
| `Dbs.EraseRepresents` | server/Db.cc:28-43 | erasing through the stored iterator keeps list and map agreeing, and every other iterator valid |
| `Dbs.TouchRepresents` | server/Db.cc:51-57 | moving a key to the front and storing the new iterator does too |
| `Dbs.PushRepresents` | server/Db.cc:68-72 | so does inserting a key |
| `Dbs.PopRepresents` | server/Db.cc:61-67 | so does dropping the key at the back |
| `Dbs.SlotListsItsKeys` | server/Db.h:66-71 | the keys listed under a slot are exactly the live keys filed there, each once |
| `Dbs.Db.Contain` | server/Db.cc:5-13 | finds exactly the live keys |
| `Dbs.Db.GetKV` | server/Db.cc:15-26 | is the get of the specification, with its result |
| `Dbs.Db.SetKV` | server/Db.cc:45-75 | is the set of the specification, on list, map and multimap; the key is filed under the slot sent if and only if it was absent or filed there |
| `Dbs.Db.Refresh` | server/Db.cc:51-57 | a present key takes the new value and moves to the front; its slot entry stays |
| `Dbs.Db.EvictLast` | server/Db.cc:61-67 | drops the least recently used key from all three structures |
| `Dbs.Db.Insert` | server/Db.cc:68-72 | adds the key to all three structures |
| `Dbs.Db.DelKV` | server/Db.cc:28-43 | is the deletion of the specification |
| `Dbs.Db.AddSlots` | server/Db.cc:88-91 | installs the slot set |
| `Dbs.Db.DelSlots` | server/Db.cc:94-99 | hands back the slots in which old and new set differ; when slots are only given up, exactly those |
| `Dbs.Drive` | server/Db.cc:15-75 | any trace on a fresh store gives the contents, the answers and the filing of the specification |
| `Dbs.FiledUnderOwnSlot` | server/Db.cc:70 | when the slot is a function of the key, every live key is filed under its slot |
| `Dbs.LiveKeysAreFiled` | server/Db.cc:59-72 | after any trace the filed keys are the live keys |
| `Dbs.FiledUnderInsertionSlot` | server/Db.cc:45-72 | after any trace a live key is filed under the slot of the last set that found it absent, so under the slot last sent if and only if that is the same |
| `Dbs.FiledUnderSentSlotIff` | server/Db.cc:45-72 | a set files its key under the slot it sends if and only if the key was absent or is filed there |
| `Dbs.ResetKeepsOldSlot` | server/Db.cc:51-57 | a witness: a key set twice, with two slots, stays under the first |
| `Bytes.DecodeEncode` | master/net/Buffer.h:219-309 | every integer of a width is read back from its network-order bytes |
| `Bytes.EncodeDecode` | master/net/Buffer.h:277-309 | and all bytes of a width are those of the integer read from them |
| `Bytes.NetworkOrder` | master/net/Buffer.h:219-242 | the first byte is the most significant one |
| `Bytes.FourBytes` | master/net/Buffer.h:286-291 | the 32-bit integer that four bytes stand for |
| `Buffers.Buffer.Slide` | master/net/Buffer.h:380-387 | the overlapping copy to the front keeps the readable bytes |
| `Buffers.Buffer.MakeSpace` | master/net/Buffer.h:370-388 | grows or slides, keeps the readable bytes, makes the room asked for; the assertion about the reader index holds |
| `Buffers.Buffer.EnsureWritableBytes` | master/net/Buffer.h:187-194 | room is there afterwards, contents as before |
| `Buffers.Buffer.WriteBytes` | master/net/Buffer.h:206-210 | copied bytes become readable at the end |
| `Buffers.Buffer.Append` | master/net/Buffer.h:174-179 | adds at the end, through growth and sliding |
| `Buffers.Buffer.Prepend` | master/net/Buffer.h:335-341 | adds at the front |
| `Buffers.Buffer.Retrieve` | master/net/Buffer.h:103-114 | drops from the front |
| `Buffers.Buffer.RetrieveAll` | master/net/Buffer.h:143-147 | empties the buffer |
| `Buffers.Buffer.RetrieveAsString` | master/net/Buffer.h:155-161 | takes from the front |
| `Buffers.Buffer.Unwrite` | master/net/Buffer.h:212-216 | drops from the end |
| `Buffers.Buffer.Shrink` | master/net/Buffer.h:343-349 | moves the contents to a new array with the reserve asked for |
| `Buffers.Buffer.Swap` | master/net/Buffer.h:46-51 | exchanges two buffers |
| `Buffers.Buffer.ReadFd` | master/net/Buffer.cc:16-48 | whatever the split between the two segments of the read, the received bytes are appended in order |
| `Buffers.Buffer.PeekInt` | master/net/Buffer.h:277-309 | decodes the bytes at the front |
| `Buffers.Buffer.ReadInt` | master/net/Buffer.h:245-273 | and takes them away |
| `Buffers.Buffer.AppendInt` | master/net/Buffer.h:219-242 | appends the bytes of an integer |
| `Buffers.Buffer.PrependInt` | master/net/Buffer.h:311-333 | prepends them |
| `Buffers.Buffer.AppendAll` | master/net/Buffer.h:219-242 | appends any list of integers of 8, 16, 32 or 64 bits |
| `Buffers.Buffer.Echo` | master/net/Buffer.h:219-273 | and reads them back unchanged and in order |
| `Frames.InspectAppend` | master/net/protobuf/ProtobufCodecLite.cc:62-96 | bytes behind the first frame do not change what is made of it |
| `Frames.DrainAppend` | master/net/protobuf/ProtobufCodecLite.cc:58-97 | draining, appending and draining again is draining all at once; after an error the stream is left alone |
| `Frames.ChunksDoNotMatter` | master/net/protobuf/ProtobufCodecLite.cc:58-97 | for any bytes and any cut into chunks, the same messages are delivered, the same bytes left and the same error reported |
| `Frames.InspectFrame` | master/net/protobuf/ProtobufCodecLite.cc:42-56 | a frame as it is built is accepted and yields its message |
| `Frames.DeliveredIffWithinLimit` | master/net/protobuf/ProtobufCodecLite.cc:65-69 | the frame of a message is delivered if and only if its body is within 64 MiB |
| `Frames.DrainFrames` | master/net/protobuf/ProtobufCodecLite.cc:58-97 | frames followed by part of a frame yield exactly their messages and leave exactly the part |
| `Frames.RoundTrip` | master/net/protobuf/ProtobufCodecLite.cc:42-97 | however the stream is cut into chunks |
| `Frames.ParseBody` | master/net/protobuf/ProtobufCodecLite.cc:209-242 | fails with an error or yields a message, never both |
| `Frames.FrameParts` | master/net/protobuf/ProtobufCodecLite.cc:42-56 | a frame is the length of what follows, the tag, the serialized message, and the checksum of these two |
| `Frames.Verdict` | master/net/protobuf/ProtobufCodecLite.cc:209-242 | of a complete frame, a wrong checksum, then a wrong tag, then a payload that does not parse are each reported as their error; every other frame is delivered; one the raw callback refuses is passed over |
| `Frames.BadLength` | master/net/protobuf/ProtobufCodecLite.cc:65-69 | a length below the smallest or above 64 MiB is an error |
| `Codecs.ProtobufCodecLite.SerializeToBuffer` | master/net/protobuf/ProtobufCodecLite.cc:104-148 | appends the serialized message |
| `Codecs.ProtobufCodecLite.FillEmptyBuffer` | master/net/protobuf/ProtobufCodecLite.cc:42-56 | leaves exactly the frame in the buffer |
| `Codecs.ProtobufCodecLite.OnMessage` | master/net/protobuf/ProtobufCodecLite.cc:58-97 | the loop over the buffer delivers, leaves and reports what the specification says, and terminates |
| `Codecs.ProtobufCodecLite.Converse` | master/net/protobuf/ProtobufCodecLite.cc:58-97 | a connection that receives chunks delivers what the whole stream says |
| `HttpMessages.FindCrlf` | master/net/Buffer.h:74-78 | the first line end |
| `HttpMessages.ParseAppend` | master/net/http/HttpContext.cc:60-118 | a prefix that parses without completing the request leaves off where the whole goes on; one that completes or refuses it decides the whole |
| `HttpMessages.ChunksDoNotMatter` | master/net/http/HttpContext.cc:60-118 | however a stream is cut, verdict, state, request and unread bytes are those of parsing it at once |
| `HttpMessages.AcceptedIffWellFormed` | master/net/http/HttpContext.cc:16-57 | a request line is accepted if and only if it is a known method, a target without spaces and a known version, separated by single spaces |
| `HttpMessages.RenderedRequestLine` | master/net/http/HttpContext.cc:16-57 | and then the request has its method, the path before the question mark, the query from it on, and the version |
| `HttpMessages.KnownNames` | master/net/http/HttpRequest.h:53-83 | the five methods and two versions are recognised by exactly their names |
| `HttpMessages.RenderedHeader` | master/net/http/HttpRequest.h:135-149 | a header line yields its name and its value without surrounding white space |
| `HttpMessages.RenderedHeaders` | master/net/http/HttpContext.cc:88-111 | header lines up to the empty one are collected, later ones replacing earlier ones of the same name |
| `HttpMessages.LastValueCounts` | master/net/http/HttpRequest.h:135-149 | of several headers of one name the last value counts |
| `HttpMessages.NoColonEnds` | master/net/http/HttpContext.cc:91-103 | a line without a colon ends the headers, also when it is not empty |
| `HttpMessages.RoundTrip` | master/net/http/HttpContext.cc:60-118 | a rendered message, cut anyhow and followed by anything, is parsed back into its request and what follows is left |
| `HttpMessages.RetryAfterFailure` | master/net/http/HttpRequest.h:53-83 | after a refused request line the next call meets the assertion in `setMethod` if and only if the line does not begin with a known method and a space |
| `HttpMessages.RetryFails` | master/net/http/HttpRequest.h:53-55 | such a line: a method and a space alone |
| `HttpMessages.RefusedAgain` | master/net/http/HttpContext.cc:71-84 | a refused line is refused again by every later call, with whatever follows |
| `HttpMessages.RefusedForGood` | master/net/http/HttpServer.cc:72-76 | after a refusal no call answers anything: each sends one more refusal, or the first runs into the assertion of `setMethod` |
| `HttpMessages.AnsweredAndUnread` | master/net/http/HttpServer.cc:66-83 | the requests a stream holds are those answered and those still to be read, whatever comes next |
| `HttpMessages.StreamHolds` | master/net/http/HttpServer.cc:66-83 | a stream of rendered messages holds exactly their requests |
| `HttpMessages.AnsweredCount` | master/net/http/HttpServer.cc:66-83 | how many requests are answered, from the stream and its cut: the least over j of the number that the first j chunks hold plus one for each chunk after them |
| `HttpMessages.AnsweredIff` | master/net/http/HttpServer.cc:66-83 | requests are answered in order, at most one a call; all of a stream are answered if and only if, for every k, the last k chunks complete at most k of them, and otherwise the bytes left unread hold a complete one |
| `HttpMessages.PipelinedWaits` | master/net/http/HttpServer.cc:66-83 | any two rendered messages that arrive together: the second waits for more bytes, while apart both are answered |
| `HttpMessages.WaitingChangesNothing` | master/net/http/HttpContext.cc:66-85 | while no request line was taken the request is unchanged |
| `HttpContexts.HttpRequest.SetMethod` | master/net/http/HttpRequest.h:53-83 | recognises the five methods |
| `HttpContexts.HttpRequest.AddHeader` | master/net/http/HttpRequest.h:135-149 | the two trimming loops compute what the specification says |
| `HttpContexts.HttpContext.ProcessRequestLine` | master/net/http/HttpContext.cc:16-57 | verdict and request, also when refused half-way |
| `HttpContexts.HttpContext.ParseRequest` | master/net/http/HttpContext.cc:60-118 | the loop consumes exactly the complete lines, terminates, and stamps the time when the request line is taken |
| `HttpContexts.HttpContext.Reset` | master/net/http/HttpContext.h:49-54 | back to an empty request |
| `HttpContexts.HttpContext.Serve` | master/net/http/HttpServer.cc:66-83 | a connection of the server, fed in chunks: one parse a chunk, a refusal counted, a complete request answered and the context reset; answers, refusals, state and unread bytes are those of the specification |
| `Dates.NextDayIsNext` | master/base/Date.cc:16-23 | the next day of the calendar, across months, years and leap days, has the next day number |
| `Dates.NumberCountsDays` | master/base/Date.cc:16-38 | a day number counts calendar days since 1 March -4800, and the inverse formula finds the date |
| `Dates.DateOfNumber` | master/base/Date.cc:25-38 | every number from -32044 up yields a valid date whose number it is |
| `Dates.NumberOfDate` | master/base/Date.cc:16-38 | every valid date from the first on is found again from its number |
| `Dates.FirstNumber` | master/base/Date.cc:22 | the first date has number -32044 |
| `Dates.NoOverflowIff` | master/base/Date.cc:25-38 | no subexpression leaves 32 bits if and only if the number is at most 536838867 |
| `TimeZones.TimeRoundTrip` | master/base/TimeZone.cc:315-356 | every time from the earliest date on, before or after 1970, is recovered from its civil time, whose fields are in range; 32-bit integers suffice if and only if the time is not after the latest |
| `TimeZones.UtcOverflowsIff` | master/base/TimeZone.cc:315-356 | no cast and no expression of the conversion and back leaves 32 bits if and only if the time is on or before the last day of the date formulas |
| `TimeZones.FieldsRoundTrip` | master/base/TimeZone.cc:315-356 | and every valid civil time from its time |
| `TimeZones.SplitIsFloor` | master/base/TimeZone.cc:320-326 | truncating division with its correction splits off whole days, for negative times too |
| `TimeZones.WeekDayInRangeIff` | master/base/Date.h:89-92 | the day of the week is in range if and only if its remainder is not taken of a negative number that 7 does not divide |
| `TimeZones.FirstWeekDayIsNegative` | master/base/TimeZone.cc:315-341 | a witness: the first day of the date formulas has a valid civil time with day of the week -4 |
| `TimeZones.WeekDayAdvances` | master/base/Date.h:89-92 | 1 January 1970 was a Thursday and the days take turns |
| `TimeZones.YearDay` | master/base/TimeZone.cc:335-339 | from 1 January -4799 on, the day of the year counts the days of the months before |
| `TimeZones.FillHMS` | master/base/TimeZone.cc:72-78 | hours, minutes and seconds in range that add up to the seconds |
| `TimeZones.ToUtcTime` | master/base/TimeZone.cc:315-341 | fills in exactly these fields |
| `TimeZones.LowerBound` | master/base/TimeZone.cc:230-233 | binary search for the first transition not before a time |
| `TimeZones.FindLocaltime` | master/base/TimeZone.cc:222-251 | the local time of the last transition at or before the time, and the first one before all transitions |
| `AsyncLoggers.AsyncLogging.Rotate` | master/base/AsyncLogging.cc:38-47 | sets the current buffer aside and starts an empty one; no line is lost |
| `AsyncLoggers.AsyncLogging.Append` | master/base/AsyncLogging.cc:29-51 | takes every line that fits an empty buffer, at the end of what is due, and no other |
| `AsyncLoggers.AsyncLogging.Take` | master/base/AsyncLogging.cc:70-85 | takes all buffers and leaves an empty one; at least one was taken |
| `AsyncLoggers.AsyncLogging.WriteBuffers` | master/base/AsyncLogging.cc:98-102 | writes the lines taken, in order |
| `AsyncLoggers.AsyncLogging.Write` | master/base/AsyncLogging.cc:87-102 | up to 25 buffers are written in full; beyond that a notice and the first two are, and exactly the lines of the others are lost |
| `AsyncLoggers.AsyncLogging.Refill` | master/base/AsyncLogging.cc:104-127 | both spare buffers can always be refilled: the assertions hold |
| `AsyncLoggers.AsyncLogging.Round` | master/base/AsyncLogging.cc:64-128 | one round writes everything logged before it |
| `AsyncLoggers.Drive` | master/base/AsyncLogging.cc:29-128 | however appends and the phases of the back end interleave, while nothing was dropped the file, the buffers in flight, the full buffers and the current one hold every line taken, in order |
| `Numerals.ValueOfDigits` | master/base/LogStream.cc:34-73 | the numeral of a number is canonical and has its value, in both bases |
| `Numerals.DigitsOfValue` | master/base/LogStream.cc:34-73 | and every canonical numeral is that of its value |
| `Numerals.ParseDecimal` | master/base/LogStream.cc:34-55 | signed decimal numerals are canonical and parse back |
| `Numerals.DecimalParse` | master/base/LogStream.cc:34-55 | and there are no others |
| `LogStreams.NumeralsFit` | master/base/LogStream.cc:98-108 | no 64-bit integer, signed or unsigned, has more than 20 characters, or 16 in hexadecimal |
| `LogStreams.DecimalDigit` | master/base/LogStream.cc:26-28 | the table maps remainders of either sign to the digit of their magnitude |
| `LogStreams.MagnitudeSplits` | master/base/LogStream.cc:42-43 | truncating division and remainder take the digits of the magnitude, whatever the sign |
| `LogStreams.WriteDigits` | master/base/LogStream.cc:37-45 | the digit loop leaves the numeral of the magnitude backwards, also for the most negative integer |
| `LogStreams.Reverse` | master/base/LogStream.cc:52 | reversal in place |
| `LogStreams.Convert` | master/base/LogStream.cc:34-55 | writes the canonical decimal numeral of any 64-bit integer and a NUL, in at most 21 characters, and nothing before it |
| `LogStreams.WriteHexDigits` | master/base/LogStream.cc:59-67 | the same for base 16 |
| `LogStreams.ConvertHex` | master/base/LogStream.cc:57-73 | writes the canonical hexadecimal numeral and a NUL |
| `LogStreams.RoomSuffices` | master/base/LogStream.cc:110-118 | the 32 bytes reserved for a number exceed what it takes |
| `LogStreams.OneByteFree` | master/base/LogStream.h:33-41 | whatever is written to it, a buffer keeps at least one free byte |
| `LogStreams.NothingLost` | master/base/LogStream.h:33-41 | a line that leaves the reserve of a number is held in full |
| `LogStreams.RenderedParts` | master/base/LogStream.h:80-150 | which is each item in turn |
| `LogStreams.RenderedItem` | master/base/LogStream.h:80-150 | a text as it is, a number in decimal, an address in hexadecimal after 0x |
| `LogStreams.FixedBuffer.Append` | master/base/LogStream.h:33-41 | appends all of a text or none of it |
| `LogStreams.LogStream.FormatInteger` | master/base/LogStream.cc:110-118 | appends the numeral, or nothing without the reserve |
| `LogStreams.LogStream.FormatPointer` | master/base/LogStream.cc:168-180 | appends 0x and the numeral, or nothing |
| `LogStreams.LogStream.Log` | master/base/LogStream.h:80-150 | any line holds exactly the items that found room, in order |
| `BlockingQueues.NextKeepsInv` | master/base/BoundedBlockingQueue.h:24-48 | every pass through the monitor, by a newcomer or a woken thread, keeps bound, order and sufficient wakeups |
| `BlockingQueues.PutKeepsInv` | master/base/BoundedBlockingQueue.h:24-34 | a pass of a producer does |
| `BlockingQueues.TakeKeepsInv` | master/base/ThreadPool.cc:86-105 | a pass of a consumer does, also in a stopped pool |
| `BlockingQueues.RunKeepsInv` | master/base/BoundedBlockingQueue.h:24-48 | so does every schedule, with barging threads and spurious wakeups |
| `BlockingQueues.NoLostWakeup` | master/base/BoundedBlockingQueue.h:24-48 | nobody who could proceed is left waiting with nobody woken; in a stopped pool no worker waits |
| `BlockingQueues.DeadlockIffNoRoom` | master/base/BoundedBlockingQueue.h:24-48 | producers and consumers can all wait for each other if and only if the maximum is 0 |
| `BlockingQueues.StrandedIffFull` | master/base/ThreadPool.cc:66-84 | a blocked producer can be released without a worker taking a task if and only if the queue is not full |
| `BlockingQueues.StrandedHappens` | master/base/ThreadPool.cc:47-84 | which stopping a pool can bring about, since it wakes only the workers |
| `BlockingQueues.ForeignKeeps` | master/base/BoundedBlockingQueue.h:24-48 | what the other threads do leaves a blocked thread blocked or wakes it, and forgets nothing put or taken |
| `BlockingQueues.ForeignCounts` | master/base/BoundedBlockingQueue.h:24-48 | and puts and takes nothing in its name |
| `BlockingQueues.BoundedBlockingQueue.PutSection` | master/base/BoundedBlockingQueue.h:27-33 | one stretch under the mutex: puts the item, or waits exactly when the queue is full |
| `BlockingQueues.BoundedBlockingQueue.TakeSection` | master/base/BoundedBlockingQueue.h:39-47 | one stretch under the mutex: takes the front, or waits exactly when the queue is empty |
| `BlockingQueues.BoundedBlockingQueue.Put` | master/base/BoundedBlockingQueue.h:24-34 | the wait loop, against any steps of others: when it returns the item has been put at the end, exactly once; the assertion holds |
| `BlockingQueues.BoundedBlockingQueue.Take` | master/base/BoundedBlockingQueue.h:36-48 | the wait loop: when it returns, it has taken exactly one item, the front of the queue, and returns it |
| `BlockingQueues.BoundedBlockingQueue.Bounded` | master/base/BoundedBlockingQueue.h:27 | the queue never exceeds its maximum, so that testing for equality is testing for full |

## Left out

- Sockets, files, epoll, poll, timerfd and eventfd themselves: only their contracts are modelled.
- `master/PpMaster.cc`: the reassignment of slots is unfinished in the repository.
- `server/lruMap.cc` (an older variant of the store), `server/DbServer.cc` (slicing and dispatch of messages) and the scratch files of `server`.
- Connector, `TcpClient` and the RPC classes: they rest on caller discipline, or on services that are not part of this model.
- Destruction of a `TcpServer` while a connection is disconnecting, where `connectDestroyed` finds a channel that still has events.
- Functors queued and quits requested before `loop()` is entered: the wakeup properties start at an empty queue.
- Timers added or cancelled from another thread before the queued insertion has run; the calls modelled are those made in the loop thread.
- Floating-point intervals of timers are whole microseconds; formatting of `double` and `Fmt` is not modelled.
- Allocation failure: an address that is in use is never handed out, and the model then refuses the add.
- Adler-32 (section 2.2 of RFC 1950) is an uninterpreted function of the bytes; a message's serializer and parser are assumed to be inverse where a round trip is claimed.
- The test and the change of a connection's state by `shutdown` and `forceClose` are one atomic step, as if the two lines could not be interrupted.
- Write-complete and high-water callbacks are taken to be set; `send` of a whole `Buffer` is modelled as a send of its bytes.
- The order in which tasks of a connection run: the model allows every order, so nothing is claimed about the relative order of messages sent from different threads.
- Updating a channel after it was removed, or removing it twice: legal sequences only, as both pollers assert.
- Time zone files, the daylight-saving adjustment in `fromLocalTime` and the search by local time, whose keys need not be sorted.
- Start and stop of the logging thread; lines logged after the last round before a stop are not written.
- Buffers of the log are the lines they hold, with their lengths, not arrays; `LogStreams.FixedBuffer` models the array.
- `Codecs.ProtobufCodecLite.FillEmptyBuffer`: the size of a message is not cut to 31 bits, as the serializer's own check ensures; `Frames.DeliveredIffWithinLimit` asks for a size below 4 GiB.
- White space in header values is that of the C locale; bytes above 127 are not white space.
- `TcpConnections.TcpConnection.HandleClose`: user code of the down callback is not run inside it; the state is disconnected by then, so that sends and closes do nothing, and the protocol allows the calls right after.
- `Channels.Channel.EnableWriting`: the call of the poller that follows is not in its contract; what the poller makes of a mask is in `PollPollers.PollPoller.UpdateChannel` and `EPollPollers.EPollPoller.UpdateChannel`.
- `Channels.Channel.DisableAll`: the same.
- `Channels.Channel.Remove`: the same, for the removal from the poller.
- Once the assertion of `setMethod` has failed the program is taken to have ended; what a build without assertions does next is not modelled.
- Mutex, thread, latch, singleton and stack-trace wrappers.
