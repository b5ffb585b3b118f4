# py-netty, verified

A Dafny model of the event loop of py-netty and of what it promises: the outbound write
queue of a channel, the wake-up protocol between submitting threads and the loop, the
life of a client channel from connecting to closed with the bookkeeping around it, the
read side, and the fixed-size frames of the echo runner that travel through all of it.

`dafny verify dfyconfig.toml` checks everything.

The kernel is an adversary throughout: a send takes any positive number of bytes or
raises, a receive returns any part of what has arrived, end of file or an error, select
reports any ready set, a TLS handshake step has any outcome. Clocks are integers passed
in. Handlers and application code appear as further actions between the steps of the
loop, in any order.

| file | content |
|---|---|
| Pipeline.dfy | the write queue of one channel on values, with the history of what was accepted and sent; the invariant and its consequences over runs |
| ChannelObjects.dfy | the same queue as objects: chunks trimmed in place, futures, the batching pass; every method is proved to do what Pipeline says |
| Writability.dfy | the two water marks |
| Lifecycle.dfy | one client channel: connect check, TLS handshake, interest, auto-read, closing, the handler's event language |
| Bookkeeping.dfy, LoopScripts.dfy, EventLoops.dfy | the loop's dictionaries and selector, mutated step by step and kept in agreement; whole scripts over many channels |
| ChannelSpec.dfy | a simple machine that every run of Lifecycle refines, and what follows for connecting, reading and writing |
| AutoRead.dfy | set_auto_read called from several threads |
| ConnectTimeouts.dfy | connect deadlines against the clock |
| WakeUp.dfy, Fairness.dfy, EventFds.dfy | task queue, counter, lock and pipe as an interleaving of any number of threads; infinite fair executions; the descriptor as an object |
| ReadSide.dfy | the adaptive buffer and the receive loop |
| Frames.dfy, EndToEnd.dfy | frames, and the compositions: the frame round trip and off-loop calls in program order |

## Where the code and its promises part

In each case the model follows the code, and a lemma says exactly when the promise holds.

- The round limit of recvall is a test for equality that an error retry skips: `ReadSide.LimitSkipped`, `ReadSide.NoBoundAfterRetries`.
- With debug logging and a negative debug interval select can wait for ever although a connect is pending: `ConnectTimeouts.WaitsForever`, `ConnectTimeouts.UnboundedDelay`.
- A TLS handshake that wants to read turns reading on although auto-read is off, and turning auto-read off during such a handshake leaves the channel asking for nothing until it is written to, auto-read is back on or its connect deadline passes: `Lifecycle.HandshakeOverridesAutoRead`, `Lifecycle.AutoReadOffDeafens`, `Lifecycle.DeafHandshakeHappens`.
- set_auto_read assigns on the calling thread and changes the interest in a later task: after overlapping calls, or a call in the loop that overtakes a queued change, a plain TCP channel can stay without READ interest although auto-read is on. Serial calls agree: `Lifecycle.NoStrandedWriter`, `AutoRead.SerialCallsAgree`, `AutoRead.OverlapBreaks`, `AutoRead.LoopOvertakes`.
- send_all of the echo runner never returns for a client without a channel that has something to send: `Frames.StuckWithoutChannel`.
- channel_unregistered is not fired for a channel that asks for nothing: `Lifecycle.UnregisteredIffWatched`.
- A write on a closed channel is queued and stays undecided unless the channel is closed again: `Pipeline.SecondShut`, `Lifecycle.CloseTwice`.
- An empty write that does not take the direct path is dropped and its future never done: `ChannelObjects.NioSocketChannel.Write`.

## Model

| member | source | states |
|---|---|---|
| Pipeline.AnyRun | py_netty/eventloop.py:195-242 | over every run of writes, passes with partial or failed sends, graceful and forced closes: the bytes sent are a prefix of the bytes accepted; while open, sent followed by queued is exactly what was accepted, no queued data chunk is empty and the byte count is exact; a write has succeeded if and only if its last byte was sent |
| Pipeline.StreamIntegrity | py_netty/eventloop.py:195-242 | nothing is lost, duplicated or reordered between the queue and the socket |
| Pipeline.FuturesAreSetOnce | py_netty/channel.py:541-552 | over any run a decided future keeps its outcome, accepted and sent bytes only grow, and a closed channel stays closed and sends nothing |
| Pipeline.SuccessesFormAPrefix | py_netty/eventloop.py:225-240 | when a write has succeeded, every earlier one has |
| Pipeline.CompletedPrefix | py_netty/eventloop.py:225-242 | on an open channel the succeeded writes are exactly those no longer queued |
| Pipeline.AcceptedAreWrites | py_netty/channel.py:336-349 | the accepted bytes are the bytes of all calls of write, in call order |
| Pipeline.WriteIsAppendThenFlush | py_netty/channel.py:341-349 | trying the socket first is the same as queueing the bytes and draining them at once |
| Pipeline.AppendKeepsInv | py_netty/channel.py:311-318 | queueing a chunk keeps stream, byte count and futures in agreement |
| Pipeline.FlushKeepsInv | py_netty/eventloop.py:217-240 | draining any number of bytes short of a close chunk keeps that agreement |
| Pipeline.WriteKeepsInv | py_netty/channel.py:336-349 | write keeps it in every state, open or closed, queueing or sending directly |
| Pipeline.CloseGracefullyKeepsInv | py_netty/channel.py:212-225 | queueing a close marker keeps it |
| Pipeline.PassKeepsInv | py_netty/eventloop.py:195-242 | a whole writable pass keeps it, also when it closes the channel |
| Pipeline.ShutKeepsInv | py_netty/channel.py:301-309 | failing the queue keeps it: exactly the writes not wholly sent have failed |
| Pipeline.DropDrop | py_netty/eventloop.py:225-237 | two drains in a row are one drain of the sum |
| Pipeline.DropCompletes | py_netty/eventloop.py:225-233 | the chunks a drain finishes are exactly those whose last byte is among the bytes taken |
| Pipeline.DropData | py_netty/eventloop.py:234-237 | draining n bytes leaves exactly the rest of the queued bytes |
| Pipeline.PassesAdd | py_netty/eventloop.py:195-242 | a pass after a pass does what one pass with the summed offers does, whatever was sent in which of them |
| Pipeline.PassClosesIff | py_netty/eventloop.py:204-207 | a pass closes the channel if and only if a close is queued and the kernel takes everything queued before it |
| Pipeline.GracefulCloseFlushes | py_netty/eventloop.py:195-207 | when a pass closes the channel, exactly the bytes accepted before the first close were sent, all those writes succeeded and every later one failed unsent |
| Pipeline.ShutDischarges | py_netty/channel.py:301-309 | closing leaves no write undecided, fails exactly the unfinished ones and sends nothing |
| Pipeline.SecondShut | py_netty/channel.py:301-309 | a second close changes something if and only if a write was queued after the first; until then such a write is undecided |
| Writability.Hysteresis | py_netty/channel.py:281-290 | for any marks: unwritable if and only if some check saw the high mark and none since saw the queue calm down |
| Writability.HysteresisOrdered | py_netty/channel.py:281-290 | the same with the low mark below the high mark, in terms of the two marks only |
| Writability.ChangesAlternate | py_netty/channel.py:288-290 | change events strictly alternate, starting with unwritable, and end at the current state |
| ChannelObjects.Future.Set | py_netty/channel.py:544-547 | an undecided future succeeds, one that is done is left alone |
| ChannelObjects.Future.SetResult | py_netty/eventloop.py:232 | set_result, which would raise on a future that is done, is only ever called on an undecided one |
| ChannelObjects.PendingWriteBatch | py_netty/eventloop.py:180-193 | the batch is the longest prefix of data chunks that is a single chunk or stays within the high mark, is non-empty when the head is data, and its byte total is exact |
| ChannelObjects.Join | py_netty/eventloop.py:212-215 | the bytes of a batch in order |
| ChannelObjects.SkipEmpty | py_netty/eventloop.py:198-200 | empty data chunks at the head succeed without a send |
| ChannelObjects.CompleteBatch | py_netty/eventloop.py:225-235 | after a send the finished chunks of the batch succeed and the first unfinished one is trimmed in place, leaving the simple drain of the batch |
| ChannelObjects.NioSocketChannel.constructor | py_netty/channel.py:257-270 | a new channel: nothing accepted, writable, inactive |
| ChannelObjects.NioSocketChannel.CheckWritability | py_netty/channel.py:281-290 | the flag follows the two marks |
| ChannelObjects.NioSocketChannel.TrySend | py_netty/channel.py:351-365 | a prefix goes out and the rest is returned; it gives up exactly after spin + 1 errors, for any kernel that takes at least one byte or raises |
| ChannelObjects.NioSocketChannel.AddPending | py_netty/channel.py:311-318 | the chunk goes to the end of the queue and is counted, its future with it |
| ChannelObjects.NioSocketChannel.Write | py_netty/channel.py:336-349 | the queue, the socket and the futures change as the value model says; on an active channel with nothing queued the data is tried at once, and queued only if try_send gave up; an empty write succeeds at once or is dropped undecided |
| ChannelObjects.NioSocketChannel.WriteDirectly | py_netty/channel.py:341-347 | the branch that tries the socket: only what it did not take is queued, and nothing unless try_send gave up |
| ChannelObjects.NioSocketChannel.CloseGracefully | py_netty/channel.py:212-225 | a marker with the close future is queued if and only if the channel is active |
| ChannelObjects.NioSocketChannel.FailPendings | py_netty/channel.py:301-309 | exactly the undecided data futures of the queue fail, never the close future; the queue is empty and the channel writable by the low mark |
| ChannelObjects.NioSocketChannel.Close | py_netty/eventloop.py:253-266 | closing also in the middle of a pass: the socket is closed, the close future done, the queue failed |
| ChannelObjects.NioSocketChannel.CloseForcibly | py_netty/channel.py:204-210 | a forced close amounts to failing the queue |
| ChannelObjects.NioSocketChannel.OfferBatch | py_netty/eventloop.py:209-220 | the bytes the kernel took are a prefix of the batch, all of it unless try_send gave up, and are subtracted from the count |
| ChannelObjects.NioSocketChannel.SendBatch | py_netty/eventloop.py:209-240 | one round: what was sent is drained from the front, finished futures succeed; a partly sent batch means that try_send gave up and ends the pass |
| ChannelObjects.NioSocketChannel.Drain | py_netty/eventloop.py:195-242 | the nested loops terminate and amount to dropping the bytes sent from the front of the queue, whatever the chunk sizes, the batching mark and the answers of the kernel; unless one try_send gives up, everything before the first close chunk is sent |
| ChannelObjects.NioSocketChannel.EndPass | py_netty/eventloop.py:204-207 | a close chunk at the head closes the channel, otherwise what is left becomes the queue |
| ChannelObjects.NioSocketChannel.SendPendingChunks | py_netty/eventloop.py:195-242 | the whole pass on the objects: queue, trimmed head, futures and byte count are those of the simple drain of the bytes that went out, which is everything before the first close chunk unless one try_send gave up; only then is anything left queued on an open channel |
| ChannelObjects.Drive | py_netty/channel.py:301-365 | any calls on a channel object against any kernel: the real fields satisfy stream integrity, exact futures and exact accounting, and unless sends fail a writable event empties the queue or closes the channel |
| Lifecycle.RegisterKeeps | py_netty/eventloop.py:125-154 | a registered client channel satisfies the invariant |
| Lifecycle.CheckWritabilityKeeps | py_netty/channel.py:281-290 | so does one whose writability was checked |
| Lifecycle.CloseKeeps | py_netty/eventloop.py:253-266 | closing keeps the invariant and empties the queue |
| Lifecycle.ActivateKeeps | py_netty/eventloop.py:411-414 | activation keeps it and makes the channel active |
| Lifecycle.HandshakeStepKeeps | py_netty/eventloop.py:423-454 | a TLS handshake step with any outcome keeps it; after success the channel is active and queued data waits for writability |
| Lifecycle.CheckActiveKeeps | py_netty/eventloop.py:456-490 | the connect check keeps it for any answer of the kernel and lets application I/O pass only on an active channel |
| Lifecycle.SendPendingKeeps | py_netty/eventloop.py:195-242 | a pass keeps it and is the pass of the write queue |
| Lifecycle.OnWritableKeeps | py_netty/eventloop.py:527-536 | the writable half of the loop body keeps it |
| Lifecycle.OnReadableKeeps | py_netty/eventloop.py:538-550 | so does the readable half |
| Lifecycle.DoKeeps | py_netty/eventloop.py:503-553 | so does anything that can happen to a channel |
| Lifecycle.RunFollows | py_netty/channel.py:186-196 | over any run: what was fired stays fired, a decided connect future keeps its outcome, closed is final and silent |
| Lifecycle.Counts | py_netty/channel.py:493-519 | how often each handler event occurs in a trace the automaton accepts |
| Lifecycle.ReadsOnlyWhileActive | py_netty/eventloop.py:538-547 | data and writability changes are reported only between active and inactive, with TLS only after the handshake |
| Lifecycle.TraceOfAnyRun | py_netty/eventloop.py:411-490 | over every run: registered once; handshake_complete at most once, with TLS only; active at most once and exactly when the connect future succeeded; inactive at most once, after active; writability changes alternate; no byte leaves before activation |
| Lifecycle.NoStrandedWriter | py_netty/channel.py:110-143 | over every run an open channel that has been active and has data queued asks for writability; plain TCP asks for reading as the last change of interest for auto-read said, so in agreement with auto-read if and only if that is the value assigned last |
| Lifecycle.HandshakeOverridesAutoRead | py_netty/eventloop.py:416-421 | with TLS that agreement is broken exactly by a handshake that wants to read while auto-read is off |
| Lifecycle.AutoReadOffDeafens | py_netty/channel.py:324-331 | turning auto-read off, at once or by its queued change, leaves a connecting channel without any interest exactly when the handshake waits for data only |
| Lifecycle.DeafHandshakeHappens | py_netty/channel.py:324-331 | and a run of two steps gets there |
| Lifecycle.UnregisteredIffWatched | py_netty/eventloop.py:109-118 | a close fires channel_unregistered if and only if the channel was asking for some event |
| Lifecycle.CloseDischarges | py_netty/eventloop.py:244-266 | after a close the connect future, carrying success exactly if the channel was activated, and every write are decided; sent writes stay succeeded |
| Lifecycle.CloseTwice | py_netty/eventloop.py:244-266 | a second close fires nothing and changes anything exactly when a write was queued after the first |
| ChannelSpec.LifeAbs | py_netty/eventloop.py:503-553 | over every run a channel has come up, sent, queued, decided its writes and handed out data as a simple machine does that knows nothing of interest, futures and other events |
| ChannelSpec.DoAbs | py_netty/eventloop.py:503-553 | the same of one action: readiness, write, graceful or forced close, timeout |
| ChannelSpec.FirstCheckDecides | py_netty/eventloop.py:456-490 | the first ready event decides: the channel becomes active exactly if the kernel accepts; a refused connect or handshake closes it with the connect future failed and without Active; otherwise it stays as it was |
| ChannelSpec.NeverActiveUnlessAccepted | py_netty/eventloop.py:467-490 | over every run in which no connect or handshake is accepted the channel is never active and sends nothing |
| ChannelSpec.ReadReachesHandler | py_netty/eventloop.py:538-550 | what recvall returned reaches the handler, and the end of the stream without data closes the channel |
| ChannelSpec.ActiveChannelReads | py_netty/eventloop.py:538-550 | so on every active channel that its writable half leaves open |
| ChannelSpec.HandlerGetsAll | py_netty/eventloop.py:543-547 | over every run the handler is given exactly what recvall returned, in order |
| ChannelSpec.ChannelAcceptsWrites | py_netty/channel.py:336-349 | over every run the channel accepts all that is written to it in call order, and what it has sent is a prefix of that |
| ChannelSpec.ActiveChannelSends | py_netty/eventloop.py:527-533 | the writable half hands the kernel what is queued before the first close, as much as it takes |
| ChannelSpec.WritableHalfSettles | py_netty/eventloop.py:530-536 | after its writable half an open channel asks for WRITE exactly if something is left to send, and its writability follows the marks |
| ChannelSpec.UndecidedAsks | py_netty/eventloop.py:416-441 | an unfinished handshake asks for just what it waits for |
| AutoRead.SerialCallsAgree | py_netty/channel.py:324-331 | calls of set_auto_read made one after another, on the loop's thread only with no change queued, leave READ interest equal to auto-read once everything queued has run |
| AutoRead.OneCallerIsSerial | py_netty/channel.py:324-331 | one thread outside the loop as the only caller satisfies that |
| AutoRead.SameValueDoesNothing | py_netty/channel.py:325-326 | a call for the value auto-read already has changes nothing |
| AutoRead.QueuedChangeDiffers | py_netty/channel.py:324-331 | while a change is queued the two differ |
| AutoRead.OverlapBreaks | py_netty/channel.py:324-331 | two overlapping calls can leave auto-read on without READ interest |
| AutoRead.LoopOvertakes | py_netty/channel.py:110-121 | so can a call in the loop that overtakes a queued change |
| AutoRead.ReadsAsAutoReadSays | py_netty/channel.py:324-331 | over every run of a plain TCP channel READ interest and auto-read are what the interleaved calls leave, and agree at rest after serial calls |
| Bookkeeping.OneChannelMoves | py_netty/eventloop.py:253-266 | one channel moving on keeps the deadlines equal to the registered channels that were never active |
| Bookkeeping.OneChannelMore | py_netty/eventloop.py:142-151 | so does one more registered channel |
| Bookkeeping.OneMoreClosed | py_netty/eventloop.py:265-266 | closing channels one by one removes exactly those |
| EventLoops.EventLoop.ModifyFlag | py_netty/eventloop.py:57-78 | the selector watches the channel for exactly its flag, and not at all when that is empty |
| EventLoops.EventLoop.AddFlag | py_netty/channel.py:110-125 | the flag gains the bit and the selector agrees |
| EventLoops.EventLoop.RemoveFlag | py_netty/channel.py:127-143 | the flag loses the bit and the selector agrees |
| EventLoops.EventLoop.RegisterClient | py_netty/eventloop.py:125-154 | channel, interest and deadline are recorded together |
| EventLoops.EventLoop.Unregister | py_netty/eventloop.py:104-120 | selector, dictionary and deadline forget the channel; the handler hears of it only if the selector knew it |
| EventLoops.EventLoop.CloseChannel | py_netty/eventloop.py:253-266 | only this channel leaves, in its closed form |
| EventLoops.EventLoop.SetHandshakeInterest | py_netty/eventloop.py:416-421 | waiting for data asks for reading only, waiting for room adds writing |
| EventLoops.EventLoop.ActivateChannel | py_netty/eventloop.py:411-414 | the channel becomes active and its deadline goes |
| EventLoops.EventLoop.CompleteSslHandshake | py_netty/eventloop.py:423-454 | one handshake step on the dictionaries is the step of the channel |
| EventLoops.EventLoop.CheckChannelActive | py_netty/eventloop.py:456-490 | the connect check on the dictionaries is that of the channel and keeps all of them in agreement |
| EventLoops.EventLoop.SendPendingChunks | py_netty/eventloop.py:195-242 | the pass on the dictionaries, closing included |
| EventLoops.EventLoop.HandleWritable | py_netty/eventloop.py:527-536 | the writable half of the loop body changes this channel as its own model says and nothing else |
| EventLoops.EventLoop.HandleReadable | py_netty/eventloop.py:538-550 | so does the readable half |
| EventLoops.EventLoop.HandleReady | py_netty/eventloop.py:503-550 | one ready descriptor; unknown ones are skipped |
| EventLoops.EventLoop.Write | py_netty/channel.py:336-349 | a write keeps selector and flags in agreement |
| EventLoops.EventLoop.CloseGracefully | py_netty/channel.py:212-225 | so does a graceful close |
| EventLoops.EventLoop.SetAutoRead | py_netty/channel.py:324-331 | so does switching auto-read in the loop without interruption |
| EventLoops.EventLoop.AssignAutoRead | py_netty/channel.py:327 | the half of it on another thread changes the field only |
| EventLoops.EventLoop.ChangeRead | py_netty/channel.py:328-331 | the half in the loop changes the interest, in the flag and the selector |
| EventLoops.EventLoop.CloseForcibly | py_netty/channel.py:204-210 | so does a forced close |
| EventLoops.EventLoop.PollTimeout | py_netty/eventloop.py:357-375 | the timeout comes from the nearest deadline |
| EventLoops.EventLoop.ProcessConnectionTimeout | py_netty/eventloop.py:393-409 | exactly the overdue entries are removed and exactly their channels closed; those still ahead stay, entry and channel |
| EventLoops.EventLoop.Cleanup | py_netty/eventloop.py:268-296 | every registered channel is closed with its connect future and all its writes decided, and the dictionaries and the selector are empty |
| EventLoops.EventLoop.Apply | py_netty/eventloop.py:503-553 | any action on any channel, registered or closed, changes only that channel |
| EventLoops.EventLoop.Drive | py_netty/eventloop.py:492-553 | any script over any number of channels keeps all dictionaries in agreement, and every channel ends where its own state machine goes for the actions addressed to it plus connect timeouts |
| ConnectTimeouts.WaitsForever | py_netty/eventloop.py:357-375 | select may wait for ever with a connect pending exactly when debug logging is on with a negative interval; with none pending, unless a debug interval is set |
| ConnectTimeouts.WaitsWholeSeconds | py_netty/eventloop.py:363-375 | otherwise the wait is the nearest deadline, or a shorter debug interval, rounded down to whole seconds but at least one |
| ConnectTimeouts.TurnInTime | py_netty/eventloop.py:363-409 | in one turn every entry the pass looks at is late by less than 1000 ms plus the processing time, what remains lies ahead, and nothing is removed early |
| ConnectTimeouts.DeadlinesAreMet | py_netty/eventloop.py:393-409 | the same for every turn of every run, with any registrations, removals and early wake-ups |
| ConnectTimeouts.BoundIsTight | py_netty/eventloop.py:375 | a run without processing time in which an entry is 999 ms late |
| ConnectTimeouts.UnboundedDelay | py_netty/eventloop.py:365-369 | with a negative debug interval there is no bound |
| WakeUp.MoveKeepsLocks | py_netty/eventfd.py:48-62 | mutual exclusion is kept by every move of every thread |
| WakeUp.MoveKeepsTokens | py_netty/eventfd.py:48-62 | counter plus uncounted byte equals pipe plus unsettled read, at most one, kept by every move |
| WakeUp.MoveKeepsWaking | py_netty/eventloop.py:80-96 | while the loop is past its last look at the queue and the pipe is empty, every queued task belongs to a call that has yet to write; kept by every move |
| WakeUp.MoveKeepsHistory | py_netty/eventloop.py:166-178 | queue and executed tasks make up all tasks put, those of one thread numbered in order; kept by every move |
| WakeUp.InvAfter | py_netty/eventloop.py:492-553 | all of it after every interleaving |
| WakeUp.NoLostWakeUp | py_netty/eventloop.py:80-96 | while not stopped: once submit_task has returned and the task is still queued, a byte is in the pipe or the loop drains the queue before it selects again |
| WakeUp.NoLostStop | py_netty/eventloop.py:156-164 | once stop has returned, a loop in select has a byte to wake it |
| WakeUp.NothingBlocksTheLoop | py_netty/eventfd.py:57-62 | the counter is 0 or 1, unsafe_read and get never block, a byte is written only into an empty pipe |
| WakeUp.OneInside | py_netty/eventfd.py:49-55 | at most one thread is inside the lock, the loop included |
| WakeUp.TasksRunInOrder | py_netty/eventloop.py:166-178 | tasks run in the order they were put, each once, and those of one thread in its own order with none left out |
| WakeUp.LoopGetsCloser | py_netty/eventloop.py:497-553 | every move of the loop runs a queued task or comes strictly closer to it, whatever select reports |
| WakeUp.OthersDoNotDelay | py_netty/eventloop.py:80-96 | moves of other threads neither remove tasks nor move the loop |
| WakeUp.StopLimitsWork | py_netty/eventloop.py:80-83 | after a stop nobody joins in: the tasks queued or about to be only go down, by each one the loop takes |
| WakeUp.StoppingLoopGetsNearer | py_netty/eventloop.py:497-553 | every move of a stopping loop brings it strictly nearer to its end |
| Fairness.LeavesLock | py_netty/eventfd.py:49-55 | a thread inside the lock leaves it |
| Fairness.LockComesFree | py_netty/eventfd.py:49-62 | whoever holds the lock, the loop included, it comes free again and again |
| Fairness.GetsLock | py_netty/eventfd.py:49 | a thread waiting for the lock gets it |
| Fairness.CallReturns | py_netty/eventloop.py:80-96 | every call of submit_task or stop returns |
| Fairness.MovesOrCan | py_netty/eventloop.py:503-510 | with a task queued or a stop requested the loop is never blocked for good: it moves, or comes to where it can |
| Fairness.LoopMovesAgain | py_netty/eventloop.py:497-553 | with a task queued or a stop requested the loop moves again, and until then keeps its place and the task |
| Fairness.EveryTaskRuns | py_netty/eventloop.py:166-178 | in every strongly fair infinite execution without a stop every queued task is run |
| Fairness.EverySubmitRuns | py_netty/eventloop.py:80-86 | in such an execution the task of every call of submit_task is run |
| Fairness.StoppedLoopExits | py_netty/eventloop.py:497-501 | in every strongly fair execution a loop that was asked to stop finishes, closes the descriptor and exits |
| Fairness.EveryStopExits | py_netty/eventloop.py:156-164 | so does the loop after every call of stop |
| EventFds.BaseEventFD.UnsafeWrite | py_netty/eventfd.py:48-55 | any number of writes leave one byte and a count of one |
| EventFds.BaseEventFD.UnsafeRead | py_netty/eventfd.py:57-62 | a read takes the byte and the count back to zero |
| WakeUp.ClosedForGood | py_netty/eventfd.py:48-62 | once the descriptor is closed its counter and pipe never change again, by whatever call is still on its way and whatever happens next |
| EventFds.UndisturbedWrite | py_netty/eventfd.py:48-55 | in the interleaved protocol an undisturbed interrupt has that effect, except that a byte just read and not yet uncounted stands for it |
| ReadSide.BufsizeBounds | py_netty/channel.py:47-53 | the size stays in [min, max] if it starts there, grows exactly after a full buffer while below the maximum, shrinks exactly after less than half of one while above the minimum, by a factor of two up to these limits, and is never zero |
| ReadSide.FullBuffersGrow | py_netty/channel.py:47-53 | full buffers in a row double the size up to the maximum |
| ReadSide.InboundSocket.Recv | py_netty/channel.py:379 | one receive of a kernel that returns any non-empty part of what fits, end of file, or an error |
| ReadSide.RecvAllFrom | py_netty/channel.py:367-405 | the receive loop computes the specified data, end-of-file flag and remainder |
| ReadSide.StopsWhere | py_netty/channel.py:375-405 | where the loop stops, and that end of file is reported exactly when the last reply is a reset or a receive that finds nothing left of an ended stream |
| ReadSide.NothingLost | py_netty/channel.py:367-405 | what is returned followed by what is left is what had arrived |
| ReadSide.ClosesIff | py_netty/eventloop.py:545-550 | an event closes the channel exactly when after some retries its first other reply is a reset, or a receive from an ended stream with nothing left |
| ReadSide.DeliversStream | py_netty/eventloop.py:543-550 | over any number of readable events the payloads are the received stream in order, and all of it is delivered before an end-of-file close |
| ReadSide.BytesBounded | py_netty/channel.py:375-394 | the bytes of an event are bounded by the sizes its receives can have reached |
| ReadSide.BufsizesBounded | py_netty/channel.py:47-53 | the k-th buffer of an event is at most the initial size doubled k times, and stays between minimum and maximum if the initial size is |
| ReadSide.MostBytesBound | py_netty/channel.py:375-394 | the sum of m such sizes is at most m times the larger of initial and maximum, and at most the sum of the doublings |
| ReadSide.LimitSkipped | py_netty/channel.py:388-404 | the loop exceeds the round limit exactly when the replies bring it to the iteration at the limit and the reply there is an error with a readable socket |
| ReadSide.EventIsBounded | py_netty/channel.py:367-405 | without such an error at most the configured rounds are made, and the bytes are bounded accordingly |
| ReadSide.NoBoundAfterRetries | py_netty/channel.py:400-404 | with such errors one event can make any number of receives |
| Frames.PackUnpack | integration_tests/perf_echo.py:54 | packing and unpacking 32-bit numbers are inverse |
| Frames.ValidIffMade | integration_tests/perf_echo.py:215-233 | a byte string is valid for an id and a sequence number if and only if making that frame at that length gives it back, for all numbers and strings |
| Frames.ClientState.constructor | integration_tests/perf_echo.py:319-330 | a new client, without a channel |
| Frames.ClientState.SendNext | integration_tests/perf_echo.py:332-339 | the next frame is written, until all are |
| Frames.ClientState.SendAll | integration_tests/perf_echo.py:340-342 | all remaining frames are written in order, if there is a channel or nothing to send |
| Frames.StuckWithoutChannel | integration_tests/perf_echo.py:332-342 | with something left to send the loop of send_all makes no progress exactly when there is no channel |
| Frames.ClientState.HandleFrame | integration_tests/perf_echo.py:351-369 | a bad frame is recorded and not counted; a good one counts, completes the client at the last and lets a sequential client send |
| Frames.ClientState.Feed | integration_tests/perf_echo.py:344-349 | whole frames are cut off the front of the buffer and handled in order |
| Frames.FeedFeed | integration_tests/perf_echo.py:344-349 | feeding a and then b is feeding a + b |
| Frames.FeedHandsOverPieces | integration_tests/perf_echo.py:344-349 | for arbitrary bytes feed handles exactly the successive pieces of the frame size, in order, and keeps the remainder |
| Frames.SplitsDoNotMatter | integration_tests/perf_echo.py:344-349 | any split of a stream into reads gives the same client |
| Frames.GoodFrames | integration_tests/perf_echo.py:344-369 | n good frames and a piece of another: n messages more in order, no error, the piece kept, complete exactly at the last message |
| Frames.WholeFrames | integration_tests/perf_echo.py:346-348 | any part of a stream of frames is some whole frames and less than one more |
| Frames.OneOutstanding | integration_tests/perf_echo.py:368-369 | a connected sequential client sends its next frame on every good one and not otherwise: exactly one is outstanding until all are sent |
| Frames.FrameCounts | integration_tests/perf_echo.py:351-362 | a frame counts exactly if it is the frame of this client with the next number; anything else is recorded as an error and changes nothing |
| Frames.FeedKeepsTimes | integration_tests/perf_echo.py:357-366 | the frames out are timed, each one back gives one latency, completion is reported once; as long as no more come back than were sent |
| Frames.FeedKeepsOrder | integration_tests/perf_echo.py:335-338 | the frames written are always those numbered 0, 1, ... |
| Frames.WrittenIsStream | integration_tests/perf_echo.py:332-342 | together they are the stream of frames |
| EndToEnd.ChannelReceives | py_netty/eventloop.py:538-547 | the payloads of a channel whose recvall reads a stream are that stream so far |
| EndToEnd.Hop | py_netty/eventloop.py:195-242 | the payloads the handler at one end is given are a prefix of what was written at the other, for any partial sends, closes and splits into reads |
| EndToEnd.RoundTrip | integration_tests/perf_echo.py:344-369 | a client that has received nothing, whatever it has sent, on a channel joined to an echoing one: it receives its own frames in order without an error and each with its latency, keeps the remainder, is complete exactly when all are back, and a sequential one has exactly its next frame out |
| EndToEnd.ProgramOrder | py_netty/eventloop.py:166-178 | off-loop calls of one thread take effect in the order of the calls |
| EndToEnd.AcceptedAt | py_netty/channel.py:336-340 | the chunk queued by a call stands in the accepted stream at the position of the call |
| EndToEnd.CloseNeverOvertakes | py_netty/channel.py:212-225 | a thread's graceful close stands behind its earlier writes, and if it closes the channel they have succeeded |

## Left out

- Lifecycle.TraceOfAnyRun: the marks are assumed to satisfy 0 <= low < high, as the defaults do; `Writability.Hysteresis` covers all marks.
- EventLoops.EventLoop.RegisterClient: descriptors are used for one channel only, because the dictionaries are keyed by number and a reused one is a new channel; registration for writing only, and of a socket closed before its registration, are not modelled; auto-read switched off before registration appears as an assignment without its change.
- EventLoops.EventLoop.Drive: channels are values in the dictionary; sharing of chunks and futures between a pass and the channel is modelled in ChannelObjects only.
- ChannelObjects.NioSocketChannel.SendPendingChunks: future callbacks and handlers do not re-enter the channel during a pass, which overwrites the queue at its end.
- ChannelObjects.NioSocketChannel.Write: the optional channel_future argument is not modelled; every write gets a future of its own. One that is shared by two writes, or done already, would make set_result raise inside a pass.
- AutoRead.ReadsAsAutoReadSays: no stop; a queued change is refused once the loop is stopping.
- ReadSide.RecvAllFrom: the kernel's replies are a finite script, so an endless sequence of errors with a readable socket is not modelled; the initial buffer size is at least one; the time limits are an arbitrary early return.
- WakeUp.InvAfter: the loop is already started; writing to the pipe does not raise; a task put after the loop has begun to stop has no promise.
- Fairness.EveryTaskRuns: strong fairness is assumed of the scheduler, the lock and select.
- Frames.ClientState.Feed: connection ids and sequence numbers fit 32 bits; times are left out, only whether a latency was recorded is kept.
- EndToEnd.RoundTrip: TCP is taken to deliver a prefix of what the sender's kernel took, in order.
- EventLoops.EventLoop.Cleanup: the branch for a loop that was stopped before it started is not modelled, since nothing can have been registered by then.
- Server channels and accepting: activation and the accept loop carry no state beyond the channel list.
- Futures cancelled by users, the listeners of futures, thread pools, logging, counters and the printable forms of channels.
- `set`, `clear` and `wait` of the event descriptor, which the loop does not use.
- EventLoopGroup, Bootstrap, handlers, address resolution, TLS itself and the reporting half of the echo runner.
- Direct calls of unregister, add_flag and remove_flag by the application on an open channel.
