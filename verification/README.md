# Verified model of the MetricQ C++ client

MetricQ clients exchange metric data and management calls over AMQP. This project models the
client library's own logic and proves what it guarantees, over all interleavings of user calls,
callbacks, socket completions and timers. Asynchronous I/O, the AMQP library and the clock are
steps with small contracts; what the client does in each step follows its source.

Every stateful component has a value model (a datatype, one function per operation, and runs as
sequences of events) and a class in the shape of the source, whose methods are proved to change
their fields exactly as the functions say. The theorems are about the functions, over all runs;
for the connection handler `MainLoop` shows that every run of the class is one of them.

| file | content |
|---|---|
| `Chunks.dfy` | delta encoding, decoding, the chunk iterator, the 64-bit range |
| `Metrics.dfy` | `Metric`: buffering and automatic flushing |
| `Delivery.dfy` | `SimpleDrain`, and metrics, queue and drain together, end to end |
| `Timers.dfy` | `Timer`: periodic re-arming, missed deadlines, the `running` flag |
| `Frames.dfy`, `SendQueue.dfy` | the receive loop over AMQP frames; the queue of partial writes |
| `Handlers.dfy`, `HandlerRuns.dfy`, `ConnectionHandler.dfy` | the connection handler: flush machine, heartbeats, reading, closing |
| `FinalActions.dfy`, `Rpcs.dfy`, `RpcRuns.dfy`, `RpcTraffic.dfy` | scope guards; pending RPCs, their timeouts, management messages, and what is sent |
| `Shutdown.dfy` | closing data and management connections |
| `Moments.dfy`, `Ranks.dfy`, `Summaries.dfy` | the summary statistics |
| `Sequences.dfy`, `Waits.dfy` | concatenation facts; how waits complete |

Assumptions about the parts that are not modelled: a completed write reports at most the bytes it
was given; `heartbeat()` emits a frame when it reports success; the library's parser consumes
exactly the complete frames at the head of the buffer (AMQP 0-9-1, section 4.2.3) and
`expected()` is never more than the size of a frame that is completely there; a connection
confirms its close at most once; cancelling a timer aborts only waits that have not expired. An
exception that leaves an event handler ends the run. Values are reals.

## What turned out not to hold

* `running()` of a timer is not always the truth about an armed wait; `Timers.FlagTruthfulIff`
  says exactly when it is after a handler, `Timers.CancelAfterExpiry` gives the family of runs
  in which it is not.
* The missed-deadline loop of `Timer` need not end, because `start` rejects only intervals that
  truncate to zero, and stores them before it throws. `Timers.SpinsIff` says for which intervals
  a program can get stuck: a negative one (`Timers.NegativeIntervalSpins`), or one that is
  rejected while an earlier start is still running (`Timers.RejectedStartSpins`). Such a rejected
  start also ends the phase (`Timers.NoDrift`).
* Timestamps that are more than 2^63 - 1 apart overflow a delta (`Chunks.RangeIsExactlyTheWindow`).
* Lowering the chunk size to or below what is buffered switches automatic flushing off
  (`Metrics.ChunkingLaw`).
* A heartbeat handler that is ready when the read that closes the connection is handled finds no
  connection, and no other does (`HandlerRuns.BeatFindsNoConnectionIff`); it happens in
  `HandlerRuns.BeatAfterClose`.
* An RPC error reply whose `error` member is not a string throws before the table is cleared
  (`RpcRuns.ErrorClearsIffString`).
* If the data connection has closed before the first close is called, close calls never reach the
  management connection, and otherwise they do (`Shutdown.CloseReachesManagementIff`,
  `Shutdown.StuckAfterDataClose`).
* The median of the summary is read one place above the centre that its comments describe, and is
  out of range for one or two samples (`Summaries.MedianExceedsBy`,
  `Summaries.MedianIsHighUnlessTied`, `Summaries.RanksInRangeIff`).

## Model

| member | source | states |
|---|---|---|
| Chunks.DecodeAfterEncode | include/metricq/types.hpp:114-125 | Decoding what a metric encodes gives back the samples, for every sequence of samples |
| Chunks.EncodeAfterDecode | include/metricq/metric.hpp:105-109 | A chunk with as many values as deltas is the encoding of what it decodes to |
| Chunks.EncodedDeltas | include/metricq/metric.hpp:107-109 | The first delta is a time, every other one the time since the sample before; values travel unchanged |
| Chunks.DecodedTimes | include/metricq/types.hpp:114-125 | Each decoded time is its delta after the one before, with the value of its position |
| Chunks.WindowSuffices | include/metricq/metric.hpp:107-108 | Timestamps within a window narrower than 2^63, in any order, never overflow a delta or a running sum |
| Chunks.RangeIsExactlyTheWindow | include/metricq/metric.hpp:107-108 | All sequences over a window are free of overflow if and only if the window is narrower than 2^63 |
| Chunks.ClockTimesFit | include/metricq/metric.hpp:107-108 | Timestamps in [0, 2^63) fit, monotone or not |
| Chunks.DeltaIterator.Begin | include/metricq/types.hpp:161-164 | The begin iterator stands at the first sample with a zero running sum |
| Chunks.DeltaIterator.End | include/metricq/types.hpp:166-169 | The end iterator stands behind the last delta |
| Chunks.DeltaIterator.Deref | include/metricq/types.hpp:137-140 | A valid iterator yields the decoded sample of its position |
| Chunks.DeltaIterator.Increment | include/metricq/types.hpp:142-148 | Advancing keeps the running sum equal to the prefix sum of the deltas |
| Chunks.Iterate | include/metricq/types.hpp:127-169 | A range-for over a chunk sees exactly the decoded samples, in order |
| Chunks.ForEach | include/metricq/types.hpp:114-125 | The callback is called exactly with the decoded samples, in order, as with the iterator |
| Metrics.BufferedGrows | include/metricq/metric.hpp:107-109 | Appending a sample appends exactly that sample to what the buffer decodes to, and the previous timestamp stays the sum of the buffered deltas |
| Metrics.SendEffect | include/metricq/metric.hpp:104-116 | A send publishes exactly when the buffer reaches the chunk size, and then the whole buffer |
| Metrics.SendConserves | include/metricq/metric.hpp:104-116 | Published plus buffered samples after a send are the buffered ones before plus the new one, in order |
| Metrics.FlushConserves | include/metricq/metric.hpp:88-102 | A flush publishes exactly what was buffered, and nothing for an empty buffer |
| Metrics.ChunkingLaw | include/metricq/metric.hpp:57-65 | From fewer than n buffered samples, any sends publish all div n chunks of n consecutive samples and keep all mod n; from n or more, or with n = 0, they publish nothing |
| Metrics.PieceCount | include/metricq/metric.hpp:112-115 | The published pieces number all div n, hold exactly n samples each, and leave all mod n |
| Metrics.TaggedCarry | include/metricq/metric.hpp:98 | What is tagged with an id carries it, with the chunks unchanged and in order |
| Metrics.Metric.constructor | include/metricq/metric.hpp:46-48 | A new metric has chunk size 1 and an empty, consistent buffer |
| Metrics.Metric.SetChunkSize | include/metricq/metric.hpp:62-65 | Only the chunk size changes, to the signed value of the argument |
| Metrics.Metric.Flush | include/metricq/metric.hpp:88-102 | State and publications change as the flush function says; all that is published carries the metric's id |
| Metrics.Metric.Send | include/metricq/metric.hpp:104-116 | State and publications change as the send function says; all that is published carries the metric's id |
| Metrics.Source.Send | src/source.cpp:60-63 | A chunk is published under the metric's id, after all earlier ones |
| Delivery.SimpleDrain.OnConnected | include/metricq/simple_drain.hpp:80-87 | Requests the unsubscription; every metric gets a store, existing stores keep their contents |
| Delivery.SimpleDrain.OnChunk | include/metricq/simple_drain.hpp:51-61 | The decoded samples are appended to the metric's store, or the lookup fails and nothing changes |
| Delivery.SimpleDrain.OnMessage | src/drain.cpp:54-68 | An end message is acknowledged and leads to one release; data is stored and then acknowledged, or neither |
| Delivery.EverythingAccounted | src/sink.cpp:158-175 | In every run, per metric: acknowledged plus queued messages carry exactly the flushed prefix of what was sent, the buffer exactly the rest, and the store exactly what was acknowledged |
| Delivery.FailsOnlyOnUnknown | include/metricq/simple_drain.hpp:53 | Processing fails only on a chunk of a metric the drain was not told about, which stays unacknowledged; the stores are those of the metrics told; one release per acknowledged end message |
| Delivery.MessagesConserved | src/sink.cpp:158-175 | In every run the acknowledged messages followed by the queued ones are all messages ever put into the queue, in order |
| Delivery.ReleasedOncePerEnd | src/drain.cpp:54-68 | In every run releases requested plus end messages still queued are the end messages put in |
| Delivery.EndToEnd | include/metricq/simple_drain.hpp:51-61 | With the queue drained, each known metric's store is exactly the samples sent on it up to its last flush |
| Timers.SkipsToTheLeast | src/timer.cpp:82-89 | The missed-deadline loop ends at the least point of the phase later than now |
| Timers.RepeatArmsTheFirstLater | src/timer.cpp:80-92 | A repeat that returns arms one wait, for the first point of the phase after the expiry that is later than now |
| Timers.HandlerArmsTheFirstLater | src/timer.cpp:69-92 | So does every handler whose callback repeats, whatever the callback did to the timer |
| Timers.ThrewIff | src/timer.cpp:73-78 | An exception ends a run exactly if a callback lets it escape, never that of an aborted wait |
| Timers.LoopEndsIff | src/timer.cpp:84-89 | Some point of the phase is later than now if and only if the interval is positive or the next deadline is still to come |
| Timers.RepeatSpinsIff | src/timer.cpp:80-93 | A repeat never returns if and only if no later point of the phase is later than now |
| Timers.NeverSpins | src/timer.cpp:41-93 | If every start, also in callbacks, uses an interval of at least 1 us, or every start is rejected, no run gets stuck in the loop |
| Timers.NegativeIntervalSpins | src/timer.cpp:43-48 | Starting with any interval of at most -1 us and repeating once gets stuck |
| Timers.RejectedStartSpins | src/timer.cpp:43-51 | A rejected start, caught while an earlier wait is pending, makes the next late repeat get stuck |
| Timers.SpinsIff | src/timer.cpp:41-93 | For every set of intervals: some program that starts with these only gets stuck if and only if one is negative, or one is positive and one rejected |
| Timers.StartThrowsIff | src/timer.cpp:41-54 | Start throws exactly for intervals that truncate to 0 microseconds, then losing the interval but no pending wait; otherwise one wait is armed, in the future exactly for positive intervals |
| Timers.StartWaitsTheInterval | src/timer.cpp:43-66 | An accepted start waits from now for the interval, cut off to whole microseconds towards zero |
| Timers.RestartWaitsAgain | src/timer.cpp:56-67 | A restart waits from now for as long as the start with the same interval did |
| Timers.AlwaysAccounted | src/timer.cpp:56-98 | In every interleaving at most one wait is armed; every wait is armed, queued, dropped as aborted, or led to one callback; callbacks come from expired waits only; deadlines stay on phase |
| Timers.NoDrift | src/timer.cpp:80-93 | Any two deadlines since the last restart differ by a positive number of intervals, unless a rejected start has taken the interval away; for positive intervals they strictly increase |
| Timers.FlagTruthfulIff | src/timer.cpp:69-98 | After a handler the running flag equals "a wait is armed" if and only if a repeating callback did not end cancelled, a stopping one left no wait, and a throwing one set or found it right |
| Timers.CalmFlagIsTruthful | include/metricq/timer.hpp:61-78 | With expiry and handler as one step and callbacks that leave the timer alone, the flag holds exactly when a wait is armed, in every run |
| Timers.CancelAfterExpiry | include/metricq/timer.hpp:67-71 | A cancel after the expiry does not stop the callback, and a repeat then arms a wait with the flag cleared |
| Timers.Timer.Start | src/timer.cpp:41-54 | Changes the timer as the start function says, and throws exactly if the interval is rejected |
| Timers.Timer.Restart | src/timer.cpp:56-67 | Changes the timer as the restart function says, and throws exactly without an interval |
| Timers.Timer.Cancel | include/metricq/timer.hpp:67-71 | Changes the timer as the cancel function says |
| Timers.Timer.TimerCallback | src/timer.cpp:69-98 | Changes the timer as the handler function says, for which `HandlerArmsTheFirstLater` gives the deadline |
| Frames.FramesAndRest | src/connection_handler.cpp:375-391 | Frames delivered followed by the bytes kept are the bytes in the buffer |
| Frames.CutAnywhere | src/connection_handler.cpp:372-391 | Parsing a prefix first and then its rest with more bytes delivers the same frames and leaves the same rest |
| Frames.FrameIsFound | src/connection_handler.cpp:372-391 | A frame laid out as in section 4.2.3 of AMQP 0-9-1 is found whole at the head of the buffer, whatever follows |
| Frames.DeliveredAsEncoded | src/connection_handler.cpp:372-391 | The frames delivered from any stream of encoded frames are those frames, and the rest is what follows them |
| Frames.AlwaysFaithful | src/connection_handler.cpp:354-398 | For every sequence of reads, frames and buffer are those of the received stream |
| Frames.FragmentationIndependent | src/connection_handler.cpp:354-398 | Two ways of cutting the same bytes into reads deliver the same frames, fail alike, and conserve the bytes |
| SendQueue.EmplaceAppends | src/connection_handler.cpp:42-46 | Emplacing appends to the pending bytes and never moves the front slice |
| SendQueue.ConsumeTakes | src/connection_handler.cpp:48-61 | Consuming n removes exactly the first n pending bytes |
| SendQueue.ConsumeDecreases | src/connection_handler.cpp:48-61 | A completion with progress strictly decreases pending bytes plus empty buffers |
| SendQueue.QueuedBuffer.Emplace | src/connection_handler.cpp:42-46 | The queue changes as the emplace function says |
| SendQueue.QueuedBuffer.Consume | src/connection_handler.cpp:48-61 | The queue changes as the consume function says |
| Handlers.RunKeeps | src/connection_handler.cpp:92-494 | The handler invariant holds after every event of every interleaving |
| Handlers.IntervalIsHalfTheTimeout | src/connection_handler.cpp:187-189 | The heartbeat interval is half of the negotiated timeout, cut off to whole seconds |
| HandlerRuns.ActsEffects | src/connection_handler.cpp:181-229 | What the library emits while parsing is given in order, the last negotiated timeout counts, and the connection is lost exactly if its end is reported |
| HandlerRuns.RunMatches | src/connection_handler.cpp:92-494 | Over every run: the bytes given are all bytes the library emitted, the protocol header first; the bytes received are all bytes read; the interval is half of the last negotiated timeout |
| HandlerRuns.NothingLost | src/connection_handler.cpp:354-437 | Over every run: bytes written followed by bytes queued are all bytes the library emitted; the frames delivered are those of all bytes read |
| HandlerRuns.RunEndsIff | src/connection_handler.cpp:354-494 | Exactly which steps end a run, and with which error |
| HandlerRuns.SendConservation | src/connection_handler.cpp:223-229 | Bytes reported as written followed by the queued bytes are all bytes given; the write in flight holds the front |
| HandlerRuns.OneWriteAtATime | src/connection_handler.cpp:400-437 | The flag marks exactly one write in flight, started on an open socket; the assertions never fail; a ready open socket never idles over a non-empty queue |
| HandlerRuns.WriteIsNotTouched | src/connection_handler.cpp:439-442 | Until it completes, nothing changes the slice a write was given |
| HandlerRuns.ReadsAreFaithful | src/connection_handler.cpp:354-398 | In every reachable state the delivered frames are those of the received bytes, and a ready open socket is being read |
| HandlerRuns.TimeoutOneDisables | src/connection_handler.cpp:181-197 | Heartbeats are on exactly for negotiated timeouts of at least 2 |
| HandlerRuns.NeverDormant | src/connection_handler.cpp:425-432 | With heartbeats on, an open connection has a write in flight, an armed wait, or a beat handler ready |
| HandlerRuns.HeartbeatGap | src/connection_handler.cpp:461-494 | For a run that negotiated a timeout of at least 2 seconds: if writes complete within L and beats run within D of their deadline, consecutive completions are at most floor(timeout / 2) seconds + D + L apart, and the last completion of an open socket is never longer ago |
| HandlerRuns.CompletionsArePaced | src/connection_handler.cpp:425-432 | The same bound in terms of the current interval |
| HandlerRuns.BeatSendsOrRetries | src/connection_handler.cpp:482-490 | A beat that is sent adds exactly its frame to the bytes given; one that is not is tried again after 1000 ms |
| HandlerRuns.CompletionDecreases | src/connection_handler.cpp:423-435 | Each completion strictly decreases the bytes left plus the empty buffers |
| HandlerRuns.QueueDrains | src/connection_handler.cpp:423-435 | Without new data, that many completions empty the queue, with everything given written |
| HandlerRuns.ClosedAtMostOnce | src/connection_handler.cpp:302-342 | The close callback runs at most once, and then neither socket nor connection is left |
| HandlerRuns.ClosingCallsBack | src/connection_handler.cpp:334-341 | Only the handler of a read loses the connection; the close callback runs then exactly if it is set, and ready heartbeat handlers stay ready |
| HandlerRuns.BeatFindsNoConnectionIff | src/connection_handler.cpp:482-484 | After the read that closes the connection a beat can find no connection if and only if one was ready before that read was handled, and the read was no protocol error |
| HandlerRuns.BeatAfterClose | src/connection_handler.cpp:482-484 | A run from connecting on in which a beat finds no connection |
| ConnectionHandler.Parse | src/connection_handler.cpp:387-388 | Contract of the parser: it consumes exactly the complete frames at the head |
| ConnectionHandler.AsioConnectionHandler.Connect | src/connection_handler.cpp:92-98 | The connection exists and its protocol header is queued; keeps the invariant |
| ConnectionHandler.AsioConnectionHandler.Handshake | src/connection_handler.cpp:138-144 | Afterwards a read is outstanding, and a write exactly if something is queued; keeps the invariant |
| ConnectionHandler.AsioConnectionHandler.OnNegotiate | src/connection_handler.cpp:181-197 | The interval becomes half of the timeout in whole seconds, and the timeout is answered unchanged |
| ConnectionHandler.AsioConnectionHandler.OnData | src/connection_handler.cpp:223-229 | Queues the data and flushes; bytes written followed by bytes queued are the bytes given |
| ConnectionHandler.AsioConnectionHandler.Flush | src/connection_handler.cpp:400-409 | Starts a write of the front unless closed, empty or in progress |
| ConnectionHandler.AsioConnectionHandler.OnWritten | src/connection_handler.cpp:421-436 | In every state of the invariant the queue is not empty; exactly the reported bytes move from queued to written, the heartbeat is re-armed for one interval from now exactly if it is on, and the invariant holds again |
| ConnectionHandler.AsioConnectionHandler.OnRead | src/connection_handler.cpp:368-397 | In every state of the invariant there is a connection; the frames delivered are those of all bytes received, and the invariant holds again |
| ConnectionHandler.AsioConnectionHandler.OnBeat | src/connection_handler.cpp:461-494 | Drops aborted waits, sends or retries; its assertion fails exactly for a completed wait after the close; keeps the invariant |
| ConnectionHandler.AsioConnectionHandler.OnClosed | src/connection_handler.cpp:302-342 | Closes the socket, cancels the heartbeat, drops the connection, calls back if a callback is set; a ready beat stays ready |
| ConnectionHandler.AsioConnectionHandler.Close | src/connection_handler.cpp:344-352 | Requests the close exactly if there is a connection; keeps the invariant |
| ConnectionHandler.AsioConnectionHandler.SetCloseCallback | src/connection_handler.hpp:190-193 | The next close calls back; keeps the invariant |
| ConnectionHandler.AsioConnectionHandler.MainLoop | src/connection.cpp:72-75 | Dispatching any events to the handlers is a run of the model and keeps its invariant |
| FinalActions.RunsExactlyOnce | include/metricq/utils.hpp:25-61 | Over all programs of moves, early invokes and destructions the action runs at most once, and exactly once if all guards are destroyed |
| FinalActions.FinalAction.Move | include/metricq/utils.hpp:32-35 | The obligation moves: the source of the move no longer runs the action |
| FinalActions.FinalAction.Invoke | include/metricq/utils.hpp:43-55 | Runs the action exactly if it is still held, and then holds it no more |
| Rpcs.RunKeeps | src/connection.cpp:181-306 | The table's invariant holds after every event of every run |
| RpcRuns.OneShot | src/connection.cpp:205-255 | Callbacks run at most once each and for their own correlation id; registrations are partitioned into answered, cleared and pending; each pending one has a timeout to come; the "vanished" branch is unreachable |
| RpcRuns.ErrorReplyClears | src/connection.cpp:209-216 | A string error reply empties the table, cancels all timeouts, calls nobody, and is acknowledged before the close request |
| RpcRuns.ErrorClearsIffString | src/connection.cpp:209-216 | A reply with an error member clears the table if and only if that member is a string |
| RpcRuns.NothingAfterClear | src/connection.cpp:213-215 | In the rest of every run no earlier registration is called, and none times out unless its wait had already expired |
| RpcRuns.TimeoutMeansUnanswered | include/metricq/connection.hpp:55-77 | A timeout is thrown only for a registration that was unanswered when its wait expired |
| RpcRuns.AcknowledgedExactlyOnce | src/connection.cpp:201-305 | In every run every handled message that parses is acknowledged exactly once, in order, on every path |
| RpcTraffic.IssueThrowsIff | src/connection.cpp:139-192 | A call throws exactly for a function in its payload, a timeout below 1 us or a taken id, changing nothing; otherwise its request is sent |
| RpcTraffic.ActsSend | src/connection.cpp:181-192 | A callback sends one request per call and one close request per stop, in order, up to the act that throws |
| RpcTraffic.EveryCallIsSent | src/connection.cpp:181-192 | In every run the requests sent are those of all registrations, each exactly once, in order |
| RpcTraffic.MessagesAreDispatched | src/connection.cpp:205-305 | In every run, in order: the response callbacks called are those answered without error, the functions called are the registered ones asked for, and each that succeeded got one reply under its own correlation id |
| RpcTraffic.SurvivesIff | src/connection.cpp:194-306 | Exactly which messages end the run |
| RpcTraffic.StepSurvivesIff | include/metricq/connection.hpp:68-71 | Exactly which events end the run; a completed timeout that is still wanted is thrown |
| RpcRuns.Connection.RegisterRpcResponseCallback | src/connection.cpp:139-152 | Adds the registration with an armed timeout, or throws for a taken id or a sub-microsecond timeout |
| RpcRuns.Connection.Rpc | src/connection.cpp:181-192 | Registers and then sends one request, or throws, exactly when the call is invalid, and sends nothing |
| RpcRuns.Connection.ClearResponseCallbacks | src/connection.cpp:213 | Drops all pending registrations with their timeouts |
| RpcRuns.Connection.HandleAnswer | src/connection.cpp:218-254 | Runs the callback, searches again, erases, as the function says |
| RpcRuns.Connection.HandleRequest | src/connection.cpp:257-305 | Dispatches a request, as the function says |
| RpcRuns.Connection.HandleManagementMessage | src/connection.cpp:194-306 | One message changes table and outgoing log as the function says, keeps the invariant, and is acknowledged exactly once if it parses, by the scope guard |
| Shutdown.OnClosedCount | src/connection.cpp:325-334 | `on_closed` ran once per close before connecting plus once if the management connection confirmed |
| Shutdown.ClosedAtMostOnce | src/connection.cpp:95 | After connecting first, `on_closed` runs at most once, and has run exactly when the management close is confirmed |
| Shutdown.DataBeforeManagement | src/data_client.cpp:95-111 | No step asks the management connection to close while a data connection is up |
| Shutdown.ShutdownOrder | src/data_client.cpp:95-111 | If a data connection exists at the first close request, management is asked only after it confirmed, in every run |
| Shutdown.ConfirmedDataGoesOn | src/data_client.cpp:107-110 | A requested and confirmed data close asks the management connection once |
| Shutdown.ConfigureAbortsIff | src/data_client.cpp:50-70 | A configuration opens the missing data connection; a later one aborts exactly if the address differs |
| Shutdown.CloseAsksOne | src/data_client.cpp:95-111 | A close asks the data connection if it is up, the management connection if there never was a data connection, and otherwise nobody |
| Shutdown.CloseReachesManagementIff | src/data_client.cpp:95-111 | In every run with a close: once no data close is outstanding, an open management connection has been asked to close if and only if the data connection was not already closed at the first close |
| Shutdown.StuckAfterDataClose | src/data_client.cpp:105-110 | If the server closes the data connection first, no later call asks the management connection |
| Shutdown.Handler.Close | src/connection_handler.cpp:344-352 | Requests exactly if the connection still exists |
| Shutdown.DataClient.DataConfig | src/data_client.cpp:50-70 | Opens the data connection once; another address aborts |
| Shutdown.DataClient.CloseManagement | src/connection.cpp:325-334 | Without a management connection `on_closed` runs at once, otherwise its close is requested |
| Shutdown.DataClient.Close | src/data_client.cpp:95-111 | Closes the data connection first if there is one |
| Shutdown.DataClient.OnDataClosed | src/connection_handler.cpp:336-341 | The confirmed data close goes on to the management connection if a close was requested |
| Shutdown.DataClient.OnManagementClosed | src/connection_handler.cpp:336-341 | The confirmed management close runs `on_closed` |
| Summaries.RemoveIf | tools/metricq-summary/src/summary.cpp:43-48 | Keeps exactly the samples strictly inside the window, in order |
| Summaries.SumOverNths | tools/metricq-summary/src/summary.cpp:60-67 | The loop computes the mean of the function over the values |
| Summaries.SortByValue | tools/metricq-summary/src/summary.cpp:79-81 | A permutation ordered by value |
| Summaries.CalculateKept | tools/metricq-summary/src/summary.cpp:50-102 | Moments before and ranks after the sort are those of the unsorted series |
| Summaries.Calculate | tools/metricq-summary/src/summary.cpp:34-103 | The outcome is the summary of the samples inside the window, or one of the two failures |
| Summaries.KeptIsSlice | tools/metricq-summary/src/summary.cpp:40-48 | Of time-ordered input exactly one contiguous slice is kept: the samples strictly inside |
| Summaries.KeptExactly | tools/metricq-summary/src/summary.cpp:43-48 | In any order, exactly the samples strictly inside the window are kept, as often as they came |
| Summaries.DurationWithinWindow | tools/metricq-summary/src/summary.cpp:57-58 | The time from the first to the last kept sample is non-negative and shorter than the window |
| Summaries.FieldsAreMoments | tools/metricq-summary/src/summary.cpp:57-77 | The count and duration fields are those of the kept samples; average, variance and absolute deviation times the count are the sum, the sum of squared distances from the average, and twice the excess over the average |
| Summaries.FieldsAreExtremes | tools/metricq-summary/src/summary.cpp:98-100 | Minimum and maximum are the least and greatest kept value, and the range is their difference |
| Summaries.MomentsAndExtremes | tools/metricq-summary/src/summary.cpp:69-100 | For every non-empty series: minimum <= average <= maximum and absdev^2 <= variance <= (maximum - average)(average - minimum) <= range^2 / 4 |
| Summaries.RanksInRangeIff | tools/metricq-summary/src/summary.cpp:83-96 | The summary exists exactly from three kept samples on; one or two make the median read out of range |
| Summaries.QuartilesAreRanks | tools/metricq-summary/src/summary.cpp:83-99 | minimum <= quart25 <= quart50 <= quart75 <= maximum, and the outer quartiles have ranks n div 4 and 3n div 4 of the unsorted series |
| Summaries.MedianIsRanks | tools/metricq-summary/src/summary.cpp:83-93 | quart50 is the value of rank n div 2 + 1 for odd n, and the mean of the values of ranks n div 2 and n div 2 + 1 for even n |
| Summaries.MedianExceedsBy | tools/metricq-summary/src/summary.cpp:84-93 | By exactly how much quart50 exceeds the median the comments describe |
| Summaries.MedianIsHighUnlessTied | tools/metricq-summary/src/summary.cpp:84-93 | quart50 is never below the median the comments describe and equals it if and only if the central values coincide |
| Moments.DeviationBelowStandard | tools/metricq-summary/src/summary.cpp:71-77 | The absolute deviation squared is at most the variance |
| Moments.VarianceBelowExtremes | tools/metricq-summary/src/summary.cpp:71-74 | The variance is at most (maximum - average)(average - minimum) |
| Ranks.SortedIsUnique | tools/metricq-summary/src/summary.cpp:79-81 | Any two sorted arrangements of the same values agree, so the result does not depend on the sort |
| Ranks.RankMeaning | tools/metricq-summary/src/summary.cpp:95-96 | The value of rank k has at least k + 1 values at most as large and at most k smaller ones in the unsorted series |

## Left out

- Summaries.Calculate: the standard deviation is stated through its square, because the square root is not modelled; floating point rounding and NaN are not modelled.
- Summaries.SortByValue: works on a sequence variable instead of iterators into a vector, so that the update in place is not visible; the sort itself is an insertion sort held to the contract of a sort.
- Chunks.Iterate: a chunk with fewer values than deltas makes the source read behind the values; such chunks are outside the model.
- Chunks.DeltaIterator.Deref: the iterators of the history responses differ from the data chunk iterator only in their payload, which is a type parameter here.
- RpcRuns.TimeoutMeansUnanswered: a timeout handler that runs after its registration was answered or cleared works on a destroyed guard in the source; in the model it still throws.
- Handlers.RunKeeps: name resolution, TCP connect, TLS handshake and read buffer sizing are steps without content; errors there end the run.
- Handlers.Step: a handler connects once; connecting again after a close, which nothing in the client does, is outside the model.
- Delivery.SimpleDrain.OnConnected: the answer to the unsubscription, which configures the data queue, is not modelled.
- Shutdown.DataClient.Connect: connecting a second time, which would replace the management connection, is outside the model.
- AMQP, protobuf, JSON and logging: library code; a chunk is two sequences and a message a record of the members that are read.
- `Sink::data_queue` and queue declaration, subscriptions and metadata: name checks and single calls.
- `Source::send` of a single time value, which bypasses a metric's buffer.
- `HistoryClient`, `Db`, `Transformer`, `Subscriber`: dispatch around the parts modelled here.
- Duration parsing and time formatting: regular expressions, locale and floating point.
- Broker behaviour beyond delivering in order and once: redelivery and other consumers.
