# Verified models of the agent and of bleephub

Dafny models of the parts of this repository that hold state or compute, with proofs of what they promise. Run
`dafny verify dfyconfig.toml` to check everything.

The models come in two kinds. A component that updates fields in place is a class with these fields, and each method is
proved against a function or predicate on values; what these compute is said once more without them, by lemmas on whole
histories or by an independent reference. A component in which several goroutines interleave is, in addition, a
state machine: one step is one critical section, one channel operation or one loop iteration, and the theorems hold in
every run, that is after every sequence of enabled steps. Theorems about stores likewise hold after every history of
calls.

| files | what they model |
|---|---|
| ExecProtocol, ExecEnding, SilentTruncation, Replies, ReverseConn, MuxFraming | remote exec: callers, dispatcher, FIFO wires, router, stream readers and waiter; the framing of the bridge |
| MainProcess, RingBuffer, AttachOutput, AttachWitness, AttachFraming | output of the main process: ring buffers, subscribers, exit; what attach sessions show; their framing |
| SessionRegistry, HealthCheck | the agent's session registry; the state of the health checker |
| Expressions, ExpressionSyntax, ExpressionNames, ExpressionValues, ExpressionSpace | the `if:` expression evaluator; its grammar as syntax trees with a meaning and a printer; what calls, names, literals and white space amount to |
| Broker, BrokerBalance, BrokerRuns, BrokerDrain, BrokerOrder, BrokerDelivery, BrokerWitness | placement of job messages on runner queues; all interleavings of its handlers |
| Matrix, MatrixInclude | matrix expansion |
| UserTokens, UserTokenRuns, UserTokenLifetimes | user tokens and refresh tokens |
| ReviewComments, ReviewThreadRuns | review comments and threads |
| Checks, CheckHistory, Reactions | check suites and runs; reactions |
| Artifacts, ArtifactRuns, ArtifactContent | artifacts in memory and on disk |
| Pagination, Cursors, Base64, Decimal | page numbers and Link headers; cursors |
| Bytes, Arithmetic, SortedKeys, IntKeys, Options | shared definitions |

## What the proofs found

The promises below do not hold always. For each the condition is a lemma, and a run or an input that fails is another,
unless the condition names it. The conditions are exact, if and only if, except for the one of `EvalPrinted`.

- `MainProcess.wait` (agent/process.go:186-216) calls `cmd.Wait`, which closes the pipes, without waiting for the readers,
  although its comment says that all output is drained. The output is complete exactly if the pipe is empty when
  `cmd.Wait` returns (`AllReadIff`); a client is shown it exactly if it missed nothing else either
  (`ExitShowsWrittenIff`); `TailLost` is a run that loses output. The exec session waits for its readers first.
- `CollectExec` returns the child's exact output if and only if no message met a full queue (`CollectExact`). A drop is
  not reported to the caller: `OutputMissing` is a run in which the call returns without error and lacks output.
- The exit message can meet the full queue too. A call whose session the agent has ended can still end with the agent's
  message if and only if that is in its queue, or on the wire and the connection not broken (`EndsIff`); otherwise it
  waits until the connection is closed. `ExitMissing` is a run in which only the exit message is dropped.
- A client that attaches to the main process misses nothing of a stream if and only if its channel dropped no chunk of
  it but perhaps the one that its replay has as well (`ExitShowsAllIff`); `SkippedChunk` is a run with a gap. It is then
  shown nothing twice if and only if the seam chunk did not reach it (`ShownOnceIff`), and there is a seam if and only if
  a chunk was in the ring buffer and not yet published when the replay was copied (`SeamAtCopy`); `RepeatedChunk` is a
  run in which the client is shown a chunk twice.
- `EvalExpr` means a name, in all contexts, if and only if the name does not look like a wrapper and has no space bytes to
  trim (`NameExact`; `NameThatLooksWrapped` and `UntrimmedName` are names it takes for others). For longer expressions
  the same condition is sufficient (`EvalPrinted`), and `SameEitherWay` shows that it is not necessary. An empty wrapper
  is false while an empty condition is true (`EmptyExpressions`).
- A job submitted directly while no runner has room is given up (bleephub/jobs.go:91-93), and in no continuation does a
  runner get it (`JobLost`); one of a workflow is requeued (bleephub/workflows.go:357-360). A message fails to be sent at
  first if and only if no session has room in its queue at that moment (`HeldIff`).
- A message in a session's queue can still be received if and only if the session exists, or more polls hold its channel
  than messages come before it (`DeliverableIff`); in `DeletedLosesJob` a session is deleted with a job in its queue, and
  the job is lost.
- Waiting messages keep the order in which they were requeued, all through a run, if and only if no drain puts a message
  back in front of a pending one that was requeued earlier (`KeepsOrderIff`), as is the case when drains do not overlap
  (`NoOverlapNoOvertaking`); `OverlapReorders` is a run in which two drains reverse two messages.
- `ExpandMatrix` dereferences a matrix definition that is nil, and ignores the excludes of one without values
  (`ExcludesApplyIff`). Its caller expandMatrixJobs (bleephub/jobs.go:319-324) passes neither: it expands only jobs that
  have a strategy with values.
- A thread is listed with the flag last asked for if and only if its root comment still exists or the flag was not set
  (`FlagListedIff`); `ResolvedLost` is a resolved thread that is listed as unresolved for ever after its root is deleted.
- With an app id that is not positive, listing runs by commit does not filter by app; it then agrees with listing by suite
  only if no other app has runs on the commit (`ListingsAgree`). The suite a caller names for a new run is not checked:
  the listings of real apps go on agreeing if and only if none is named, or that of the run's own key, or neither the
  one named nor any suite of that key is a real app's (`NamedSuite`).
- Uploading data does not rewrite an artifact's metadata file. The size that recovery brings back is right exactly under
  the condition that `Sizes` reads off the history (`SizesExact`); with a restart between upload and finalization the
  outdated size is saved for good (`FinalSizeWrong`).
- A page of a GraphQL list starts with the first item if and only if the cursor text is empty or decodes to -1
  (`FirstItemIff`); a text that is no cursor counts as cursor 0 and skips the first item (`NoCursorSkipsOne`).
- The first index of a REST page can wrap at 64 bits. The call panics if and only if it wraps to a negative number, and
  gives the page asked for if and only if it does not wrap or wraps past the list (`OutcomeExact`). The largest page
  number with 100 items a page panics for every list (`LargestPagePanics`), and page 2^62 + 1 with 4 items a page is
  shown as page 1 (`WrappedPageIsFirst`). The cursor variant panics for cursors below -1 and for the largest one (`PanicsIff`), such as
  the text that encodes -2 (`NegativeCursorPanics`).
- Each session of the registry is closed exactly once or still live if and only if no session was registered under the id
  of a live one (`ClosedOnce`); in `ReusedId` one was, and it is never closed.

## Model

| member | source | states |
|---|---|---|
| ExecProtocols.CollectExact | agent/reverse.go:146-185 | in every interleaving of readers, waiter, wires, dispatcher and collector, a call that returns without error has the child's exit status, 0 after a clean exit and 1 if waiting failed otherwise, and closed output streams, and its two outputs are exactly the bytes the child wrote if and only if nothing was dropped on its full queue |
| SilentTruncation.OutputMissing | agent/reverse.go:80-89 | a run in which the call returns without error and its result is not what the child wrote |
| ExecEndings.EndsIff | agent/reverse.go:64-92 | in every reachable state in which the agent has ended a session and the call waits: it can end with the agent's message if and only if that is in its queue or on an unbroken wire; otherwise it was dropped on the full queue or is lost with the connection, and in every continuation the call waits, or ends when the connection is closed or a write fails |
| SilentTruncation.ExitMissing | agent/reverse.go:80-89 | a run in which the exit message is the only one dropped: on a sound connection the call waits, and in every continuation it still does or has ended with the connection |
| ExecProtocols.Isolation | agent/reverse.go:64-92 | what a session consumed plus what waits in its queue is an in-order subsequence of the wire messages with its id; without a drop nothing is missed before it returns, from the first message on |
| ExecProtocols.StdinExact | agent/reverse.go:192-251 | the child's input is at all times a prefix of the argument, is closed only after all of it unless a write to the child failed, and is closed once the router has handled what was sent |
| ExecProtocols.NotifyKeeps | agent/exec.go:154-183 | sending the exit code keeps the agent's invariant: both readers have finished, everything they read was sent before, and nothing comes after |
| ExecProtocols.HandleKeeps | agent/router.go:47-103 | handling one more command keeps the agent's invariant: the session is registered before the next message, and the child's input is what the routed commands feed it unless a write failed |
| ExecProtocols.StepKeeps | agent/exec.go:86-183 | the invariant over pipes, readers, waiter, wires, queue and collector is kept by every step of every session |
| ExecProtocols.RunKeeps | agent/reverse.go:64-92 | that invariant holds at the end of every run |
| Replies.ChunksFeed | agent/reverse.go:207-225 | the chunks of an input, one after the other, are the input |
| Replies.ScriptFeeds | agent/reverse.go:192-225 | the commands of a call with input feed exactly the input |
| Replies.ChunksExact | agent/reverse.go:207-225 | piece k of an input is its bytes from 32768 k on, 32768 of them or what is left, and there are no others |
| Replies.ScriptShape | agent/reverse.go:192-225 | a call sends the exec and, with an input, its pieces in order and the close, and nothing else |
| ReverseConns.ReverseAgentConn.Dispatch | agent/reverse.go:64-92 | one iteration of the read loop appends the message to the queue of its session unless there is none or 64 messages wait, and touches no other queue; it agrees with the protocol model's delivery |
| ReverseConns.ReverseAgentConn.StartWithStdin | agent/reverse.go:192-225 | the session is registered before the first message is written; the chunk loop writes exec, the input in chunks of at most 32 KiB, and close |
| ReverseConns.ReverseAgentConn.Collect | agent/reverse.go:160-184 | the collecting loop stops at the first message that ends the call, with the outcome that the messages up to it determine |
| ReverseConns.CollectIsStep | agent/reverse.go:160-184 | that loop and the receive step of the protocol model end with the same outcome, or both go on |
| ReverseConns.ReverseAgentConn.WriteFrame | agent/reverse.go:309-326 | the buffer filled in place is the 8-byte header with stream and big-endian length, and the data |
| ReverseConns.ReverseAgentConn.Bridge | agent/reverse.go:271-349 | the bridge writes the frames of all output messages up to the one that ends the session, and returns its exit code, or -1 |
| ReverseConns.BridgeExact | agent/reverse.go:309-326 | in every run, splitting the framed bytes of a session that ended normally gives the same two streams as collecting it |
| ReverseConns.ConsumedIsSmall | agent/exec.go:127-152 | in every run no output message received is larger than a read buffer, so the 32-bit frame length never truncates |
| MuxFraming.FrameLengthExact | agent/reverse.go:309-326 | a frame is the stream number 1 or 2, three zeros, four bytes with the most significant first, and the data; these four give its length if and only if that fits 32 bits |
| MuxFraming.DemuxFrames | agent/reverse.go:309-326 | demultiplexing the concatenated frames gives back each stream exactly |
| MuxFraming.FramesStop | agent/reverse.go:326-345 | nothing is framed after the message that ends a session |
| AttachFramings.AttachIsSmall | agent/attach.go:36-59 | in every run no message of an attach session is larger than the ring buffer or one read, whichever is more |
| AttachFramings.PartFrames | agent/reverse.go:254-327 | with ring buffers below 4 GiB (the agent's have 1 MiB), splitting the frames of whatever messages of an attach session the bridge received gives both streams of these messages |
| AttachFramings.AttachFrames | agent/reverse.go:254-327 | when it received all of them, splitting the frames gives exactly what the session sent of both streams, replays included |
| RingBuffers.RingBuffer.Write | agent/process.go:29-42 | writing in place, with wrap-around, appends to the history that the buffer stands for |
| RingBuffers.RingBuffer.Bytes | agent/process.go:45-55 | the result is the last min(capacity, total) bytes ever written, for every capacity above 0 |
| RingBuffers.WriteAllThenRead | agent/process.go:16-55 | the same for any series of writes to a new buffer |
| AttachOutputs.NoGap | agent/attach.go:36-59 | in every run, a client that missed no chunk of a stream but perhaps the one its replay has as well was shown one unbroken stretch of that stream, apart from at most one chunk that comes twice where the replay meets the live output |
| AttachOutputs.ExitShowsAllIff | agent/attach.go:36-59 | what a client that was told the exit code was shown of a stream, the repeated chunk taken once, is all that was read since the replay begins, if and only if nothing of the stream was dropped but perhaps the seam chunk; and the code is the one the process exited with |
| AttachOutputs.ShownOnceIff | agent/attach.go:36-59 | such a client was shown every byte just once if and only if the seam chunk did not reach its channel; without drops, if and only if the seam was empty |
| AttachOutputs.SeamAtCopy | agent/process.go:219-233 | the seam is the chunk that fanOut had written to the ring buffer and not yet published when Subscribe copied, or nothing |
| AttachOutputs.ExitShowsWrittenIff | agent/process.go:186-216 | what any client that was told the exit code was shown reaches to the end of what the process wrote if and only if nothing of the stream was dropped but perhaps the seam chunk, and the pipe was empty when cmd.Wait returned |
| AttachWitnesses.RepeatedChunk | agent/process.go:165-180 | a run in which a client that subscribes between the write to the ring buffer and the publication is shown the chunk twice |
| AttachWitnesses.SkippedChunk | agent/process.go:172-179 | a run in which a slow client receives a chunk after one that was dropped, and is not shown all |
| AttachOutputs.AllReadIff | agent/process.go:186-216 | all output of the process is read if and only if the pipe is empty when cmd.Wait returns |
| AttachWitnesses.TailLost | agent/process.go:186-216 | a run that ends normally and in which a written byte reaches nobody |
| MainProcesses.StepKeeps | agent/process.go:151-233 | the invariant that ties pipes, ring buffers, published chunks and every client's view together is kept by every step |
| MainProcesses.RunKeeps | agent/process.go:151-233 | that invariant holds at the end of every run |
| MainProcesses.MainProcess.Publish | agent/process.go:165-180 | each listener's channel gets the event at its end, unless 256 events wait; no other channel changes |
| MainProcesses.MainProcess.Subscribe | agent/process.go:219-233 | a new channel takes the place of the id in the map, or a closed one is handed out after the exit, and both replays are the last bytes written to the buffers |
| MainProcesses.MainProcess.Unsubscribe | agent/process.go:236-240 | the listener is forgotten and its channel left as it is |
| MainProcesses.MainProcess.Close | agent/process.go:200-215 | the exit code is recorded and exactly the listeners' channels are closed |
| SessionRegistries.ClosesExact | agent/session.go:41-77 | in every interleaving, whatever ids are used, a session was closed once if it is neither live nor was hidden by another under its id, and otherwise not at all |
| SessionRegistries.ClosedOnce | agent/session.go:41-77 | every session of a run is live and unclosed, or closed exactly once, if and only if none was registered under the id of a live one |
| SessionRegistries.CleanedUpCloses | agent/session.go:68-77 | when the cleanups of a connection are through, none of its sessions is live, and each was closed exactly once unless it was hidden |
| SessionRegistries.NeverClosed | agent/session.go:42-47 | a hidden session is never closed, however the run goes on |
| SessionRegistries.RemovedAllExact | agent/session.go:68-77 | a cleanup removes exactly the sessions with the listed ids |
| SessionRegistries.RemovedAllCloses | agent/session.go:58-77 | a cleanup closes each of them once, and no other session |
| SessionRegistries.ReusedId | agent/session.go:42-77 | with an id used twice, cleaning up the first connection closes the second's session, and in no continuation is the first session closed |
| SessionRegistries.SessionRegistry.Register | agent/session.go:42-47 | the session is stored under its id and the id added to the connection's list |
| SessionRegistries.SessionRegistry.Get | agent/session.go:50-55 | the session stored under the id, or none |
| SessionRegistries.LookupIsLast | agent/session.go:41-77 | in every run, that is a given session if and only if it was registered and its id neither registered again nor removed since, by Remove or by a cleanup |
| SessionRegistries.SessionRegistry.Remove | agent/session.go:58-65 | a known session is closed and forgotten |
| SessionRegistries.SessionRegistry.CleanupConn | agent/session.go:68-77 | the loop removes every id of the connection's list and drops the list |
| HealthChecks.HealthChecker.RecordResult | agent/healthcheck.go:176-208 | streak, status and log stay functions of the whole history: failures since the last success, unhealthy while these reach the retries, the last five entries |
| HealthChecks.StreakExact | agent/healthcheck.go:193-198 | the streak is the longest run of failures at the end of the history |
| HealthChecks.StatusExact | agent/healthcheck.go:176-208 | unhealthy if and only if the last check failed and so did the last retries ones; of the others, healthy if and only if some check passed |
| HealthChecks.LogExact | agent/healthcheck.go:176-215 | the log has the last five results with the first 4096 bytes of their output |
| HealthChecks.NeverPassed | agent/healthcheck.go:193-201 | as long as no check passed, the streak is the number of checks |
| Expressions.ExprParser.ReadPrimary | bleephub/expressions.go:111-185 | on every input the method ends, moves the position forward within the text, and returns what the reading function on the remaining text says |
| Expressions.ExprParser.ReadUnary | bleephub/expressions.go:98-109 | the same for an optional negation |
| Expressions.ExprParser.ReadComparison | bleephub/expressions.go:78-96 | the same for at most one comparison |
| Expressions.ExprParser.ReadAnd | bleephub/expressions.go:63-76 | the same for the loop over conjunctions, with both sides always read |
| Expressions.ExprParser.ReadOr | bleephub/expressions.go:48-61 | the same for the loop over disjunctions |
| Expressions.ExprParser.ScanQuoted | bleephub/expressions.go:133-145 | the literal is the text up to the closing quote, or to the end if there is none |
| Expressions.ExprParser.IdentOrCall | bleephub/expressions.go:147-185 | the longest identifier is a call if a parenthesis follows, and otherwise a name, with the values that CallEval and NameEval state |
| Expressions.EvalExpr | bleephub/expressions.go:22-34 | trimming, unwrapping and parsing give the value of the evaluation function, on every input; OrReads, CallEval, NameEval and LiteralEval state what that is |
| ExpressionSyntax.PrimaryReads | bleephub/expressions.go:111-185 | a printed primary followed by any text that does not continue it is read with its meaning, up to its end |
| ExpressionSyntax.UnaryReads | bleephub/expressions.go:98-109 | the same for a printed unary |
| ExpressionSyntax.ComparisonReads | bleephub/expressions.go:78-96 | the same for a printed comparison |
| ExpressionSyntax.AndReads | bleephub/expressions.go:63-76 | the same for a printed conjunction |
| ExpressionSyntax.OrReads | bleephub/expressions.go:48-61 | the same for any printed expression, whatever its white space |
| ExpressionSyntax.ParsePrinted | bleephub/expressions.go:48-185 | the parser gives the meaning of every well-formed expression and stops exactly at the end of its text |
| ExpressionSyntax.EvalPrinted | bleephub/expressions.go:22-34 | EvalExpr gives the meaning of every printed expression whose text does not look wrapped |
| ExpressionSyntax.EvalWrapped | bleephub/expressions.go:22-34 | EvalExpr gives the meaning of every printed expression inside the wrapper |
| ExpressionNames.NameExact | bleephub/expressions.go:22-34 | EvalExpr means a name in every context if and only if the name has nothing to trim and does not look like a wrapper |
| ExpressionNames.EvalWrappedText | bleephub/expressions.go:26-32 | a text that looks like a wrapper means whatever its trimmed inside means, also when it is itself a printed expression |
| ExpressionNames.UntrimmedName | bleephub/expressions.go:22-24 | a name that ends with the bytes of a space and is taken for another |
| ExpressionNames.SameEitherWay | bleephub/expressions.go:22-34 | a longer expression that looks like a wrapper and means the same either way |
| ExpressionSyntax.NameThatLooksWrapped | bleephub/expressions.go:22-34 | a name whose meaning differs from what EvalExpr returns, because it is taken for a wrapper |
| ExpressionSyntax.EmptyExpressions | bleephub/expressions.go:22-34 | blank text is true and a blank wrapper is false |
| ExpressionValues.CallEval | bleephub/expressions.go:187-217 | a call, alone or wrapped, with any white space: success() if every result is success or skipped, failure() if some result is failure, always(), cancelled() if the flag is set, each with a context; anything else is false |
| ExpressionValues.CallCompared | bleephub/expressions.go:187-217 | and its value, compared with a literal, is the text true or the text false |
| ExpressionValues.NameEval | bleephub/expressions.go:157-185 | a name compared with a literal: true and false are themselves, a name of the context is its value, any other is itself |
| ExpressionValues.LiteralEval | bleephub/expressions.go:219-221 | a literal is true unless it is empty, false or 0, and its negation the reverse |
| ExpressionValues.UnclosedReads | bleephub/expressions.go:111-185 | a missing quote at the end and a missing closing parenthesis anywhere are passed over, and what comes instead is left to be read |
| ExpressionSpaces.SpaceByte | bleephub/expressions.go:42-46 | inside an expression a byte is space if its value is a code point that Unicode calls white space |
| ExpressionSpaces.TrimExact | bleephub/expressions.go:22-34 | trimming takes UTF-8 texts of white-space code points from both ends, nothing else, and leaves none there |
| Brokers.SendIsFirstFree | bleephub/broker.go:135-165 | a send fails if and only if no session has room; otherwise the message goes to the first session with room in cyclic order, at the end of its queue |
| Brokers.Balance | bleephub/broker.go:135-165 | with n sessions that never fill, after k sends the session at distance d from the cursor has k / n messages, or one more if d is less than the remainder |
| BrokerBalances.CursorMoves | bleephub/broker.go:148-155 | after a send the turn is with the session right behind the one that got the message, however many full ones were passed over |
| BrokerBalances.BalanceAmong | bleephub/broker.go:135-165 | with some queues full throughout, after k sends each of the n sessions with room has k / n messages, or one more if fewer than the remainder come before it, and the others none |
| Brokers.DrainSendsPrefix | bleephub/broker.go:173-191 | a drain sends the oldest messages and keeps the rest in order; once one does not fit, none does |
| Brokers.Broker.SendMessageToAgent | bleephub/broker.go:135-165 | the loop over the sessions places the message as the specification says and moves the cursor right behind the session that got it |
| Brokers.Broker.RequeuePendingMessage | bleephub/broker.go:167-171 | the message waits behind those that wait already |
| Brokers.Broker.CreateSession | bleephub/broker.go:60-72 | a session with an empty open queue is added |
| Brokers.Broker.DeleteSession | bleephub/broker.go:80-97 | the queue of a known session is closed once and stays readable, and the session is forgotten |
| Brokers.Broker.Receive | bleephub/broker.go:100-126 | a poll takes the oldest buffered message, also from a closed queue |
| Brokers.Broker.DrainPendingMessages | bleephub/broker.go:173-191 | swap, send each, put back: the pending list becomes what did not fit, in order |
| BrokerDrains.DrainIsRun | bleephub/broker.go:173-191 | it leaves the store as some run does in which the drain goes on undisturbed, so what every run keeps it keeps |
| BrokerRuns.Conservation | bleephub/broker.go:80-191 | in every interleaving each submitted message is in exactly one place, once: with its sender, pending, on a drain's list, in one queue, delivered, or given up |
| BrokerRuns.ChannelSafety | bleephub/broker.go:80-165 | the queue of a known session is open, so no send or close hits a closed channel, and no queue holds more than 10 messages |
| BrokerWitnesses.JobLost | bleephub/jobs.go:91-93 | a job that is given up is not pending, queued or delivered in any continuation |
| BrokerWitnesses.NeverDelivered | bleephub/jobs.go:91-93 | in every run, what was given up is in no other place from then on |
| BrokerDeliveries.HeldIff | bleephub/broker.go:135-171 | in every run a message is with its sender, given up or has ever been pending if and only if every session's queue was full when it was submitted |
| BrokerDeliveries.DeliverableIff | bleephub/broker.go:80-126 | in every reachable state the message at index i of a queue can still be received in some continuation if and only if its session exists or more than i polls hold the channel |
| BrokerWitnesses.DeletedLosesJob | bleephub/broker.go:80-91 | a run in which a session is deleted with a job in its queue and no poll under way: in no continuation is the job anywhere else |
| BrokerWitnesses.OverlapReorders | bleephub/broker.go:173-191 | a run in which two drains that overlap reverse two waiting messages |
| BrokerOrders.KeepsOrderIff | bleephub/broker.go:167-191 | in every run, any two pending messages stand at all times in the order in which they were requeued if and only if no drain of the run puts a message back in front of a pending one that was requeued before it |
| BrokerOrders.NoOverlapNoOvertaking | bleephub/broker.go:167-191 | when no drain starts while another is running, none overtakes and the order is kept throughout |
| BrokerRuns.PendingKeepsOrder | bleephub/broker.go:167-191 | as long as drains do not overlap, what waits with the drain or in the pending list is an in-order subsequence of what was requeued |
| BrokerRuns.QueueIsFifo | bleephub/broker.go:100-165 | in every step a queue only loses at its front, to the poll, and only grows at its end |
| Matrix.ProductSize | bleephub/matrix.go:28-56 | the number of combinations is the product of the lengths of the value lists |
| Matrix.ProductDigits | bleephub/matrix.go:28-56 | entry i holds for each sorted key the value at the mixed-radix digit of i for that key |
| Matrix.ProductKeys | bleephub/matrix.go:28-56 | every combination has exactly the keys of the matrix |
| Matrix.ProductComplete | bleephub/matrix.go:28-56 | every choice of one value per key is some combination |
| Matrix.ProductDistinct | bleephub/matrix.go:28-56 | combinations are pairwise distinct if no list repeats a value |
| Matrix.ExpandCartesian | bleephub/matrix.go:28-56 | the nested loops compute the product over the sorted keys, whatever order the map yields |
| Matrix.MatchesSharedKeys | bleephub/matrix.go:110-119 | true if and only if all keys that both have agree in formatted value |
| Matrix.MatchesAllKeys | bleephub/matrix.go:122-133 | true if and only if the combination contains the entry, up to formatted equality |
| Matrix.ApplyIncludes | bleephub/matrix.go:61-85 | extending in place, include after include, computes the include specification, of which IncludeExact states what each include does |
| Matrix.IncludesKeep | bleephub/matrix.go:61-85 | each combination keeps its place and all values it ever had, whatever includes follow |
| Matrix.IncludeContained | bleephub/matrix.go:61-85 | each include ends up contained in some combination, despite later extensions |
| MatrixIncludes.IncludeExact | bleephub/matrix.go:61-85 | an include leaves every combination that disagrees with it alone, gives every other the keys that it lacks, and becomes a combination itself if and only if all disagree |
| MatrixIncludes.KeyCameFrom | bleephub/matrix.go:61-85 | after any number of includes each key that a combination did not have from the start has its value from an include that agreed with what it was by then |
| MatrixIncludes.CountAdded | bleephub/matrix.go:61-85 | as many combinations are added as includes agreed with none |
| Matrix.ApplyExcludes | bleephub/matrix.go:88-107 | the loops compute the exclude specification |
| Matrix.ExcludesExact | bleephub/matrix.go:88-107 | a combination stays, as often as it was there, if and only if it contains no exclude |
| Matrix.ExcludesInOrder | bleephub/matrix.go:88-107 | what stays keeps its order |
| Matrix.ExpandMatrix | bleephub/matrix.go:11-24 | the whole expansion, with its special cases, as product, includes and excludes over sorted keys |
| Matrix.ExcludesApplyIff | bleephub/matrix.go:11-24 | only a nil definition panics, and the result holds no excluded combination if and only if there are values or no include contains an exclude |
| Matrix.ExpansionSound | bleephub/matrix.go:11-107 | each base combination survives with all its values unless what the includes made of it contains an exclude; nothing in the result contains one |
| MatrixIncludes.ExpansionExact | bleephub/matrix.go:11-107 | the result is, in order, the product as the includes changed it and the combinations they added, without those that contain an exclude; without values, it is the includes |
| MatrixIncludes.ExcludedMeans | bleephub/matrix.go:87-107 | a combination is excluded if and only if it has all keys of some exclude with values of the same text |
| Matrix.IncludeSurvives | bleephub/matrix.go:11-107 | each include is contained in a combination of the result, unless that one contains an exclude |
| SortedKeys.SortingUnique | bleephub/matrix.go:29-34 | two ascending lists of the same keys are equal, so the iteration order of a map cannot show |
| SortedKeys.LessExact | bleephub/matrix.go:29-34 | keys are ordered by the first byte in which they differ, and a key comes before those it begins |
| UserTokens.TokenStore.CreateUserToServerToken | bleephub/gh_apps_user_tokens.go:50-104 | the new pair is added for the grant, the access token for its lifetime or 8 hours and the refresh token for 6 times 30 days, and the pairing is kept |
| UserTokens.TokenStore.LookupUserToServerToken | bleephub/gh_apps_user_tokens.go:107-115 | a token is found if and only if it is stored and has not expired, with its user if there is one |
| UserTokens.TokenStore.RevokeUserToServerToken | bleephub/gh_apps_user_tokens.go:118-136 | the token and its refresh token go, and the pairing is kept |
| UserTokens.TokenStore.DeleteOwner | bleephub/gh_apps_user_tokens.go:148-153 | stopping at the first match deletes all access tokens of a refresh token |
| UserTokens.TokenStore.RotateUserToServerToken | bleephub/gh_apps_user_tokens.go:140-156 | the old pair is replaced by a new one for the same grant, or nothing happens if the refresh token is unknown or expired |
| UserTokens.TokenStore.RevokeUserGrant | bleephub/gh_apps_user_tokens.go:160-184 | exactly the access and refresh tokens of the client for the user go, and the result is the number of access tokens |
| UserTokens.HitPartners | bleephub/gh_apps_user_tokens.go:164-181 | dropping the partners of the hit tokens drops exactly the refresh tokens of that client and user |
| UserTokenRuns.AlwaysPaired | bleephub/gh_apps_user_tokens.go:50-184 | after every history with fresh draws, refresh tokens and non-empty refresh values of access tokens are in bijection, with equal grants |
| UserTokenLifetimes.PairLives | bleephub/gh_apps_user_tokens.go:50-184 | in every history a pair of tokens stays as it was handed out, with its grant and times, if and only if its access token was not revoked, its refresh token not exchanged in time and its grant not revoked; then both are gone for good |
| UserTokenLifetimes.FoundIff | bleephub/gh_apps_user_tokens.go:50-115 | an access token is found if and only if none of this happened and at most its lifetime has passed, eight hours by default |
| UserTokenLifetimes.ExchangedIff | bleephub/gh_apps_user_tokens.go:80-156 | a refresh token is exchanged for a new pair for the same grant if and only if none of this happened and at most 6 times 30 days have passed; otherwise nothing changes |
| UserTokenRuns.RotatesOnce | bleephub/gh_apps_user_tokens.go:140-156 | once a refresh token was exchanged, neither it nor its access token is ever stored again |
| UserTokenRuns.RotateReplacesOne | bleephub/gh_apps_user_tokens.go:140-156 | an exchange replaces one access token by one and one refresh token by one, for the same grant |
| UserTokenRuns.NoEscalation | bleephub/gh_apps_user_tokens.go:44-156 | every token ever stored speaks for a user, client and scopes that a token was created for |
| UserTokenRuns.GrantStaysRevoked | bleephub/gh_apps_user_tokens.go:140-184 | after a grant was revoked, no token of that client for that user exists until one is created anew |
| ReviewComments.ListingExact | bleephub/gh_pr_comments.go:161-167 | the listing of a pull request has exactly its live comments, by increasing id |
| ReviewComments.OfThreadExact | bleephub/gh_pr_comments.go:224-239 | the comments of a thread are exactly those of the listing with its id, in order |
| ReviewComments.PRReviewCommentStore.CreateRootComment | bleephub/gh_pr_comments.go:75-110 | a comment with the next id starts its own thread; both indexes and the thread roots stay consistent |
| ReviewComments.PRReviewCommentStore.Reply | bleephub/gh_pr_comments.go:113-153 | a reply is possible if and only if the parent is live and of that pull request; it takes over the parent's place and thread |
| ReviewComments.PRReviewCommentStore.ListForPR | bleephub/gh_pr_comments.go:161-167 | the list kept per pull request is the one that byID determines, of the same objects |
| ReviewComments.PRReviewCommentStore.Update | bleephub/gh_pr_comments.go:169-179 | only the body of that comment changes, in both indexes at once |
| ReviewComments.PRReviewCommentStore.ResolveThread | bleephub/gh_pr_comments.go:201-211 | the flag is set on the comment with the thread's id, if it is live |
| ReviewComments.PRReviewCommentStore.Delete | bleephub/gh_pr_comments.go:181-198 | the comment leaves both indexes and the thread roots, and nothing else changes |
| ReviewComments.PRReviewCommentStore.ListThreads | bleephub/gh_pr_comments.go:220-245 | one entry for each thread with a live comment, with its comments in order and the flag of its root if that is live |
| ReviewThreadRuns.AlwaysThreaded | bleephub/gh_pr_comments.go:75-198 | after every history, deleted comments included, each comment starts a thread or continues that of an older one at the same place |
| ReviewThreadRuns.ThreadIsChainEnd | bleephub/gh_pr_comments.go:112-153 | the thread id is the end of the chain of replies, and a thread has one pull request, path and commit, whatever was deleted |
| ReviewThreadRuns.CommentAsAsked | bleephub/gh_pr_comments.go:75-153 | for every event of a history: a root comment is as asked for, on the right side by default and with its line numbers if positive, a reply has its author and the place and thread of its parent, and so they stay; a reply to no live comment of the pull request changes nothing |
| ReviewThreadRuns.BodyIsLast | bleephub/gh_pr_comments.go:75-179 | a live comment has the text it was created with or last given |
| ReviewThreadRuns.ThreadListed | bleephub/gh_pr_comments.go:220-245 | a thread is listed with exactly the live comments of the pull request whose chain ends at it, oldest first; all comments of a thread are in its root's pull request |
| ReviewThreadRuns.FlagIsLast | bleephub/gh_pr_comments.go:201-211 | the flag of a live comment is what the last successful call asked for |
| ReviewThreadRuns.DeletedStaysDeleted | bleephub/gh_pr_comments.go:181-198 | a deleted comment never comes back |
| ReviewThreadRuns.FlagListedIff | bleephub/gh_pr_comments.go:229-237 | a thread is listed with the flag last asked for if and only if its root is still there or the flag was not set |
| ReviewThreadRuns.ResolvedLost | bleephub/gh_pr_comments.go:181-237 | a resolved thread whose root was deleted is listed with its reply as unresolved, and never as resolved again |
| Checks.CheckStore.FindSuite | bleephub/gh_checks_store.go:134-139 | the loop finds the suite for the key, or none, whatever order the map yields |
| Checks.CheckStore.CreateCheckSuite | bleephub/gh_checks_store.go:76-100 | the suite of the key is returned, and created only if there is none |
| Checks.CheckStore.CreateCheckRun | bleephub/gh_checks_store.go:128-173 | the run joins the suite named, or with 0 the suite of its key, which is created if need be |
| Checks.CheckStore.UpdateCheckRun | bleephub/gh_checks_store.go:183-192 | only that run changes, as the callback says, and the invariant is kept if and only if the run stays in the suite of its key |
| Checks.CheckStore.ListCheckRunsForCommit | bleephub/gh_checks_store.go:195-215 | each run that passes all filters is listed once, and no other |
| Checks.CheckStore.ListCheckRunsForSuite | bleephub/gh_checks_store.go:218-228 | each run of the suite is listed once, and no other |
| Checks.SuitesAndRunsAgree | bleephub/gh_checks_store.go:76-228 | after every history there is at most one suite per repository, commit and app, and both listings agree for every suite with a positive app id |
| CheckHistories.RunIsLast | bleephub/gh_checks_store.go:128-192 | after every history a run has the repository, commit and app it was created for and the name, status and conclusion last given, at first queued and none |
| CheckHistories.ListedIff | bleephub/gh_checks_store.go:194-215 | it is listed for a commit if and only if these are of that repository and commit, of that app if the id is positive, and of the status and conclusion asked for, if any |
| CheckHistories.SuiteIsFirst | bleephub/gh_checks_store.go:76-173 | there is a suite for a key if and only if some event asked for one, queued and on the branch that the first of them named |
| Checks.ListingsAgree | bleephub/gh_checks_store.go:194-228 | for a suite the two listings agree if and only if its app id is positive or no other app has runs on the commit |
| Checks.NamedSuite | bleephub/gh_checks_store.go:127-132 | after a call that names any suite, for a run of any app id, the listings of real apps still agree if and only if the number is 0, or that of the key's suite, or neither it nor any suite of the key is a real app's |
| Reactions.KeyInjective | bleephub/gh_reactions.go:64-66 | no two parents share a key, whatever characters their kinds have |
| Reactions.ReactionStore.AddReaction | bleephub/gh_reactions.go:70-94 | an unknown content is refused, a repeated reaction is returned, and otherwise one is added to both indexes |
| Reactions.ReactionStore.ListReactions | bleephub/gh_reactions.go:97-113 | the parent's reactions in order, all of them or those of one content |
| Reactions.ReactionStore.DeleteReaction | bleephub/gh_reactions.go:117-134 | the reaction leaves both indexes if and only if it exists and belongs to that parent |
| Reactions.ReactionStore.SummarizeReactions | bleephub/gh_reactions.go:139-163 | each count is that of its content, and the total is the length of the list and the sum of the eight counts |
| Reactions.AlwaysGood | bleephub/gh_reactions.go:64-163 | after every history both indexes hold the same reactions, each parent's list exactly its own, and each count is a number of users |
| Reactions.OncePerParent | bleephub/gh_reactions.go:77-81 | a user reacts at most once in the same way to the same thing |
| Reactions.CountsUsers | bleephub/gh_reactions.go:147-150 | the count of a content is the number of distinct users |
| Reactions.OfContentExact | bleephub/gh_reactions.go:97-113 | the filtered list has exactly the reactions of that content, in the order of the whole |
| Reactions.AddThenDelete | bleephub/gh_reactions.go:70-134 | adding a reaction and deleting it again leaves both indexes as they were |
| Artifacts.ArtifactStore.RecoverFromDisk | bleephub/artifacts.go:54-86 | the scan over any directory computes the recovery function, passing over what is no artifact |
| Artifacts.ArtifactStore.PersistMeta | bleephub/artifacts.go:89-100 | only the metadata file of that artifact changes, and nothing without a data directory |
| Artifacts.ArtifactStore.AppendData | bleephub/artifacts.go:103-115 | only the data file of that artifact grows, and nothing without a data directory |
| Artifacts.ArtifactStore.CreateArtifact | bleephub/artifacts.go:148-159 | an empty open artifact gets the next id, and its metadata is saved |
| Artifacts.ArtifactStore.UploadArtifact | bleephub/artifacts.go:188-195 | data and size grow in memory and data on disk; metadata on disk stays |
| Artifacts.ArtifactStore.FinalizeArtifact | bleephub/artifacts.go:216-226 | one open artifact with the name is sealed and saved, or there is none |
| Artifacts.RecoveryExact | bleephub/artifacts.go:54-86 | from a disk that mirrors memory, recovery rebuilds memory with the sizes last saved |
| ArtifactContents.LoadAny | bleephub/artifacts.go:54-86 | from any disk whatever, recovery takes the folders with metadata whose names are numbers, the last where several read as one, and nothing else; the next id is one above the largest, or 1 |
| ArtifactRuns.AlwaysMirrors | bleephub/artifacts.go:54-226 | after every history, restarts included, the disk mirrors memory except for sizes |
| ArtifactRuns.RecoveryRefines | bleephub/artifacts.go:54-115 | whenever the process stops, a new one finds the same ids, names, runs, data, flags and next id |
| ArtifactContents.ContentExact | bleephub/artifacts.go:54-226 | after every history, restarts included, each artifact has the name and run it was created for and all chunks uploaded to it in order, and is sealed if and only if it was finalized |
| ArtifactRuns.SizesExact | bleephub/artifacts.go:188-226 | the size in memory and the size on disk are right if and only if the history says so |
| ArtifactRuns.SizeSurvives | bleephub/artifacts.go:188-226 | uploads and finalization in one process and no data afterwards: every later restart has the right size |
| ArtifactRuns.FinalSizeWrong | bleephub/artifacts.go:206-226 | upload, restart, finalize: the outdated size is saved for good |
| Pagination.ParsePagination | bleephub/gh_pagination.go:18-34 | missing, malformed and non-positive parameters fall back to page 1 and 30 per page, and no page has more than 100 items |
| Pagination.ParamsExact | bleephub/gh_pagination.go:18-34 | a parameter that is missing, no number or not positive counts as page 1 and as 30 a page, and more than 100 a page as 100 |
| Pagination.PaginateAndLink | bleephub/gh_pagination.go:37-61 | the slice between the cut bounds and the links for the last page, with 64-bit wrap-around, or a slice out of range |
| Pagination.OutcomeExact | bleephub/gh_pagination.go:46-54 | the slice is out of range if and only if the first index wraps to a negative number, and it is the page asked for if and only if the index does not wrap or wraps past the list |
| Pagination.LargestPagePanics | bleephub/gh_pagination.go:46-54 | page 2^63 - 1 with 100 items a page is out of range for every list |
| Pagination.WrappedPageIsFirst | bleephub/gh_pagination.go:46-54 | page 2^62 + 1 with 4 items a page lies past every list and yet gives the first 4 items |
| Pagination.BuildLinkHeader | bleephub/gh_pagination.go:64-94 | which links there are, in order, and that every other parameter is carried over |
| Pagination.LinksOrder | bleephub/gh_pagination.go:64-94 | the links are next, last, first and prev in this order, the first two before the last page and the others after page 1 |
| Pagination.NextIff | bleephub/gh_pagination.go:41-44 | there is a next page if and only if this one ends before the list does |
| Pagination.WalkCovers | bleephub/gh_pagination.go:37-94 | following rel="next" from page 1 ends after ceil(total / perPage) pages, 1 for an empty list, and yields the list exactly once, in order |
| Pagination.LinksFit | bleephub/gh_pagination.go:84-93 | "prev" undoes "next", "last" leads to the page without "next", "first" to the page without "prev", all with the same page size |
| Base64.DecodeEncode | bleephub/gh_repos_graphql.go:439-445 | decoding undoes the encoding of RFC 4648, section 4, for every byte string |
| Base64.LetterExact | bleephub/gh_repos_graphql.go:439-441 | the letters are those of Table 1 of RFC 4648, section 4 |
| Base64.GroupExact | bleephub/gh_repos_graphql.go:439-441 | the four letters of three bytes are the digits in base 64 of the number that the bytes are in base 256 |
| Base64.Vectors | bleephub/gh_repos_graphql.go:439-441 | the test vectors of RFC 4648, section 10, with every length of padding |
| Base64.DecodesIff | bleephub/gh_repos_graphql.go:443-446 | a text decodes if and only if, line breaks left out, it is letters in groups of four, the last group padded with at most two signs |
| Base64.DecodedText | bleephub/gh_repos_graphql.go:443-446 | it decodes to bytes of which it is the encoding, except that the unused bits of the last letter do not count |
| Decimal.AtoiItoa | bleephub/gh_repos_graphql.go:451-456 | reading the decimal text of a 64-bit integer gives it back |
| Decimal.ItoaExact | bleephub/gh_repos_graphql.go:439-441 | the text is a minus sign if the number is negative and its digits, digit i from the right being the number of times 10 to the i goes into it, modulo 10, without leading zeros |
| Decimal.AtoiIff | bleephub/gh_repos_graphql.go:451-456 | a text is read as a number if and only if it is its digits, perhaps after zeros and a sign, and the number fits 64 bits |
| Cursors.CursorRoundTrip | bleephub/gh_repos_graphql.go:439-457 | a cursor gives back its index, for every 64-bit index |
| Cursors.CursorTextIs | bleephub/gh_repos_graphql.go:439-441 | a cursor is the base64 text of the word cursor, a colon and the index |
| Cursors.PaginateRepos | bleephub/gh_repos_graphql.go:389-437 | nodes, edges, cursors and page information of the slice from the cursor on, with 64-bit wrap-around, or a slice out of range |
| Cursors.PageExact | bleephub/gh_repos_graphql.go:389-437 | a page has its items, the number of all items, whether there are others before and after, an edge for each item with the cursor of its index, and the first and last of these cursors |
| Cursors.PanicsIff | bleephub/gh_repos_graphql.go:393-407 | for a positive size the slice is out of range if and only if the cursor is below -1 or the largest 64-bit integer |
| Cursors.NegativeCursorPanics | bleephub/gh_repos_graphql.go:393-407 | the text that encodes -2 is a cursor whose page is out of range for every list |
| Cursors.FirstItemIff | bleephub/gh_repos_graphql.go:393-400 | a page starts with the first item if and only if the text is empty or decodes to -1 |
| Cursors.WalkCovers | bleephub/gh_repos_graphql.go:389-437 | passing endCursor back while hasNextPage ends for every positive size and yields the list exactly once, in as few pages as possible |
| Cursors.ResumeAfterEdge | bleephub/gh_repos_graphql.go:407-421 | the page after any edge's cursor starts with the very next item |
| Cursors.NoCursorSkipsOne | bleephub/gh_repos_graphql.go:443-457 | a text that is no cursor starts the page at the second item |

## Left out

- Sockets, HTTP, JSON, WebSocket framing, process spawning, signals, timers, telemetry: the wire is a reliable FIFO, a child
  is two byte streams and an exit code, a disk is a map of folders, and writes to it succeed.
- Base64 of message payloads on the wire: taken to be invertible; terminal mode of exec and attach; read errors of pipes other
  than their end; the client-to-agent direction of the bridge and of attach sessions.
- ExecProtocols.CollectExact: says nothing about the outputs that come beside an error.
- ExpressionSyntax.EvalPrinted: sufficient for expressions longer than a name, for which no exact condition on the text is given.
- The 30-second expiry of polls and the HTTP statuses of the broker; message deletion, which is a stub.
- MatrixJobName and the order in which jobs are scheduled.
- The database mirror of tokens and reviews, which some deletions do not reach.
- Creation and update times of comments, checks, reactions and artifacts, node ids, and the parts of check runs that only
  pass through (output, annotations, URLs).
- Runs and suites are values, so a caller's later writes through a returned pointer are not modelled; the same holds for
  tokens, reactions and artifacts, but not for review comments, which are objects.
- ArtifactRuns.AlwaysMirrors: histories have fewer than 2^63 - 1 events, so that ids fit 64 bits.
- Pagination.BuildLinkHeader: gives the links as relations and queries; the text of the header and of URLs is not built.
- Cursors.WalkCovers: lists have at most 2^62 items, so that no index of a walk wraps.
- Listing and download of artifacts, cache stubs, suite listings and preferences, SQLite persistence, agent/wsclient.go,
  deployments and releases, which have the shape of what is modelled.
