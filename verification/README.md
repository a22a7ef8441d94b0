# Verified models of the ACP connection, its transports and related tools

The project models eight parts of the repository in Dafny and proves what they are for. Every
method is proved against a specification function or an outright property; the lemmas beside it
say what that specification means.

1. **JSON-RPC connection** (`Rpc`, `Protocol`, `Interleavings`, `Histories`, `Progress`, `Connection`). `Rpc` has the state
   of one endpoint and its atomic steps: what runs between two suspension points. Two endpoints
   and two FIFO streams form a system; a trace is any sequence of steps of either side: sending,
   transmitting, receiving, dispatching, finishing a handler, cancelling a caller, failing writers
   and streams, and the parts of `close()` between its awaits. `Connection` has the same state as a
   class whose methods are the code, each equal to a step. `Connection.WireIsFifo` shows that the
   framing layer provides the FIFO streams that the system assumes.
2. **Framing and heartbeat** (`Framing`, `Heartbeat`). WebSocket and Starlette adapters, re-chunking,
   line reassembly; the heartbeat over any sequence of ping results, with exact times. Pings and
   pongs are those of sections 5.5.2 and 5.5.3 of RFC 6455.
3. **Schema rewriting** (`Schema`, `SchemaInPlace`, `SchemaMeaning`). The recursive rewriting as a
   function on JSON values, as a method on a heap of dictionaries and lists that it changes in
   place, and a validation semantics with `nullable` as in section 4.7.24 of the OpenAPI
   Specification 3.0.3. Validation follows `$ref` a bounded number of times in a row; the theorem
   holds for every bound.
4. **Tool-call progress** (`ToolCalls`, `ToolCallViews`, `ToolCallRuns`). Both reporters as classes, and the client
   as a fold over notifications in which an absent field means unchanged.
5. **Graph translation** (`Graph`, `GraphMeaning`, `GraphConnections`), with an execution meaning for
   graphs: every edge delivers what it carries, whatever else arrives at its target, and every
   arrival runs the step. Conditions and transforms of edges mean what they mean for connections in
   `src/wolfharness/talk/talk.py:249-274`: the stop condition is tested on the output, the filter on
   the transformed output.
6. **Configuration contexts** (`ConfigContext`).
7. **CI bisection** (`Bisect`), with the CI service as an oracle.
8. **Data conservation**: the session merge (`Migration`, `MigrationMeaning`), the frontmatter printer
   and parser (`Frontmatter`, `FrontmatterMeaning`), the resource index (`KbIndex`).

`Lists`, `Text` and `Options` are shared. Run `dafny verify dfyconfig.toml` to check everything.

## Where the code differs from its description

The model follows the code. These are the places where a promise does not hold as written; for each
there is a lemma with the exact condition, and a lemma with one concrete failing case.

- `_handle_response` reports an error as an error only if `data` is present, although section 5.1 of
  the JSON-RPC 2.0 specification lets it be omitted; otherwise the request seems to succeed with
  `null` (`Rpc.ErrorSeenIffDataPresent`, `Rpc.ErrorWithoutDataSeemsSuccess`). Peers that use
  `to_error_obj` always write `data`.
- A handler result that cannot be written as JSON is never answered: the error path sends the same
  payload again. In a quiet system a request is answered if and only if it could be encoded and its
  handler run can answer (`Interleavings.QuietMeansAnswered`, `Interleavings.UnencodableResultHangs`).
- `close()` cancels the handlers that still run and waits for them without a limit. A handler that
  turns its cancellation into a result or an error makes its runner wait in the sender, whose loop
  has already ended: then `close()` never returns, and pending requests are never rejected. It
  completes if and only if none of these handlers answers
  (`Interleavings.CompletesIffHandlersAreSilent`, `Interleavings.AnsweringHandlerHangs`). The handler
  of `session/prompt` is such a one (`src/wolfharness_server/acp_server/handler.py:706-713`).
- `send_request` does not look at the closed flag. The futures of requests made after `close()` has
  rejected the pending ones are never settled (`Interleavings.SettledIffIssuedBeforeClose`,
  `Interleavings.LateRequestHangs`).
- `send_request` first waits until its payload is written, and nothing ends that wait for payloads
  that are queued when the sender loop ends. So after `close()` a caller still waits if and only if
  its request was issued when the sender had been told to stop or had ended, or was queued behind a
  write that raised, although its future may be rejected (`Interleavings.CallerWaitsIffLeftBehind`,
  `Interleavings.RequestInCloseHangs`).
- The plain WebSocket writer strips whitespace; the receive loop drops empty lines and `null`. So
  payloads arrive unchanged exactly if they are trimmed and neither empty nor `null`
  (`Framing.WebSocketEndToEnd`, `Framing.LeadingSpaceIsLost`). Encoded JSON objects always are
  (`Connection.WireIsFifo`).
- The OpenAPI variant changes what a schema accepts if the rewritten `anyOf` has a sibling `type`
  that is not wide enough, or a null branch that refuses null (`SchemaMeaning.RewriteIsExact`,
  `SchemaMeaning.NarrowSiblingTypeIsLost`). A sibling `nullable` does no harm.
- Full-state progress always carries a content list, also an empty one, and deltas never carry an
  empty one. The two views agree exactly if the updates do not end by clearing content
  (`ToolCallViews.DeltaAgreesWithFullState`, `ToolCallViews.ClearedContentDiffers`). Empty locations
  are never sent, so that a client can show stale ones (`ToolCallViews.ReporterIsMirrored`,
  `ToolCallViews.StaleLocations`).
- A member named twice in a sequential team is one step of the graph. The whole pipeline still
  reaches `end`, but so do shortened ones: what lies between the two mentions can be skipped
  (`GraphMeaning.OnlyPipelineIffDistinct`, `GraphMeaning.ShortcutReaches`,
  `GraphMeaning.RepeatedMemberSkips`).
- A connection to an agent that has no connections itself, and is in no team and no given graph,
  leaves a dangling edge (`GraphMeaning.DanglesIffTargetUnknown`,
  `GraphMeaning.UnconnectedTargetDangles`).
- The documentation of `get_config_dir` says that the directory stays readable after the `with`
  block; it never does (`ConfigContext.WellNestedProgramsReadInnermost`, for every program).
- Sessions come back from a downgrade only if they have a pool, project or cwd, and their name,
  title and creation time only if the conversation had the same. If some of the columns were there
  before the upgrade, other conversations can become sessions, and the downgrade drops what the
  columns held (`MigrationMeaning.ConversationsComeBack`)
  (`MigrationMeaning.SessionsComeBackExactlyIf`, `MigrationMeaning.BareSessionIsLost`).
- Written frontmatter reads back exactly for one-line, unquoted strings and a plain body
  (`FrontmatterMeaning.RoundTripExactlyIf`); in particular not with an empty body
  (`FrontmatterMeaning.EmptyBodyIsLost`).
- A synchronisation of the resource index that raises does not announce what it changed before.
  Clients stay uninformed until a later change is announced (`KbIndex.UpToDateExactlyIf`,
  `KbIndex.RaisingScanHidesItsChange`, `KbIndex.RemovalIsNotAnnounced`).

## Model

| member | source | states |
|---|---|---|
| Rpc.ErrorSeenIffDataPresent | src/acp/connection.py:260-268 | a well-formed error response is reported as an error if and only if it has `data`; without it the request resolves to null |
| Rpc.ErrorWithoutDataSeemsSuccess | src/acp/connection.py:264-268 | a concrete valid error that is taken for success |
| Rpc.RepliesAreWellFormed | src/acp/connection.py:224-254 | for every handler result: nothing is sent exactly if it cannot answer; otherwise a response with the id of the request and either the value or an error that has a code, a message and data |
| Protocol.SentCallMembers | src/acp/connection.py:151-156 | the requests on the wire are exactly the encodable calls, each under its own position as id |
| Protocol.ActKeepsNumbered | src/acp/task/state.py:52-78 | every step keeps: ids count calls, the pending map points each id at its own future, and every done future has its cause (a response with its id, a rejection, or a cancellation) |
| Protocol.ActKeepsAccounted | src/acp/task/dispatcher.py:53-91 | every step keeps: what was sent is the encodable calls and the replies of handler runs; each request received is queued, running or served, as often as it came; each notification received was given to a handler or is queued, once and in order |
| Protocol.ActKeepsLifecycle | src/acp/connection.py:116-143 | every step keeps: the task queue is closed only after the receive loop ended, the sender told to stop only after the dispatcher ended; handlers are cancelled only after the sender loop ended, and beyond the wait for them none runs and none has answered its cancellation |
| Protocol.ActKeepsCalled | src/acp/task/sender.py:58-105 | every step keeps: requests wait to be sent in the order of their ids; a call that cannot be encoded raised; a caller that got an exception has nothing queued; and once `close()` has returned, an encodable request whose future is not done never left the queue |
| Interleavings.StepKeepsInv | src/acp/connection.py:78-114 | each step of either endpoint keeps both endpoint invariants and: received, in flight and queued together are what the peer sent, in order |
| Interleavings.RunKeepsInv | src/acp/connection.py:78-114 | the same over every interleaving |
| Interleavings.SettlesAtMostOnce | src/acp/task/state.py:64-78 | in every interleaving a future that is done never changes again |
| Interleavings.HandledAtMostOnce | src/acp/connection.py:196-204 | no two handler runs are for the same request, although both ends use the same ids |
| Interleavings.RunIsUnique | src/acp/task/dispatcher.py:73-85 | every handler run is the one run of the peer's call with that id, with its method and parameters |
| Interleavings.HalfIsFaithful | src/acp/connection.py:224-268 | in a consistent state, a future settled by a response shows what the one handler run for that very request did, and that run could answer |
| Interleavings.OutcomesAreFaithful | src/acp/connection.py:151-268 | main result: in every interleaving both ends see the same result, or an error with the same code, (non-empty) message and data, for exactly their own requests |
| Interleavings.UnanswerableIsNeverAnswered | src/acp/connection.py:224-254 | a request whose run was cancelled, or gave something that cannot be encoded, is never settled by a response |
| Interleavings.QuietMeansAnswered | src/acp/connection.py:224-254 | no reply is lost: in a quiet system the future of a request that nobody gave up is answered if and only if the request was encodable and its one handler run can answer. The caller of one that was not encodable got its exception at once; any other caller still waits exactly if it was not cancelled and the run cannot answer |
| Interleavings.UnencodableResultHangs | src/acp/connection.py:230-254 | a concrete trace: everything was delivered and handled, and the caller still waits |
| Histories.HistoriesFollowTrace | src/acp/connection.py:151-163 | for every trace and either side: the calls are those of the trace, the notifications handed to the sender are exactly its encodable ones, and the handler runs are those that end in it with their results, all in order |
| Histories.NotificationsArriveInOrder | src/acp/connection.py:160-163 | main result: in every interleaving the notifications given to handlers, queued at the receiver, in flight and unsent are together and in order those of the sender; in a quiet system every one was given to a handler exactly once, in order |
| Progress.ComesToRest | src/acp/task/dispatcher.py:53-64 | from every reachable state of two open connections, turns of the loops lead to a state in which nothing waits, runs or is in flight, whatever the handlers do; no request is given up on the way |
| Progress.EveryRequestIsAnswered | src/acp/connection.py:151-268 | main result: if the handlers can answer and did so far, these turns answer every encodable request that nobody gave up |
| Interleavings.PublishNeverRaises | src/acp/connection.py:122-135 | main result: in every interleaving the receive loop has ended before the task queue is closed, so a request or notification that it processes always joins the queue and publishing never raises |
| Interleavings.ClosingTheQueueFirstRaises | src/acp/connection.py:122-124 | with the first two parts of `close()` in the other order, every request or notification that arrives in between raises in the receive loop, ends it and reaches no handler |
| Interleavings.SecondCloseDoesNothing | src/acp/connection.py:116-120 | once `close()` was called, every later call changes nothing, after any steps of either side |
| Interleavings.CloseSettlesEverything | src/acp/connection.py:142-143 | when `close()` returns, the future of every request made so far is settled |
| Interleavings.ClosedNeverSettles | src/acp/connection.py:151-158 | the futures of requests made after that are never settled by any later step |
| Interleavings.SettledIffIssuedBeforeClose | src/acp/connection.py:142-158 | after `close()`, in every continuation, exactly the futures of the requests made before the rejection are settled (when their callers return: `CallerWaitsIffLeftBehind`) |
| Interleavings.CallerWaitsIffLeftBehind | src/acp/connection.py:151-158 | main result: in every run in which `close()` returned, a caller of `send_request` that was not cancelled still waits if and only if its request was issued after `close()` told the sender to stop or the sender loop ended, or was queued behind a write that raised |
| Interleavings.LeftBehindIff | src/acp/task/sender.py:58-105 | in every run, a request waits behind the end of the sender loop if and only if it was issued after the stop or the end of that loop, or queued when an earlier write raised |
| Interleavings.ReturnedIffNotQueued | src/acp/task/sender.py:74-85 | in every consistent state after `close()`, a caller has returned if and only if it was cancelled or its request is not in the send queue |
| Interleavings.NeverReturns | src/acp/task/sender.py:74-105 | what is queued when the sender loop has ended stays queued in every continuation, and the caller of such a request returns only if it is cancelled |
| Interleavings.CancelEndsCaller | src/acp/connection.py:151-158 | cancelling a caller ends it in either of its awaits; its request stays in the send queue if it is there, and otherwise its future is cancelled unless it was done; no other future changes |
| Interleavings.FailedWriteRaises | src/acp/task/sender.py:94-99 | a write that raises ends the sender loop; the message is neither written nor queued, and the caller of the request in it has returned |
| Interleavings.ReceiveErrorRejects | src/acp/connection.py:270-272 | when the receive loop ends with an error exactly the futures that wait are rejected; otherwise none is |
| Interleavings.RequestInCloseHangs | src/acp/connection.py:136-143 | a concrete trace: a request made while `close()` waits for the sender; its future is rejected, `close()` returns, and in every continuation its caller returns only if it is cancelled |
| Interleavings.LateRequestHangs | src/acp/connection.py:151-158 | a concrete trace: a request made after `close()` returned is never settled, whatever happens then |
| Interleavings.CloseCompletes | src/acp/connection.py:116-143 | from any point of `close()` at which no handler has answered its cancellation, the endpoint's own turns (the receive loop and the handlers end when cancelled, dispatcher and sender work off their queues) bring it to its end, without the peer |
| Interleavings.CompletesIffHandlersAreSilent | src/acp/task/supervisor.py:78-93 | main result: from the moment `close()` cancels the handlers, in every interleaving: those that ended are the ones that were running; `close()` gets beyond them only if all ended without an answer, and when all have ended it completes if and only if none of them answered |
| Interleavings.StuckForever | src/acp/task/supervisor.py:86-93 | after one handler answered its cancellation, `close()` waits in every continuation, and no pending request is rejected |
| Interleavings.AnsweringHandlerHangs | src/wolfharness_server/acp_server/handler.py:706-713 | a concrete trace: a handler that returns a value when it is cancelled, as the one for prompts does, and a `close()` that never returns, whatever happens then |
| Connection.StateStore.RegisterOutgoing | src/acp/task/state.py:59-62 | a fresh waiting future, filed under the id |
| Connection.StateStore.Answer | src/acp/task/state.py:64-72 | pops the id and settles its future unless it is done |
| Connection.StateStore.RejectAllOutgoing | src/acp/task/state.py:74-78 | settles all pending futures that are not done and clears the map |
| Connection.Connection.SendRequest | src/acp/connection.py:151-158 | a fresh waiting future is filed under the next id, and an encodable request joins the end of the send queue; the caller is done only if the call could not be encoded, and otherwise waits for the write and then for the future (`Rpc.CallerReturned`) |
| Connection.Connection.SendNotification | src/acp/connection.py:160-163 | an encodable notification joins the end of the send queue; otherwise nothing changes |
| Connection.Connection.Send | src/acp/task/sender.py:58-76 | up to its await: the message joins the end of the send queue |
| Connection.Connection.ProcessMessage | src/acp/connection.py:196-204 | the new state is the receive step: publish, settle, or end the loop on a closed queue |
| Connection.Connection.HandleResponse | src/acp/connection.py:260-268 | settles the future of that id with the meaning of the response |
| Connection.Connection.ProcessLines | src/acp/connection.py:177-188 | the messages of the kept, decodable lines are processed in order |
| Connection.Connection.ReceiveLoop | src/acp/connection.py:165-194 | for any cutting into chunks: processes exactly the messages in the newline split of the whole text minus its last piece, and keeps that piece |
| Connection.Connection.FinishRequest | src/acp/connection.py:224-254 | the new state is the finishing step: one reply with result or error, or none; a runner that replies after its cancellation is stuck |
| Connection.Connection.DispatchOne | src/acp/task/dispatcher.py:53-91 | the first task is taken and, if it is a request, its handler runs; the sentinel ends the loop |
| Connection.Connection.TransmitOne | src/acp/task/sender.py:87-105 | exactly the first queued message is written; the sentinel ends the loop |
| Connection.Connection.FailWrite | src/acp/task/sender.py:94-99 | the first queued message is taken, its sender gets the exception, and the loop ends |
| Connection.Connection.CancelRequest | src/acp/connection.py:151-158 | the caller is gone; the future of the request is cancelled unless the request still waits to be written |
| Connection.Connection.EndReceive | src/acp/connection.py:165-194 | the receive loop is over; after an error all pending requests are rejected |
| Connection.Connection.Close | src/acp/connection.py:116-128 | only the first call does anything: it cancels the receive loop and goes on when that has ended |
| Connection.Connection.StopDispatcher | src/acp/task/dispatcher.py:66-71 | once the receive loop has ended, the queue is closed behind what it holds |
| Connection.Connection.CloseSender | src/acp/task/sender.py:78-85 | the stop sentinel goes behind everything that waits to be sent |
| Connection.Connection.Shutdown | src/acp/task/supervisor.py:78-86 | the running handlers are cancelled, and still run |
| Connection.Connection.EndShutdown | src/acp/task/supervisor.py:87-93 | goes on only when no handler runs and no runner waits in the sender |
| Connection.Connection.RejectPending | src/acp/connection.py:142-143 | the last part of `close()` |
| Connection.WireIsFifo | src/acp/transports.py:617-710 | any messages, encoded and carried by either kind of adapters: at any moment, whatever was read, those that arrived are the first ones sent, and all of them once everything is read |
| Framing.ReceiveConserves | src/acp/transports.py:624-691 | a receive returns a non-empty piece of at most `max_bytes` of the pending text and leaves the rest; it ends exactly if nothing is pending |
| Framing.WebSocketReadStream.Receive | src/acp/transports.py:673-691 | the chunk and the new buffer are those of the receive step |
| Framing.StarletteReadStream.Receive | src/acp/transports.py:624-644 | the same step, although the buffer is refilled differently |
| Framing.DrainConserves | src/acp/transports.py:624-691 | any sequence of receives loses, merges and repeats nothing, and enough of them read everything |
| Framing.FeedTwice | src/acp/connection.py:174-188 | two chunks in a row complete the same lines as their concatenation |
| Framing.LinesIgnoreChunking | src/acp/connection.py:171-188 | any cutting of the same text gives the same lines and the same buffer |
| Framing.LinesArriveInOrder | src/acp/transports.py:617-710 | whatever has been read, the lines so far are the first of the payloads sent, less trimming and skipped ones |
| Framing.WebSocketEndToEnd | src/acp/transports.py:673-707 | the receiver's lines are the trimmed, non-skipped payloads; they are the payloads sent if and only if every payload is trimmed and neither empty nor `null` |
| Framing.StarletteEndToEnd | src/acp/transports.py:624-660 | the same without trimming: if and only if no payload is empty or `null` |
| Framing.LeadingSpaceIsLost | src/acp/transports.py:703-707 | a concrete payload that the plain adapters change |
| Heartbeat.Run | src/acp/transports.py:464-511 | for every sequence of ping results, with any delays, the socket is closed for pong timeout exactly if the last N pings were all missed, never earlier, with the exact time of each verdict |
| Heartbeat.MissedPingsSpacing | src/acp/transports.py:477-497 | the time between the sending of the first and of the last of some missed pings |
| Heartbeat.NextPing | src/acp/transports.py:464-500 | a ping follows an answered one after the delay of its pong and one interval, and a missed one after the timeout and one interval |
| Heartbeat.ClosingDelayIsEffectiveTimeout | src/acp/transports.py:98-106 | the time from sending the first of the missed pings to closing is the effective timeout for the same settings |
| Heartbeat.TimeoutOnlyWithPings | src/acp/transports.py:98-106 | there is a timeout if and only if there is a ping interval; if a single miss closes, it is the pong timeout |
| Schema.ConvertedIsSettled | scripts/generate_schema.py:24-54 | after the conversion nothing is rewritable at any depth, although parents are tested before their children |
| Schema.ConversionIsIdempotent | scripts/generate_schema.py:24-54 | converting again changes nothing; a schema is left alone if and only if nothing in it is rewritable |
| Schema.RewritableIff | scripts/generate_schema.py:30-43 | the tests of the code hold exactly if the `anyOf` has two entries, in either order: an object with the type null, and an object with another `type` and nothing else |
| Schema.ConvertsExactly | scripts/generate_schema.py:24-56 | main result, told from the members of a schema: a value is the conversion if and only if such an `anyOf` gave way to the converted type and `nullable`, every other dictionary kept its keys, and all other values at every depth are converted in their places |
| SchemaInPlace.Node.FindBranches | scripts/generate_schema.py:31-39 | which of the two branches is the null type and which the plain type |
| SchemaInPlace.Node.Flatten | scripts/generate_schema.py:26-45 | one dictionary, in place: its value becomes the rewritten one, or stays |
| SchemaInPlace.Node.Rewrite | scripts/generate_schema.py:43-45 | deleting `anyOf`, updating from the type branch and setting `nullable` keeps the tree a tree |
| SchemaInPlace.ConvertValues | scripts/generate_schema.py:47-50 | every value of a dictionary is converted, whatever the order |
| SchemaInPlace.ConvertElements | scripts/generate_schema.py:51-54 | every element of a list is converted |
| SchemaInPlace.Convert | scripts/generate_schema.py:24-54 | the tree below the node becomes its conversion (also as `Schema.IsConversion` describes it), the nodes stay the same objects, and nothing outside of the tree changes |
| SchemaMeaning.RewriteIsExact | scripts/generate_schema.py:30-45 | rewriting one node keeps its type constraint for all values if and only if its own `type`, if any, is wide enough and null passed the `anyOf` |
| SchemaMeaning.NarrowSiblingTypeIsLost | scripts/generate_schema.py:43-45 | a concrete schema that refuses null before the conversion and accepts it after |
| SchemaMeaning.MeaningKept | scripts/generate_schema.py:57-75 | main result: for every clean schema, every value and every bound on references, the converted schema accepts the value if and only if the original does, at every depth |
| ToolCalls.ToolCallReporter.Begin | src/acp/tool_call_reporter.py:75-92 | sends the start message unless it was sent |
| ToolCalls.ToolCallReporter.Store | src/acp/tool_call_reporter.py:166-193 | content and locations given are appended, or replace what was there; the message goes behind the content; the other fields given are replaced |
| ToolCalls.ToolCallReporter.Update | src/acp/tool_call_reporter.py:139-203 | starts if needed, stores the update, then sends all fields |
| ToolCalls.ToolCallReporter.Complete | src/acp/tool_call_reporter.py:205-212 | the status is completed and the message goes behind the content |
| ToolCalls.ToolCallReporter.Fail | src/acp/tool_call_reporter.py:214-221 | the status is failed and the error goes behind the content |
| ToolCalls.ToolCallReporter.Exit | src/acp/tool_call_reporter.py:228-238 | failed with the text of the exception; otherwise completed, unless the status is final |
| ToolCalls.ToolCallState.Begin | src/acp/tool_call_state.py:93-109 | sends the start message unless it was sent |
| ToolCalls.ToolCallState.Update | src/acp/tool_call_state.py:111-161 | the messages sent hold only the given, non-empty fields; nothing is sent if there are none |
| ToolCalls.ToolCallState.Complete | src/acp/tool_call_state.py:163-177 | an update to completed with the given fields |
| ToolCallViews.UpdateTracks | src/acp/agent/notifications.py:205-238 | after one update the client's fields equal the reporter's, except for locations that became empty |
| ToolCallViews.ReporterIsMirrored | src/acp/tool_call_reporter.py:163-203 | for every run the client's view equals the reporter's fields; its locations do if and only if the updates leave some locations or none were ever given |
| ToolCallViews.StaleLocations | src/acp/tool_call_reporter.py:176-203 | a concrete update after which the client shows a location that the reporter no longer has |
| ToolCallViews.StartIsSentOnce | src/acp/tool_call_reporter.py:75-92 | the start message is sent exactly once, before every progress message |
| ToolCallViews.BlockEndsFinal | src/acp/tool_call_reporter.py:223-238 | after a block the client shows a final status, unless the reporter was created with a final status and never updated |
| ToolCallViews.HasContentIffSent | src/acp/tool_call_state.py:69-72 | `has_content` holds exactly if some update of the run carried content |
| ToolCallViews.StepAgrees | src/acp/agent/notifications.py:240-280 | one replacing update keeps both views equal apart from content, and says what content each shows |
| ToolCallViews.DeltaAgreesWithFullState | src/acp/tool_call_state.py:138-161 | main result: the view folded from deltas equals the view folded from full states if and only if the updates do not end by clearing content |
| ToolCallViews.ClearedContentDiffers | src/acp/tool_call_state.py:148-150 | concrete updates after which the two views differ |
| ToolCallRuns.FieldsAfterRun | src/acp/tool_call_reporter.py:163-190 | main result: after any run title, status, kind and output are those given last; content is what was given from the last replacement on, each message directly behind the content of its update, with the initial content in front if nothing replaced it; locations likewise |
| ToolCallRuns.ClientSeesRun | src/acp/tool_call_reporter.py:163-203 | main result: after any run the client shows these fields, with strings as text blocks; its locations are those after the last update that left some |
| ToolCallRuns.ClientSeesDeltas | src/acp/tool_call_state.py:110-161 | after any run of `ToolCallState` the client shows every field as given last, where empty lists give nothing |
| ToolCallRuns.BlockShows | src/acp/tool_call_reporter.py:223-238 | a block shows the client the run of its updates and one more for leaving it, if any; a block without updates shows the initial fields as pending |
| ToolCallRuns.BlockEndsWith | src/acp/tool_call_reporter.py:227-238 | after a block the client shows failed, and the text of the exception behind all content, if there was one; otherwise completed, the final status given last, or pending if there was no update and the status was final from the start |
| Graph.BuildSequentialEdges | src/wolfharness_config/graph_translation.py:259-278 | the edges are the chain from start through the steps to end |
| Graph.TranslateTeam | src/wolfharness_config/graph_translation.py:56-96 | the graph of a team |
| Graph.TranslateConnections | src/wolfharness_config/graph_translation.py:113-152 | exactly one edge per node connection, in agent order (their fields: `GraphConnections.AgentEdgesTranslate`) |
| Graph.AddConnectedAgents | src/wolfharness_config/graph_translation.py:220-232 | adds a step for each agent with connections that is not in the graph |
| Graph.MergeTeams | src/wolfharness_config/graph_translation.py:237-246 | the graphs of the teams follow in order; the first team names an unnamed graph |
| Graph.TranslateConfig | src/wolfharness_config/graph_translation.py:181-256 | existing steps, edges and joins are a prefix of the result; the result is None exactly if there are no steps and no edges |
| GraphMeaning.ReachesIffPath | src/wolfharness_config/graph_translation.py:259-278 | for every sequential team, the values that reach end are the pipelines along the paths from start to end |
| GraphMeaning.SequentialGraphIsPipeline | src/wolfharness_config/graph_translation.py:70-96 | main result: for all agents, the members in order, each on the output of the one before, reach end; and nothing else does if no member is named twice |
| GraphMeaning.OnlyPipelineIffDistinct | src/wolfharness_config/graph_translation.py:70-96 | the pipeline is all that can reach end if and only if no member is named twice |
| GraphMeaning.ShortcutReaches | src/wolfharness_config/graph_translation.py:269-273 | if two positions name the same member, the pipeline without the part in between reaches end as well |
| GraphMeaning.RepeatedMemberSkips | src/wolfharness_config/graph_translation.py:269-273 | a concrete team of a repeated pair: the first output also reaches end |
| GraphMeaning.SequentialPathIsUnique | src/wolfharness_config/graph_translation.py:259-278 | the only path from start to end is the chain |
| GraphMeaning.ParallelGraphJoinsAll | src/wolfharness_config/graph_translation.py:281-298 | every member gets the start input and nothing else; what reaches end is exactly the join of all outputs, in member order |
| GraphMeaning.ParallelMembersAreApart | src/wolfharness_config/graph_translation.py:281-298 | no path leads from member to member |
| GraphMeaning.UnifiedGraphKeepsTeams | src/wolfharness_config/graph_translation.py:181-256 | with agents, connections and a given graph whose edges run their targets, also with conditions and transforms: if teams share no members with one another or with the rest, the unified graph delivers to end exactly what it delivers without the teams and what the graphs of the teams deliver |
| GraphMeaning.TeamsAloneDeliver | src/wolfharness_config/graph_translation.py:237-256 | the unified graph of teams alone delivers to end exactly what the graphs of the teams deliver |
| GraphMeaning.GivenPartsStay | src/wolfharness_config/graph_translation.py:205-215 | the steps, edges and joins that were given come first and unchanged |
| GraphConnections.AgentEdgesTranslate | src/wolfharness_config/graph_translation.py:127-150 | the edges of agents are exactly the translations of their node connections: source, target, filter, stop condition and transform are those of the connection, and absent fields mean mode run, not async and priority 0 |
| GraphConnections.EdgesKeepOrder | src/wolfharness_config/graph_translation.py:127-150 | the edges of an agent are its node connections, one for each and in order |
| GraphConnections.TranslatedDelivers | src/wolfharness/talk/talk.py:249-274 | for every sequence of outputs, the edge delivers what the connection delivers: up to the first output on which the stop condition holds, the transformed ones that the filter accepts |
| GraphConnections.ConnectionsDeliver | src/wolfharness_config/graph_translation.py:127-150 | main result: in the unified graph of any agents, teams and given graph, what arrives at a node is exactly what the connections to it deliver of the outputs of their agents, and what given edges and teams carry to it |
| GraphConnections.StepsOfMembers | src/wolfharness_config/graph_translation.py:70-86 | the k-th step of a team runs the k-th member, with the prompt, timeout and servers of the team and the prompt template given last for that member |
| GraphConnections.StepsOfAgents | src/wolfharness_config/graph_translation.py:220-232 | the steps added for agents are exactly those of the agents with connections that have none, and run these agents with their servers |
| GraphMeaning.KnownIffProvided | src/wolfharness_config/graph_translation.py:220-256 | the ids that edges may name are the reserved ones, the given steps, agents with connections, and team members |
| GraphMeaning.DanglesIffTargetUnknown | src/wolfharness_config/graph_translation.py:220-256 | no edge dangles if and only if every connection target is reserved, a given step, an agent with connections, or a team member |
| GraphMeaning.UnconnectedTargetDangles | src/wolfharness_config/graph_translation.py:223-232 | a concrete connection that leaves a dangling edge |
| GraphMeaning.UniqueIffMembersAreNew | src/wolfharness_config/graph_translation.py:220-256 | step ids are unique if and only if the members are distinct from one another, from the given steps and from connected agents |
| ConfigContext.Runtime.Get | src/wolfharness_config/context.py:56-58 | in consistent stores it is the ContextVar, which `ReadsInnermost` shows to be the innermost directory; it is None only if both stores are empty |
| ConfigContext.ConfigContextManager.Enter | src/wolfharness_config/context.py:92-106 | with a directory both stores hold it and the manager has saved what they held; without one nothing changes |
| ConfigContext.ConfigContextManager.Exit | src/wolfharness_config/context.py:108-120 | the ContextVar gets what the token saved, if there is one; the global is assigned even if nothing was saved |
| ConfigContext.ReadsInnermost | src/wolfharness_config/context.py:92-120 | from any consistent stores every well-nested program, also with exceptions, reads the innermost directory and leaves the ContextVar as it was; the global is None or equal to it |
| ConfigContext.WellNestedProgramsReadInnermost | src/wolfharness_config/context.py:33-58 | main result: every read gives the innermost open context that has a path, and None outside of all |
| ConfigContext.StoresDrift | src/wolfharness_config/context.py:115-120 | a context without a path makes the two stores differ |
| Bisect.BisectCI | src/wolfharness/testing.py:536-582 | on any oracle: an adjacent pair, tested good and tested bad unless a given end; no commit is tested twice, the bad end never, and steps are at most ceil(log2 n) |
| Bisect.PassedMeansGood | src/wolfharness/testing.py:172-178 | a commit is good if and only if each of its four checks succeeded or was skipped |
| Bisect.CeilLog2IsLeast | src/wolfharness/testing.py:546-570 | the bound is the least k with 2^k at least n |
| Bisect.MonotoneBoundaryIsFirstBad | src/wolfharness/testing.py:572-574 | on a monotone oracle the boundary is the least bad commit |
| Migration.Database.AddColumns | migrations/versions/a1b2c3d4e5f6_merge_session_into_conversation.py:38-70 | only missing columns are added, with their defaults in every row |
| Migration.Database.Upgrade | migrations/versions/a1b2c3d4e5f6_merge_session_into_conversation.py:33-122 | the state afterwards is the upgrade of the state before |
| Migration.Database.DropColumns | migrations/versions/a1b2c3d4e5f6_merge_session_into_conversation.py:169-175 | drops the columns if all exist and fails otherwise |
| Migration.Database.Downgrade | migrations/versions/a1b2c3d4e5f6_merge_session_into_conversation.py:125-175 | succeeds exactly if there is no session table and all indexes and columns exist; then the sessions are the conversations with a pool, project or cwd that is not NULL, and the state is the downgrade of the state before |
| MigrationMeaning.UpgradeKeepsRows | migrations/versions/a1b2c3d4e5f6_merge_session_into_conversation.py:92-119 | the ids afterwards are the union of both tables; matched rows take the seven fields, unmatched ones keep theirs, and new columns hold NULL, the version "1" |
| MigrationMeaning.UpgradeAddsSessions | migrations/versions/a1b2c3d4e5f6_merge_session_into_conversation.py:68-122 | a session without a conversation becomes one with its name, creation time and fields, no title and no counts; the session table is gone, all columns exist and four have an index |
| MigrationMeaning.TotalsAreConserved | migrations/versions/a1b2c3d4e5f6_merge_session_into_conversation.py:108-119 | neither direction changes the sum of tokens or of cost |
| MigrationMeaning.DowngradeRecreates | migrations/versions/a1b2c3d4e5f6_merge_session_into_conversation.py:153-162 | after upgrade and downgrade a session of the old table is there if and only if its pool, project or cwd is not NULL, any other id if and only if its conversation had one of these; an old one has its seven fields and the name, title and time of its conversation, or its own without the title |
| MigrationMeaning.InUseOfSession | migrations/versions/a1b2c3d4e5f6_merge_session_into_conversation.py:157-160 | every session has the three columns, and counts if and only if one of them is not NULL |
| MigrationMeaning.SessionsComeBackExactlyIf | migrations/versions/a1b2c3d4e5f6_merge_session_into_conversation.py:153-162 | the whole session table comes back if and only if every session has one of the three and its other fields agree with its conversation, and no other conversation has one of the three (as is the case if the upgrade added the columns) |
| MigrationMeaning.BareSessionIsLost | migrations/versions/a1b2c3d4e5f6_merge_session_into_conversation.py:157-160 | a concrete session that does not come back |
| MigrationMeaning.ConversationsComeBack | migrations/versions/a1b2c3d4e5f6_merge_session_into_conversation.py:164-175 | the old conversations come back without the seven fields; the table is the same if and only if every session had a conversation and no conversation had any of the columns before the upgrade |
| MigrationMeaning.DowngradeDropsColumns | migrations/versions/a1b2c3d4e5f6_merge_session_into_conversation.py:164-175 | no column and none of the four indexes is left |
| MigrationMeaning.UpgradeTwice | migrations/versions/a1b2c3d4e5f6_merge_session_into_conversation.py:68-90 | a second upgrade changes nothing |
| Frontmatter.WriteFile | scripts/add_frontmatter.py:116-139 | the text written is that of the printer |
| Frontmatter.ReadFile | scripts/add_frontmatter.py:88-113 | the map and body are those of the parser |
| Frontmatter.FindFenceIsFirst | scripts/add_frontmatter.py:97-102 | the split finds the first fence |
| FrontmatterMeaning.WrittenText | scripts/add_frontmatter.py:116-139 | the text of a file: one line for each entry between fences, with strings in double quotes, then the content on a line of its own; without entries the content alone |
| FrontmatterMeaning.LineIsRead | scripts/add_frontmatter.py:103-111 | a line reads as its key and value, whether the value is bare or in quotes of either kind |
| FrontmatterMeaning.LastLineCounts | scripts/add_frontmatter.py:103-111 | a further line adds its key or replaces its value; a line without a colon is ignored |
| FrontmatterMeaning.LineEndsAreNormalized | scripts/add_frontmatter.py:88-96 | both kinds of line ends with a carriage return are read as one newline |
| FrontmatterMeaning.BodyComesBackOnlyIfPlain | scripts/add_frontmatter.py:135-139 | whatever the entries, a body that comes back is non-empty, does not start with a newline and has no carriage return |
| FrontmatterMeaning.RoundTripExactlyIf | scripts/add_frontmatter.py:88-139 | main result: reading what was written gives the same map and body if and only if keys are trimmed, one-line and colon-free, values are one-line strings without quotes at the ends, and the body is plain |
| FrontmatterMeaning.EmptyBodyIsLost | scripts/add_frontmatter.py:133-139 | one entry and an empty body: reading does not give them back |
| FrontmatterMeaning.ContentAloneExactlyIf | scripts/add_frontmatter.py:122-124 | without frontmatter the content comes back if and only if it has no carriage return and does not look like frontmatter |
| KbIndex.UriForIsInjective | examples/kb_mcp_server_example.py:121-129 | files below a namespace have different URIs |
| KbIndex.UriIsPath | examples/kb_mcp_server_example.py:121-129 | the URI of a file is its path behind the scheme, with a slash at the end if it is in no namespace directory |
| KbIndex.KbServer.RemoveResource | examples/kb_mcp_server_example.py:238-250 | the provider no longer lists the resource, also if it did not before |
| KbIndex.KbServer.RemoveStale | examples/kb_mcp_server_example.py:284-288 | what the first scan did not see is removed from both sets, and the flag says whether there was any |
| KbIndex.KbServer.SyncStaticResources | examples/kb_mcp_server_example.py:274-309 | the registered set and the flag for any two scans, also when a file vanishes and the method raises; the provider always lists what is registered |
| KbIndex.KbServer.ScanOnce | examples/kb_mcp_server_example.py:212-219 | one turn of the loop: a change is announced exactly if the synchronisation returned true |
| KbIndex.FirstStumble | examples/kb_mcp_server_example.py:289-306 | the first file of the second scan that has to be added and vanished |
| KbIndex.EndsBetweenTheScans | examples/kb_mcp_server_example.py:283-309 | if the directory changes from F1 to F2 between the scans, the registered set ends between F2 and the union of both; it is F2 and what was registered of F1 |
| KbIndex.FlagMeansChange | examples/kb_mcp_server_example.py:283-309 | the flag is true if and only if the set changed or a resource was removed and added again |
| KbIndex.RaisesIffANewFileVanished | examples/kb_mcp_server_example.py:284-306 | it raises if and only if some file of the second scan vanished whose resource was not both registered and seen by the first scan |
| KbIndex.Converges | examples/kb_mcp_server_example.py:274-309 | from any set: with a directory that stands still the index equals the directory, the flag is true exactly if the set changed, and a repetition returns false, whatever vanishes then |
| KbIndex.RaisingScanLeavesUpToDate | examples/kb_mcp_server_example.py:212-219 | clients know the list after a scan that raises if and only if, when they knew it before: what it passed was registered before, and what it removed it had added again; when they did not: it removed all they were not told of, and passed what they were told and that was missing or removed, and nothing else |
| KbIndex.UpToDateExactlyIf | examples/kb_mcp_server_example.py:212-219 | in every run of the scan loop clients know the registered list if and only if the last scan that did anything did not raise, or raised and met that condition on the sets before it and on what it saw |
| KbIndex.MissLasts | examples/kb_mcp_server_example.py:212-219 | while the directory stands still a missed change is never announced |
| KbIndex.RemovalIsNotAnnounced | examples/kb_mcp_server_example.py:285-304 | a concrete scan that removes a resource and raises |

## Left out

- Sockets, subprocesses, `websockets`, Starlette, uvicorn and the event loop: only nondeterministic steps remain of them.
- UTF-8 and the JSON codec: text stands for bytes, and an encoder is any function whose output decodes back and is one line in braces.
- Observers, logging, `DebuggingMessageStateStore` and the records of incoming messages: no effect on the protocol state.
- Connection.Connection.Send: the future on which the sending task waits is not an object of its own. When the caller of a request is done is `Rpc.CallerReturned`; tasks that send notifications or replies wait as long as their message is queued, which by `Interleavings.NeverReturns` is forever once the sender loop has ended.
- After the write of a reply raised, `_run_request` hands one more error reply to the sender, whose loop has ended: it stays in the queue and is not modelled. Part of a payload that was written before a write raised is not modelled either.
- Interleavings.CompletesIffHandlersAreSilent: the tasks of notification handlers and observers, which `close()` also cancels and awaits, are taken to end. Nothing cancels the task that awaits `close()`; doing so would cancel what it waits for.
- The error callback of the receive loop runs in the same step as the end of the loop; in the code it runs a moment later.
- `ValidationError` and other handler errors: the text of the error is a parameter.
- `run_notification`: what the handler of a notification does has no effect on the protocol.
- Heartbeat.Run: the delays of a ping result cover sending the ping and waiting for the pong, and times are exact reals.
- SchemaMeaning.MeaningKept: keywords other than the listed ones are arbitrary conditions on their value and the instance, so that a schema is clean only if the conversion does not rewrite such a value; `patternProperties`, `if` and `dependentSchemas` are among them, and references are `#/$defs/<name>`.
- SchemaInPlace.Convert: requires a tree in which no `anyOf` is a number, a boolean or null, on which `len` raises.
- `deferred_start` and `ToolCallState.fail`: the latter formats the error text differently.
- `member_retry_attempts`, `member_retry_delay` and `wait_for_completion`: the translation drops them, although the header of `graph_translation.py` says that the retry fields are kept.
- GraphMeaning.UnifiedGraphKeepsTeams: modes other than `run` (an edge with one of them does not run its target) and explicit joins have no meaning here; and teams with a member that the rest of the graph mentions are not covered.
- GraphConnections.ConnectionsDeliver: says what can arrive; when a stop condition ends a connection for good is `TranslatedDelivers`. Exit conditions, queues and delays of connections are not translated, and conditions that depend on more than the value are not modelled.
- `translate_teams_to_graphs` and `build_steps_from_agents`: plain maps over what is modelled.
- Concurrent tasks that share the config global: the nesting theorem is for one thread of control.
- git and GitHub around `bisect_ci`: the commit list and the oracle are parameters.
- Migration.Database.Downgrade: what is left behind when a statement fails half way is not specified, except when `CREATE TABLE` fails.
- The foreign file system behind `_kbs_files`, MIME types, and the URI normalisation of FastMCP.
- Collecting frontmatter from Python files (`main` of add_frontmatter.py): it would only add a driver.
