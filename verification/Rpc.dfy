/** One endpoint of a JSON-RPC connection: its messages, its state and its atomic steps. A
    step is what the event loop runs between two suspension points. */
module Rpc {
  import opened Lists
  import opened Options

  /** A JSON value, kept as its encoded text. */
  type Json = string

  const JSON_NULL: Json := "null"

  /** The `error` object of a response; a field is `None` when its key is absent. */
  datatype ErrorObject = ErrorObject(code: Option<int>, message: Option<string>, data: Option<Json>)

  datatype Message =
    | Request(id: nat, name: string, params: Json)
    | Notification(name: string, params: Json)
    | Response(id: nat, result: Option<Json>, error: Option<ErrorObject>)

  /** How an awaited request can fail. */
  datatype Failure = RequestError(code: int, message: string, data: Json) | ConnectionLost

  /** The future of a request, which `send_request` awaits once its payload is written. Every
      state but `Waiting` is final. */
  datatype Future = Waiting | Resolved(value: Json) | Rejected(failure: Failure) | Cancelled

  /** Where a call of `send_request` stands: before or in one of its two awaits, left by an
      exception of the encoder or of the write, or left because its task was cancelled. */
  datatype Caller = Calling | Raised | Gone

  /** What a request handler did. `encodable` tells whether the payload that `_run_request`
      builds from it can be written as JSON. */
  datatype HandlerResult =
    | Returned(value: Json, encodable: bool)
    | RaisedRequestError(code: int, message: string, data: Json, encodable: bool)
    | RaisedValidationError(errors: Json, encodable: bool)
    | RaisedOther(text: Json, decoded: Option<Json>)
    | HandlerCancelled

  /** What the peer is told about a request: a result, an error, or nothing at all. */
  datatype Outcome = Success(value: Json) | Failed(code: int, message: string, data: Json) | Silent

  const INVALID_PARAMS := -32602
  const INTERNAL_ERROR := -32603

  /** `_run_request`. A result that cannot be encoded makes the first send raise; the error
      path then still carries that result, so its send raises too and nothing is sent. */
  function RunRequest(result: HandlerResult): Outcome {
    match result
    case Returned(v, encodable) => if encodable then Success(v) else Silent
    case RaisedRequestError(code, message, data, encodable) =>
      if encodable then Failed(code, message, data) else Silent
    case RaisedValidationError(errors, encodable) =>
      if encodable then Failed(INVALID_PARAMS, "Invalid params", "{\"errors\": " + errors + "}") else Silent
    case RaisedOther(text, decoded) =>
      Failed(INTERNAL_ERROR, "Internal error",
             match decoded case Some(d) => d case None => "{\"details\": " + text + "}")
    case HandlerCancelled => Silent
  }

  /** The response sent for an outcome; `to_error_obj` always writes all three fields. */
  function Reply(id: nat, outcome: Outcome): Option<Message> {
    match outcome
    case Success(v) => Some(Response(id, Some(v), None))
    case Failed(code, message, data) =>
      Some(Response(id, None, Some(ErrorObject(Some(code), Some(message), Some(data)))))
    case Silent => None
  }

  /** `_handle_response`: how a response settles the future it is for. */
  function Settlement(m: Message): Future
    requires m.Response?
  {
    if m.result.Some? then Resolved(m.result.value)
    else if m.error.Some? && m.error.value.code.Some? && m.error.value.message.Some? && m.error.value.data.Some? then
      var e := m.error.value;
      Rejected(RequestError(e.code.value,
                            if e.message.value == "" then "Error" else e.message.value,
                            e.data.value))
    else Resolved(JSON_NULL)
  }

  /** What the caller of `send_request` must see for what the handler did: its result, or an
      error with its code, its message (never empty) and its data. */
  predicate Shows(f: Future, result: HandlerResult) {
    match result
    case Returned(v, encodable) => encodable && f == Resolved(v)
    case RaisedRequestError(code, message, data, encodable) =>
      encodable && f == Rejected(RequestError(code, if message != "" then message else "Error", data))
    case RaisedValidationError(errors, encodable) =>
      encodable && f == Rejected(RequestError(-32602, "Invalid params", "{\"errors\": " + errors + "}"))
    case RaisedOther(text, decoded) =>
      f == Rejected(RequestError(-32603, "Internal error", decoded.Or("{\"details\": " + text + "}")))
    case HandlerCancelled => false
  }

  /** A response settled it. */
  predicate Answered(f: Future) {
    f.Resolved? || (f.Rejected? && f.failure.RequestError?)
  }

  /** Its caller was cancelled, or the connection was lost or closed. */
  predicate GivenUp(f: Future) {
    f.Cancelled? || (f.Rejected? && f.failure.ConnectionLost?)
  }

  /** The handler was cancelled, or what it gave cannot be written as JSON. */
  predicate CannotAnswer(result: HandlerResult) {
    result.HandlerCancelled? || (!result.RaisedOther? && !result.encodable)
  }

  /** A well-formed error response of section 5.1 of the JSON-RPC 2.0 specification: it has no
      result, and its error has a code and a message; `data` is optional. */
  predicate SpecError(m: Message) {
    m.Response? && m.result.None? && m.error.Some? && m.error.value.code.Some? && m.error.value.message.Some?
  }

  /** The receiver reports such an error as an error exactly when `data` is present; without
      it the request appears to have succeeded with `null`. */
  lemma ErrorSeenIffDataPresent(m: Message)
    requires SpecError(m)
    ensures Settlement(m).Rejected? <==> m.error.value.data.Some?
    ensures m.error.value.data.None? ==> Settlement(m) == Resolved(JSON_NULL)
  {
  }

  lemma ErrorWithoutDataSeemsSuccess()
    ensures var m := Response(0, None, Some(ErrorObject(Some(-32601), Some("Method not found"), None)));
            SpecError(m) && Settlement(m) == Resolved(JSON_NULL)
  {
  }

  /** What is sent for a handler run is a response as section 5 of the JSON-RPC 2.0 specification
      wants it: it has either a result or an error with a code, a message and data. */
  lemma RepliesAreWellFormed(id: nat, result: HandlerResult)
    ensures match Reply(id, RunRequest(result))
            case Some(m) =>
              && m.Response? && m.id == id && !CannotAnswer(result)
              && (result.Returned? ==> m.result == Some(result.value) && m.error == None)
              && (!result.Returned? ==> SpecError(m) && m.error.value.data.Some?)
            case None => CannotAnswer(result)
  {
  }

  /** A request as the caller issued it; `encodable` is false when encoding raised. */
  datatype Call = Call(name: string, params: Json, encodable: bool)

  type RequestMessage = m: Message | m.Request? witness Request(0, "", JSON_NULL)

  /** A handler run that ended. */
  datatype Served = Served(request: RequestMessage, result: HandlerResult)
  {
    function Told(): Outcome { RunRequest(result) }
  }

  /** How far `close()` has come; it awaits something in all phases but the first and the last
      two. */
  datatype ClosePhase =
    | Open
    | ReceiveCancelled    // awaits the receive loop
    | QueueClosed         // awaits the dispatcher
    | SenderClosing       // awaits the sender loop
    | HandlersCancelled   // awaits the handlers
    | TasksCancelled
    | CloseReturned

  /** The state of a `Connection`. In the two queues `None` is the stop sentinel; `failed` is
      the message whose write raised; `stuck` are the requests whose handlers answered their
      cancellation, so that their runners wait in the sender. The last five fields are history:
      the calls made, all messages handed to the sender, all messages the receive loop
      processed, the handler runs that ended, and the notifications given to a handler. */
  datatype Endpoint = Endpoint(
    nextId: nat,
    futures: seq<Future>,
    callers: seq<Caller>,
    outgoing: map<nat, nat>,
    sendQueue: seq<Option<Message>>,
    failed: Option<Message>,
    senderDone: bool,
    receiveDone: bool,
    taskQueue: seq<Option<Message>>,
    dispatcherDone: bool,
    running: seq<RequestMessage>,
    stuck: seq<RequestMessage>,
    phase: ClosePhase,
    issued: seq<Call>,
    sent: seq<Message>,
    received: seq<Message>,
    served: seq<Served>,
    noticed: seq<Message>)

  const FRESH := Endpoint(0, [], [], map[], [], None, false, false, [], false, [], [], Open, [], [], [], [], [])

  /** The queue of tasks accepts requests and notifications. */
  predicate QueueOpen(e: Endpoint) { e.phase.Open? || e.phase.ReceiveCancelled? }

  /** The request with this number waits in a queue. */
  predicate Queued(q: seq<Option<Message>>, k: nat) {
    exists m | m in q :: m.Some? && m.value.Request? && m.value.id == k
  }

  /** A call of `send_request` is over: it raised, or it was cancelled, or both its awaits are
      done. */
  predicate CallerReturned(e: Endpoint, k: nat)
    requires k < |e.callers| == |e.futures|
  {
    !e.callers[k].Calling? || (!Queued(e.sendQueue, k) && !e.futures[k].Waiting?)
  }

  // ---- InMemoryMessageStateStore -------------------------------------------

  function Settle(futures: seq<Future>, k: nat, outcome: Future): seq<Future> {
    if k < |futures| && futures[k].Waiting? then futures[k := outcome] else futures
  }

  /** `resolve_outgoing` and `reject_outgoing`. */
  function Answer(e: Endpoint, id: nat, outcome: Future): Endpoint {
    if id in e.outgoing
    then e.(outgoing := e.outgoing - {id}, futures := Settle(e.futures, e.outgoing[id], outcome))
    else e
  }

  function SettleAll(futures: seq<Future>, which: set<nat>, outcome: Future): (r: seq<Future>)
    ensures |r| == |futures|
    ensures forall k | 0 <= k < |futures| ::
              r[k] == if k in which && futures[k].Waiting? then outcome else futures[k]
  {
    seq(|futures|, k requires 0 <= k < |futures| =>
      if k in which && futures[k].Waiting? then outcome else futures[k])
  }

  /** `reject_all_outgoing`. */
  function RejectAll(e: Endpoint): Endpoint {
    e.(futures := SettleAll(e.futures, e.outgoing.Values, Rejected(ConnectionLost)), outgoing := map[])
  }

  // ---- Steps ---------------------------------------------------------------

  function Enqueue(e: Endpoint, m: Message): Endpoint {
    e.(sendQueue := e.sendQueue + [Some(m)], sent := e.sent + [m])
  }

  /** `send_request` up to its first await. It does not look at the closed flag. */
  function SendRequest(e: Endpoint, c: Call): Endpoint {
    var e' := e.(nextId := e.nextId + 1,
                 futures := e.futures + [Waiting],
                 callers := e.callers + [if c.encodable then Calling else Raised],
                 outgoing := e.outgoing[e.nextId := |e.futures|],
                 issued := e.issued + [c]);
    if c.encodable then Enqueue(e', Request(e.nextId, c.name, c.params)) else e'
  }

  /** `_process_message`. Publishing on a closed queue raises, which ends the receive loop. */
  function Process(e: Endpoint, m: Message): Endpoint {
    var e' := e.(received := e.received + [m]);
    if m.Response? then Answer(e', m.id, Settlement(m))
    else if QueueOpen(e) then e'.(taskQueue := e.taskQueue + [Some(m)])
    else e'.(receiveDone := true)
  }

  /** One turn of the dispatcher loop. What the handler of a notification does has no effect on
      the protocol. */
  function Dispatch(e: Endpoint): Endpoint {
    if e.dispatcherDone || e.taskQueue == [] then e
    else
      var e' := e.(taskQueue := e.taskQueue[1..]);
      match e.taskQueue[0]
      case None => e'.(dispatcherDone := true)
      case Some(m) =>
        if m.Request? then e'.(running := e.running + [m]) else e'.(noticed := e.noticed + [m])
  }

  /** The `k`-th running handler ends. Its runner then waits until the reply is written; a
      runner that waits there when `shutdown` cancels it ends, but one that comes there after
      its cancellation is not cancelled again. */
  function Finish(e: Endpoint, k: nat, result: HandlerResult): Endpoint {
    if k >= |e.running| then e
    else
      var request := e.running[k];
      var e' := e.(running := e.running[..k] + e.running[k + 1..],
                   served := e.served + [Served(request, result)]);
      match Reply(request.id, RunRequest(result))
      case Some(m) =>
        if e.phase.HandlersCancelled? then Enqueue(e', m).(stuck := e.stuck + [request]) else Enqueue(e', m)
      case None => e'
  }

  /** The writer raises: so does the `send` of the message, and the sender loop ends. */
  function WriterFails(e: Endpoint): Endpoint {
    if e.senderDone || e.sendQueue == [] || e.sendQueue[0].None? then e
    else
      var m := e.sendQueue[0].value;
      e.(senderDone := true,
         failed := Some(m),
         sendQueue := e.sendQueue[1..],
         callers := if m.Request? && m.id < |e.callers| && e.callers[m.id].Calling?
                    then e.callers[m.id := Raised] else e.callers)
  }

  /** The task that awaits `send_request` is cancelled: this cancels the future of its first
      await, or that of the request in its second. */
  function CancelCaller(e: Endpoint, k: nat): Endpoint {
    if k >= |e.callers| || !e.callers[k].Calling? then e
    else
      e.(callers := e.callers[k := Gone],
         futures := if Queued(e.sendQueue, k) then e.futures else Settle(e.futures, k, Cancelled))
  }

  /** A call of `close()`: only the first one does anything; it cancels the receive loop, which
      ends in a later step. */
  function BeginClose(e: Endpoint): Endpoint {
    if e.phase.Open? then e.(phase := ReceiveCancelled) else e
  }

  /** The rest of the first `close()`, from one of its awaits to the next; a part that awaits
      a task runs only once that task is done. */
  function ContinueClose(e: Endpoint): Endpoint {
    match e.phase
    case Open => e
    case ReceiveCancelled =>
      if e.receiveDone then e.(phase := QueueClosed, taskQueue := e.taskQueue + [None]) else e
    case QueueClosed =>
      if e.dispatcherDone then e.(phase := SenderClosing, sendQueue := e.sendQueue + [None]) else e
    case SenderClosing => if e.senderDone then e.(phase := HandlersCancelled) else e
    case HandlersCancelled => if e.running == [] && e.stuck == [] then e.(phase := TasksCancelled) else e
    case TasksCancelled => RejectAll(e).(phase := CloseReturned)
    case CloseReturned => e
  }

  datatype Action =
    | DoSendRequest(call: Call)
    | DoSendNotification(name: string, params: Json, encodable: bool)
    | DoTransmit                       // the sender loop writes or stops
    | DoWriterFails                    // the write of the next message raises
    | DoReceive                        // the receive loop processes a message
    | DoReceiveEnds(error: bool)       // end of stream, or the loop fails
    | DoDispatch
    | DoFinish(k: nat, result: HandlerResult)
    | DoCancelCaller(k: nat)           // whoever awaits a request is cancelled
    | DoBeginClose
    | DoContinueClose

  /** An endpoint with the stream it reads and the stream it writes. */
  datatype Local = Local(e: Endpoint, inbound: seq<Message>, outbound: seq<Message>)

  /** One action; an action that is not enabled changes nothing. */
  function Act(l: Local, a: Action): Local {
    var e := l.e;
    match a
    case DoSendRequest(c) => l.(e := SendRequest(e, c))
    case DoSendNotification(name, params, encodable) =>
      if encodable then l.(e := Enqueue(e, Notification(name, params))) else l
    case DoTransmit =>
      if e.senderDone || e.sendQueue == [] then l
      else if e.sendQueue[0].None? then l.(e := e.(senderDone := true, sendQueue := e.sendQueue[1..]))
      else Local(e.(sendQueue := e.sendQueue[1..]), l.inbound, l.outbound + [e.sendQueue[0].value])
    case DoWriterFails => l.(e := WriterFails(e))
    case DoReceive =>
      if e.receiveDone || l.inbound == [] then l
      else l.(e := Process(e, l.inbound[0]), inbound := l.inbound[1..])
    case DoReceiveEnds(error) =>
      if e.receiveDone then l
      else l.(e := (if error then RejectAll(e) else e).(receiveDone := true))
    case DoDispatch => l.(e := Dispatch(e))
    case DoFinish(k, result) => l.(e := Finish(e, k, result))
    case DoCancelCaller(k) => l.(e := CancelCaller(e, k))
    case DoBeginClose => l.(e := BeginClose(e))
    case DoContinueClose => l.(e := ContinueClose(e))
  }
}
