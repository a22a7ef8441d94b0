/** `Connection` and its state store as objects. Every method is one or more atomic steps of
    `Rpc`, so what `Interleavings` proves about the steps holds for these objects. */
module Connection {
  import opened Lists
  import opened Text
  import opened Rpc
  import F = Framing
  import opened Options

  /** `InMemoryMessageStateStore`: the pending table and the futures it handed out. */
  class StateStore {
    var outgoing: map<nat, nat>
    var futures: seq<Future>

    constructor ()
      ensures outgoing == map[] && futures == []
    {
      outgoing := map[];
      futures := [];
    }

    method RegisterOutgoing(id: nat) returns (future: nat)
      modifies this
      ensures future == |old(futures)| && futures == old(futures) + [Waiting]
      ensures outgoing == old(outgoing)[id := future]
    {
      future := |futures|;
      futures := futures + [Waiting];
      outgoing := outgoing[id := future];
    }

    /** `resolve_outgoing` and `reject_outgoing`: pop the record, settle its future if it is
        not done. */
    method Answer(id: nat, outcome: Future)
      modifies this
      ensures outgoing == old(outgoing) - {id}
      ensures futures == if id in old(outgoing) then Settle(old(futures), old(outgoing)[id], outcome) else old(futures)
    {
      if id in outgoing {
        var k := outgoing[id];
        outgoing := outgoing - {id};
        if k < |futures| && futures[k].Waiting? {
          futures := futures[k := outcome];
        }
      }
    }

    method RejectAllOutgoing()
      modifies this
      ensures outgoing == map[]
      ensures futures == SettleAll(old(futures), old(outgoing).Values, Rejected(ConnectionLost))
    {
      ghost var before := futures;
      var left := outgoing.Values;
      while left != {}
        invariant left <= old(outgoing).Values
        invariant futures == SettleAll(before, old(outgoing).Values - left, Rejected(ConnectionLost))
        invariant outgoing == old(outgoing)
      {
        var k :| k in left;
        if k < |futures| && futures[k].Waiting? {
          futures := futures[k := Rejected(ConnectionLost)];
        }
        left := left - {k};
      }
      outgoing := map[];
    }
  }

  /** All messages the receive loop processes, one after the other. */
  function ProcessAll(e: Endpoint, ms: seq<Message>): Endpoint {
    if ms == [] then e else Process(ProcessAll(e, Init(ms)), Last(ms))
  }

  function Decoded(line: string, decode: string -> Option<Message>): seq<Message> {
    match decode(line)
    case Some(m) => [m]
    case None => []
  }

  /** The messages in some lines; a line that does not decode is skipped. */
  function DecodedLines(lines: seq<string>, decode: string -> Option<Message>): seq<Message> {
    FlatMap((l: string) => Decoded(l, decode), lines)
  }

  lemma DecodedAppend(a: seq<string>, b: seq<string>, decode: string -> Option<Message>)
    ensures DecodedLines(a + b, decode) == DecodedLines(a, decode) + DecodedLines(b, decode)
  {
    FlatMapAppend((l: string) => Decoded(l, decode), a, b);
  }

  lemma DecodedSnoc(kept: seq<string>, line: string, decode: string -> Option<Message>)
    ensures DecodedLines(kept + [line], decode) == DecodedLines(kept, decode) + Decoded(line, decode)
  {
    FlatMapSnoc((l: string) => Decoded(l, decode), kept, line);
  }

  /** Every message is processed, in order. */
  lemma {:induction false} ProcessAllReceives(e: Endpoint, ms: seq<Message>)
    ensures ProcessAll(e, ms).received == e.received + ms
  {
    hide Settlement, Settle;
    if ms != [] {
      ProcessAllReceives(e, Init(ms));
      assert e.received + Init(ms) + [Last(ms)] == e.received + ms;
    }
  }

  lemma {:induction false} ProcessAllAppend(e: Endpoint, a: seq<Message>, b: seq<Message>)
    ensures ProcessAll(ProcessAll(e, a), b) == ProcessAll(e, a + b)
  {
    hide Process;
    if b == [] {
      assert a + b == a;
    } else {
      ProcessAllAppend(e, a, Init(b));
      assert Init(a + b) == a + Init(b) && Last(a + b) == Last(b);
    }
  }

  /** What the receive loop makes of some lines. */
  function AfterLines(e: Endpoint, lines: seq<string>, decode: string -> Option<Message>): Endpoint {
    ProcessAll(e, DecodedLines(F.Kept(lines), decode))
  }

  lemma AfterLinesSnoc(e: Endpoint, lines: seq<string>, line: string, decode: string -> Option<Message>)
    ensures AfterLines(e, lines + [line], decode) ==
            if F.Skipped(line) || decode(line).None? then AfterLines(e, lines, decode)
            else Process(AfterLines(e, lines, decode), decode(line).value)
  {
    hide Process;
    var kept := F.Kept(lines);
    var before := DecodedLines(kept, decode);
    FlatMapSnoc(F.KeptFor, lines, line);
    DecodedSnoc(kept, line, decode);
    assert before + [] == before && kept + [] == kept;
    if decode(line).Some? {
      assert Init(before + [decode(line).value]) == before;
    }
  }

  class Connection {
    const store: StateStore
    var nextRequestId: nat
    var callers: seq<Caller>
    var sendQueue: seq<Option<Message>>
    var senderDone: bool
    var receiveDone: bool
    var taskQueue: seq<Option<Message>>
    var dispatcherDone: bool
    var running: seq<RequestMessage>
    var stuck: seq<RequestMessage>
    var phase: ClosePhase
    ghost var failed: Option<Message>
    ghost var issued: seq<Call>
    ghost var sent: seq<Message>
    ghost var received: seq<Message>
    ghost var served: seq<Served>
    ghost var noticed: seq<Message>

    ghost function View(): Endpoint
      reads this, store
    {
      Endpoint(nextRequestId, store.futures, callers, store.outgoing, sendQueue, failed, senderDone, receiveDone,
               taskQueue, dispatcherDone, running, stuck, phase, issued, sent, received, served, noticed)
    }

    constructor ()
      ensures View() == FRESH && fresh(store)
    {
      store := new StateStore();
      nextRequestId, callers := 0, [];
      sendQueue, senderDone, receiveDone := [], false, false;
      taskQueue, dispatcherDone, running, stuck, phase := [], false, [], [], Open;
      failed := None;
      issued, sent, received, served, noticed := [], [], [], [], [];
    }

    /** Up to the first await: the caller waits for the write, then for the future. */
    method SendRequest(name: string, params: Json, encodable: bool) returns (future: nat)
      modifies this, store
      ensures View() == Rpc.SendRequest(old(View()), Call(name, params, encodable))
      ensures future == |old(store.futures)| && store.futures[future] == Waiting
      ensures sendQueue == old(sendQueue) + if encodable then [Some(Request(old(nextRequestId), name, params))] else []
      ensures store.outgoing == old(store.outgoing)[old(nextRequestId) := future]
      ensures |old(callers)| == |old(store.futures)| ==>
                |callers| == |store.futures| && (CallerReturned(View(), future) <==> !encodable)
    {
      var id := nextRequestId;
      nextRequestId := nextRequestId + 1;
      future := store.RegisterOutgoing(id);
      issued := issued + [Call(name, params, encodable)];
      if encodable {
        callers := callers + [Calling];
        Send(Request(id, name, params));
      } else {
        callers := callers + [Raised];
      }
    }

    method SendNotification(name: string, params: Json, encodable: bool)
      modifies this
      ensures View() == Act(Local(old(View()), [], []), DoSendNotification(name, params, encodable)).e
      ensures encodable ==> sendQueue == old(sendQueue) + [Some(Notification(name, params))]
      ensures !encodable ==> View() == old(View())
    {
      if encodable {
        Send(Notification(name, params));
      }
    }

    /** `MessageSender.send` up to its await: whoever calls it waits until the message is
        written, and forever if it is left in the queue. */
    method Send(m: Message)
      modifies this
      ensures View() == Enqueue(old(View()), m)
      ensures sendQueue == old(sendQueue) + [Some(m)]
    {
      sendQueue := sendQueue + [Some(m)];
      sent := sent + [m];
    }

    method ProcessMessage(m: Message)
      modifies this, store
      ensures View() == Process(old(View()), m)
    {
      received := received + [m];
      match m {
        case Response(_, _, _) => HandleResponse(m);
        case _ =>
          if phase.Open? || phase.ReceiveCancelled? {
            taskQueue := taskQueue + [Some(m)];
          } else {
            receiveDone := true;
          }
      }
    }

    method HandleResponse(m: Message)
      requires m.Response?
      modifies store
      ensures View() == Rpc.Answer(old(View()), m.id, Settlement(m))
    {
      if m.result.Some? {
        store.Answer(m.id, Resolved(m.result.value));
      } else if m.error.Some? && m.error.value.code.Some? && m.error.value.message.Some? && m.error.value.data.Some? {
        var text := m.error.value.message.value;
        if text == "" {
          text := "Error";
        }
        store.Answer(m.id, Rejected(RequestError(m.error.value.code.value, text, m.error.value.data.value)));
      } else {
        store.Answer(m.id, Resolved(JSON_NULL));
      }
    }

    /** The lines of one chunk, in order. */
    method ProcessLines(lines: seq<string>, decode: string -> Option<Message>)
      requires phase.Open? || phase.ReceiveCancelled?
      modifies this, store
      ensures phase == old(phase)
      ensures View() == ProcessAll(old(View()), DecodedLines(F.Kept(lines), decode))
    {
      ghost var e0 := View();
      for j := 0 to |lines|
        invariant phase == e0.phase
        invariant View() == AfterLines(e0, lines[..j], decode)
      {
        var line := lines[j];
        AfterLinesSnoc(e0, lines[..j], line, decode);
        assert lines[..j + 1] == lines[..j] + [line];
        if line != "" && line != "null" {
          match decode(line) {
            case None =>
            case Some(m) =>
              ProcessMessage(m);
          }
        }
      }
      assert lines[..|lines|] == lines;
    }

    /** `_receive_loop` over the chunks that arrive: what it does depends on the joined text
        alone. By `Interleavings.PublishNeverRaises` the queue is open as long as it runs. */
    method ReceiveLoop(chunks: seq<string>, decode: string -> Option<Message>) returns (buffer: string)
      requires phase.Open? || phase.ReceiveCancelled?
      modifies this, store
      ensures var (lines, rest) := F.Feed("", Concat(chunks));
              && View() == ProcessAll(old(View()), DecodedLines(lines, decode)) && buffer == rest
              && received == old(received) + DecodedLines(lines, decode)
    {
      ghost var e0 := View();
      ghost var done: seq<string> := [];
      buffer := "";
      for i := 0 to |chunks|
        invariant phase == old(phase)
        invariant View() == ProcessAll(e0, DecodedLines(done, decode))
        invariant F.Lines("", chunks[..i]) == (done, buffer)
      {
        LinesSnoc("", chunks[..i], chunks[i]);
        assert chunks[..i + 1] == chunks[..i] + [chunks[i]];
        var pieces := Split(buffer + chunks[i], F.NEWLINE);
        ProcessLines(Init(pieces), decode);
        buffer := Last(pieces);
        ghost var more := F.Kept(Init(pieces));
        DecodedAppend(done, more, decode);
        ProcessAllAppend(e0, DecodedLines(done, decode), DecodedLines(more, decode));
        done := done + more;
      }
      assert chunks[..|chunks|] == chunks;
      F.LinesIgnoreChunking("", chunks);
      ProcessAllReceives(e0, DecodedLines(done, decode));
    }

    /** The `k`-th running handler ends and `_run_request` reports what it did. */
    method FinishRequest(k: nat, result: HandlerResult)
      requires k < |running|
      modifies this
      ensures View() == Finish(old(View()), k, result)
    {
      var request := running[k];
      running := running[..k] + running[k + 1..];
      served := served + [Served(request, result)];
      match Reply(request.id, RunRequest(result)) {
        case Some(m) =>
          Send(m);
          if phase.HandlersCancelled? {
            stuck := stuck + [request];
          }
        case None =>
      }
    }

    /** One turn of the dispatcher loop, which ends at the sentinel. */
    method DispatchOne()
      requires !dispatcherDone && taskQueue != []
      modifies this
      ensures View() == Dispatch(old(View()))
    {
      var item := taskQueue[0];
      taskQueue := taskQueue[1..];
      if item.None? {
        dispatcherDone := true;
      } else if item.value.Request? {
        running := running + [item.value];
      } else {
        noticed := noticed + [item.value];
      }
    }

    /** One turn of the sender loop: `written` is what goes to the stream. */
    method TransmitOne() returns (written: seq<Message>)
      requires !senderDone && sendQueue != []
      modifies this
      ensures Local(View(), [], written) == Act(Local(old(View()), [], []), DoTransmit)
    {
      var item := sendQueue[0];
      sendQueue := sendQueue[1..];
      if item.None? {
        senderDone := true;
        return [];
      }
      written := [item.value];
    }

    /** The same turn when the write raises: the sender of the message gets the exception. */
    method FailWrite()
      requires !senderDone && sendQueue != [] && sendQueue[0].Some?
      modifies this
      ensures View() == WriterFails(old(View()))
      ensures senderDone && sendQueue == old(sendQueue)[1..]
      ensures var m := old(sendQueue)[0].value;
              forall k | 0 <= k < |old(callers)| ::
                |callers| == |old(callers)| && callers[k] ==
                  if m.Request? && m.id == k && old(callers)[k].Calling? then Raised else old(callers)[k]
    {
      var m := sendQueue[0].value;
      sendQueue := sendQueue[1..];
      senderDone := true;
      failed := Some(m);
      if m.Request? && m.id < |callers| && callers[m.id].Calling? {
        callers := callers[m.id := Raised];
      }
    }

    /** The task that awaits request `k` is cancelled in one of its two awaits. */
    method CancelRequest(k: nat)
      requires k < |callers| && callers[k].Calling?
      modifies this, store
      ensures View() == CancelCaller(old(View()), k)
      ensures callers == old(callers)[k := Gone] && sendQueue == old(sendQueue)
      ensures k < |old(store.futures)| && old(store.futures)[k].Waiting? && !Queued(sendQueue, k) ==>
                store.futures == old(store.futures)[k := Cancelled]
    {
      callers := callers[k := Gone];
      if !Queued(sendQueue, k) && k < |store.futures| && store.futures[k].Waiting? {
        store.futures := store.futures[k := Cancelled];
      }
    }

    /** The end of the receive loop; on an error its callback rejects what is pending. */
    method EndReceive(error: bool)
      requires !receiveDone
      modifies this, store
      ensures Local(View(), [], []) == Act(Local(old(View()), [], []), DoReceiveEnds(error))
      ensures receiveDone && (error ==> store.outgoing == map[])
      ensures !error ==> store.futures == old(store.futures) && store.outgoing == old(store.outgoing)
    {
      receiveDone := true;
      if error {
        store.RejectAllOutgoing();
      }
    }

    /** A call of `close()`, up to the wait for the receive loop. */
    method Close()
      modifies this
      ensures View() == BeginClose(old(View()))
    {
      if !phase.Open? {
        return;
      }
      phase := ReceiveCancelled;
    }

    /** `dispatcher.stop()`, once the receive loop has ended: the queue is closed for good. */
    method StopDispatcher()
      requires phase.ReceiveCancelled? && receiveDone
      modifies this
      ensures View() == ContinueClose(old(View()))
    {
      taskQueue := taskQueue + [None];
      phase := QueueClosed;
    }

    /** `sender.close()`, once the dispatcher has drained its queue. */
    method CloseSender()
      requires phase.QueueClosed? && dispatcherDone
      modifies this
      ensures View() == ContinueClose(old(View()))
    {
      sendQueue := sendQueue + [None];
      phase := SenderClosing;
    }

    /** `tasks.shutdown()`, once the sender loop has ended: the handlers are cancelled, and end
        in their own way. */
    method Shutdown()
      requires phase.SenderClosing? && senderDone
      modifies this
      ensures View() == ContinueClose(old(View()))
      ensures running == old(running)
    {
      phase := HandlersCancelled;
    }

    /** The end of `tasks.shutdown()`, which waits for every handler and every runner. */
    method EndShutdown()
      requires phase.HandlersCancelled? && running == [] && stuck == []
      modifies this
      ensures View() == ContinueClose(old(View()))
    {
      phase := TasksCancelled;
    }

    method RejectPending()
      requires phase.TasksCancelled?
      modifies this, store
      ensures View() == ContinueClose(old(View()))
    {
      store.RejectAllOutgoing();
      phase := CloseReturned;
    }
  }

  lemma {:induction false} LinesSnoc(buffer: string, chunks: seq<string>, chunk: string)
    ensures var (lines, rest) := F.Lines(buffer, chunks);
            var (more, last) := F.Feed(rest, chunk);
            F.Lines(buffer, chunks + [chunk]) == (lines + more, last)
    decreases |chunks|
  {
    if chunks == [] {
      assert chunks + [chunk] == [chunk] && [chunk][1..] == [];
      var (more, last) := F.Feed(buffer, chunk);
      assert F.Lines(last, []) == ([], last);
      assert more + [] == [] + more;
    } else {
      var (first, mid) := F.Feed(buffer, chunks[0]);
      LinesSnoc(mid, chunks[1..], chunk);
      assert (chunks + [chunk])[1..] == chunks[1..] + [chunk];
      var (lines, rest) := F.Lines(mid, chunks[1..]);
      var (more, last) := F.Feed(rest, chunk);
      assert first + (lines + more) == (first + lines) + more;
    }
  }

  /** Payloads that decode back: an encoded message is the text of one JSON object. */
  ghost predicate Encodes(encode: Message -> string, decode: string -> Option<Message>) {
    forall m :: var text := encode(m);
      && decode(text) == Some(m)
      && F.NEWLINE !in text && |text| >= 2 && text[0] == '{' && Last(text) == '}'
  }

  /** The payloads of some messages. */
  function Payloads(ms: seq<Message>, encode: Message -> string): seq<string> {
    FlatMap((m: Message) => [encode(m)], ms)
  }

  /** Encoded messages are carried unchanged by both kinds of adapters, and decode back. */
  lemma PayloadsAreCarried(ms: seq<Message>, encode: Message -> string, decode: string -> Option<Message>)
    requires Encodes(encode, decode)
    ensures F.NewlineFree(Payloads(ms, encode))
    ensures forall p | p in Payloads(ms, encode) :: !F.Skipped(p) && Trimmed(p, IsSpace)
    ensures DecodedLines(Payloads(ms, encode), decode) == ms
  {
    var one, same := (m: Message) => [encode(m)], (m: Message) => [m];
    var back := (l: string) => Decoded(l, decode);
    forall p | p in Payloads(ms, encode)
      ensures F.NEWLINE !in p && !F.Skipped(p) && Trimmed(p, IsSpace)
    {
      FlatMapMember(one, ms, p);
    }
    forall m | m in ms ensures FlatMap(back, one(m)) == same(m) {
      FlatMapOne(back, encode(m));
    }
    FlatMapTwice(one, back, same, ms);
    FlatMapIdentity(same, ms);
  }

  /** The FIFO streams of `Interleavings` are what both kinds of transports provide: at any
      moment, however the bytes are read, the messages that arrived are the first ones sent, and
      they are all of them once everything is read. */
  lemma WireIsFifo(ms: seq<Message>, encode: Message -> string, decode: string -> Option<Message>, limits: seq<nat>,
                   messages: string -> seq<string>)
    requires Encodes(encode, decode) && messages in {F.WebSocketMessages, F.StarletteMessages}
    ensures var (lines, rest) := F.Transported(Payloads(ms, encode), messages, limits);
            && DecodedLines(lines, decode) <= ms
            && (F.ReadsEverything(FlatMap(messages, Payloads(ms, encode)), limits) ==>
                  DecodedLines(lines, decode) == ms && rest == "")
  {
    hide Encodes, FlatMap, F.Transported, F.ReadsEverything, Payloads, DecodedLines, F.Kept, F.Trimming;
    var payloads := Payloads(ms, encode);
    PayloadsAreCarried(ms, encode, decode);
    F.WebSocketKeeps(payloads);
    F.StarletteKeeps(payloads);
    F.LinesArriveInOrder(payloads, limits);
    var (lines, rest) := F.Transported(payloads, messages, limits);
    assert lines <= payloads;
    DecodedAppend(lines, payloads[|lines|..], decode);
    assert lines + payloads[|lines|..] == payloads;
    if F.ReadsEverything(FlatMap(messages, payloads), limits) {
      if messages == F.WebSocketMessages {
        F.WebSocketEndToEnd(payloads, limits);
      } else {
        F.StarletteEndToEnd(payloads, limits);
      }
    }
  }
}
