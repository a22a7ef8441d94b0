/** Two endpoints joined by one FIFO stream per direction. A run is any sequence of actions of
    either endpoint, so the theorems hold for every interleaving. */
module Protocol {
  import opened Lists
  import opened Rpc
  import opened Options

  // ---- Views of the histories ----------------------------------------------

  function RequestOf(m: Message): seq<Message> { if m.Request? then [m] else [] }

  function NotificationOf(m: Message): seq<Message> { if m.Notification? then [m] else [] }

  function ResponseOf(m: Message): seq<Message> { if m.Response? then [m] else [] }

  function ItemOf(slot: Option<Message>): seq<Message> { if slot.Some? then [slot.value] else [] }

  function ReplyOf(s: Served): seq<Message> { ItemOf(Reply(s.request.id, s.Told())) }

  function RunOf(s: Served): seq<Message> { [s.request] }

  /** The messages of a queue, without the stop sentinels. */
  function Items(q: seq<Option<Message>>): seq<Message> { FlatMap(ItemOf, q) }

  /** The requests that a caller's encodable calls put on the wire, numbered from 0. */
  function SentCalls(issued: seq<Call>): seq<Message> {
    if issued == [] then [] else SentCalls(Init(issued)) + CallMessage(|issued| - 1, Last(issued))
  }

  function CallMessage(id: nat, c: Call): seq<Message> {
    if c.encodable then [Request(id, c.name, c.params)] else []
  }

  lemma {:induction false} SentCallMembers(issued: seq<Call>, m: Message)
    ensures m in SentCalls(issued) <==>
            m.Request? && m.id < |issued| && issued[m.id] == Call(m.name, m.params, true)
    ensures multiset(SentCalls(issued))[m] <= 1
  {
    if issued != [] {
      SentCallMembers(Init(issued), m);
      assert m.Request? && m.id < |issued| - 1 ==> Init(issued)[m.id] == issued[m.id];
    }
  }

  // ---- What every action of one endpoint keeps --------------------------------

  /** A future that is done has a cause; one that is not is still registered. */
  ghost predicate Justified(f: Future, i: nat, outgoing: map<nat, nat>, received: seq<Message>) {
    match f
    case Waiting => i in outgoing
    case Cancelled => true
    case Rejected(ConnectionLost) => true
    case _ => exists m | m in received :: m.Response? && m.id == i && f == Settlement(m)
  }

  ghost predicate Numbered(e: Endpoint) {
    && e.nextId == |e.issued| == |e.futures| == |e.callers|
    && (forall i | i in e.outgoing :: i < e.nextId && e.outgoing[i] == i)
    && (forall i: nat | i < |e.futures| :: Justified(e.futures[i], i, e.outgoing, e.received))
  }

  /** The sent history holds exactly the encodable calls and the replies of handler runs. */
  ghost predicate Spoken(sent: seq<Message>, issued: seq<Call>, served: seq<Served>) {
    FlatMap(RequestOf, sent) == SentCalls(issued) && FlatMap(ResponseOf, sent) == FlatMap(ReplyOf, served)
  }

  /** Every request received is queued, running or served, exactly as often as it came. */
  ghost predicate Tracked(received: seq<Message>, tasks: seq<Message>, running: seq<Message>, served: seq<Served>) {
    multiset(FlatMap(RequestOf, received)) ==
      multiset(FlatMap(RequestOf, tasks)) + multiset(running) + multiset(FlatMap(RunOf, served))
  }

  /** Every notification received was given to a handler or is queued, in the order in which
      they came. */
  ghost predicate Noticed(received: seq<Message>, tasks: seq<Message>, noticed: seq<Message>) {
    && FlatMap(NotificationOf, received) == noticed + FlatMap(NotificationOf, tasks)
    && forall m | m in tasks :: !m.Response?
  }

  ghost predicate Accounted(e: Endpoint) {
    && Spoken(e.sent, e.issued, e.served)
    && Tracked(e.received, Items(e.taskQueue), e.running, e.served)
    && Noticed(e.received, Items(e.taskQueue), e.noticed)
  }

  /** `close()` has come to its last parts, in which the sender and the handlers end. */
  predicate ClosesSender(e: Endpoint) { !QueueOpen(e) && !e.phase.QueueClosed? }

  /** How the loops, the queues and the handlers stand while `close()` runs. */
  ghost predicate Lifecycle(e: Endpoint) {
    && (!e.receiveDone ==> QueueOpen(e))
    && (QueueOpen(e) ==> !e.dispatcherDone && None !in e.taskQueue)
    && (!QueueOpen(e) && !e.dispatcherDone ==> None in e.taskQueue)
    && (forall k | 0 <= k < |e.taskQueue| - 1 :: e.taskQueue[k].Some?)
    && (e.dispatcherDone ==> e.taskQueue == [])
    && (e.failed.Some? ==> e.senderDone)
    && (ClosesSender(e) ==> e.dispatcherDone && (e.senderDone || (e.phase.SenderClosing? && None in e.sendQueue)))
    && (!ClosesSender(e) ==> None !in e.sendQueue)
    && (e.phase.TasksCancelled? || e.phase.CloseReturned? ==> e.running == [])
    && (e.stuck != [] ==> e.phase.HandlersCancelled?)
  }

  ghost predicate RequestAt(q: seq<Option<Message>>, i: nat) { i < |q| && q[i].Some? && q[i].value.Request? }

  /** Requests wait to be sent in the order of their numbers, which are below `n`. */
  ghost predicate Ascending(q: seq<Option<Message>>, n: nat) {
    && (forall i: nat | RequestAt(q, i) :: q[i].value.id < n)
    && (forall i: nat, j: nat | i < j && RequestAt(q, i) && RequestAt(q, j) :: q[i].value.id < q[j].value.id)
  }

  /** How the callers of `send_request` stand. A call that cannot be encoded has raised; one
      that raised has nothing in the queue; and once `close()` has returned, a request that is
      still to be settled has never left the queue. */
  ghost predicate Called(e: Endpoint) {
    && |e.callers| == |e.issued| == |e.futures| == e.nextId
    && Ascending(e.sendQueue, e.nextId)
    && (forall k: nat | k < |e.issued| && !e.issued[k].encodable :: e.callers[k].Raised?)
    && (forall k: nat | k < |e.issued| && e.callers[k].Raised? :: !Queued(e.sendQueue, k))
    && (e.phase.CloseReturned? ==>
          forall k: nat | k < |e.issued| && e.futures[k].Waiting? && e.issued[k].encodable :: Queued(e.sendQueue, k))
  }

  ghost predicate Inv(e: Endpoint) {
    Numbered(e) && Accounted(e) && Lifecycle(e) && Called(e)
  }

  lemma FreshInv()
    ensures Inv(FRESH)
  {
  }

  // ---- Futures ------------------------------------------------------------------

  lemma RejectAllKeepsNumbered(e: Endpoint)
    requires Numbered(e)
    ensures Numbered(RejectAll(e))
    ensures forall i: nat | i < |e.futures| :: !RejectAll(e).futures[i].Waiting?
  {
    var e' := RejectAll(e);
    forall i: nat | i < |e.futures|
      ensures !e'.futures[i].Waiting? && Justified(e'.futures[i], i, e'.outgoing, e'.received)
    {
      assert Justified(e.futures[i], i, e.outgoing, e.received);
      if e.futures[i].Waiting? {
        assert e.outgoing[i] in e.outgoing.Values;
      }
    }
  }

  /** Processing a response settles the future it is for and no other. */
  lemma ProcessKeepsNumbered(e: Endpoint, m: Message)
    requires Numbered(e)
    ensures Numbered(Process(e, m))
  {
    if m.Response? && m.id in e.outgoing {
      AnswerKeepsNumbered(e, m);
    } else {
      var e' := Process(e, m);
      assert e' == e.(received := e'.received, taskQueue := e'.taskQueue, receiveDone := e'.receiveDone);
      assert e'.received == e.received + [m];
      hide Process, Justified;
      forall i: nat | i < |e.futures|
        ensures Justified(e'.futures[i], i, e'.outgoing, e'.received)
      {
        JustifiedLater(e.futures[i], i, e.outgoing, e.received, m);
      }
    }
  }

  lemma AnswerKeepsNumbered(e: Endpoint, m: Message)
    requires Numbered(e) && m.Response? && m.id in e.outgoing
    ensures Numbered(Process(e, m))
  {
    var i, f, e' := m.id, Settlement(m), Process(e, m);
    assert e' == e.(received := e.received + [m], outgoing := e.outgoing - {i}, futures := Settle(e.futures, i, f));
    SettlementSettles(m);
    hide Process, Settlement;
    assert m in e'.received;
    forall j: nat | j < |e.futures|
      ensures Justified(e'.futures[j], j, e'.outgoing, e'.received)
    {
      JustifiedLater(e.futures[j], j, e.outgoing, e.received, m);
    }
  }

  lemma JustifiedLater(f: Future, i: nat, outgoing: map<nat, nat>, received: seq<Message>, m: Message)
    requires Justified(f, i, outgoing, received)
    ensures Justified(f, i, outgoing, received + [m])
  {
    assert forall x | x in received :: x in received + [m];
  }

  lemma SettlementSettles(m: Message)
    ensures m.Response? ==> !Settlement(m).Cancelled? && !Settlement(m).Waiting?
  {
  }

  lemma SendRequestKeepsNumbered(e: Endpoint, c: Call)
    requires Numbered(e)
    ensures Numbered(SendRequest(e, c))
  {
    var e' := SendRequest(e, c);
    forall i: nat | i < |e'.futures|
      ensures Justified(e'.futures[i], i, e'.outgoing, e'.received)
    {
      assert i < |e.futures| ==> Justified(e.futures[i], i, e.outgoing, e.received);
    }
  }

  /** What neither issues, nor processes, nor rejects leaves the numbering alone. */
  lemma FrameKeepsNumbered(e: Endpoint, e': Endpoint, k: nat)
    requires Numbered(e)
    requires e'.nextId == e.nextId && e'.issued == e.issued && e'.outgoing == e.outgoing && e'.received == e.received
    requires e'.futures == e.futures || e'.futures == Settle(e.futures, k, Cancelled)
    requires |e'.callers| == |e.callers|
    ensures Numbered(e')
  {
    forall i: nat | i < |e'.futures|
      ensures Justified(e'.futures[i], i, e'.outgoing, e'.received)
    {
      assert Justified(e.futures[i], i, e.outgoing, e.received);
    }
  }

  /** Handlers, the dispatcher and the sender do not touch requests and their futures. */
  ghost predicate SameRequests(e: Endpoint, e': Endpoint) {
    && e'.nextId == e.nextId && e'.issued == e.issued && e'.received == e.received
    && e'.futures == e.futures && e'.outgoing == e.outgoing && e'.callers == e.callers
  }

  lemma DispatchFrame(e: Endpoint)
    ensures SameRequests(e, Dispatch(e))
    ensures Dispatch(e).sendQueue == e.sendQueue && Dispatch(e).phase == e.phase
  {
  }

  lemma FinishFrame(e: Endpoint, k: nat, result: HandlerResult)
    ensures SameRequests(e, Finish(e, k, result))
  {
    hide RunRequest, Reply;
  }

  lemma CloseFrame(e: Endpoint)
    ensures !e.phase.TasksCancelled? ==> SameRequests(e, ContinueClose(e))
    ensures e.phase.TasksCancelled? ==> SameRequests(RejectAll(e), ContinueClose(e))
  {
    hide FlatMap, SettleAll;
  }

  lemma ActKeepsNumbered(l: Local, a: Action)
    requires Numbered(l.e)
    ensures Numbered(Act(l, a).e)
  {
    hide Numbered, SettleAll, Dispatch, Finish, ContinueClose;
    var e, e' := l.e, Act(l, a).e;
    match a
    case DoSendRequest(c) => SendRequestKeepsNumbered(e, c);
    case DoReceive =>
      if !e.receiveDone && l.inbound != [] {
        ProcessKeepsNumbered(e, l.inbound[0]);
      }
    case DoReceiveEnds(error) =>
      RejectAllKeepsNumbered(e);
      var e0 := if error then RejectAll(e) else e;
      FrameKeepsNumbered(e0, e0.(receiveDone := true), 0);
    case DoContinueClose =>
      CloseFrame(e);
      RejectAllKeepsNumbered(e);
      FrameKeepsNumbered(if e.phase.TasksCancelled? then RejectAll(e) else e, e', 0);
    case DoCancelCaller(k) => FrameKeepsNumbered(e, e', k);
    case DoFinish(k, result) =>
      FinishFrame(e, k, result);
      FrameKeepsNumbered(e, e', 0);
    case DoDispatch =>
      DispatchFrame(e);
      FrameKeepsNumbered(e, e', 0);
    case _ => FrameKeepsNumbered(e, e', 0);
  }

  // ---- Accounting -------------------------------------------------------------

  lemma CallSpoken(sent: seq<Message>, issued: seq<Call>, served: seq<Served>, c: Call)
    requires Spoken(sent, issued, served)
    ensures Spoken(sent + CallMessage(|issued|, c), issued + [c], served)
  {
    var more := CallMessage(|issued|, c);
    assert Init(issued + [c]) == issued;
    FlatMapAppend(RequestOf, sent, more);
    FlatMapAppend(ResponseOf, sent, more);
    FlatMapOne(RequestOf, Request(|issued|, c.name, c.params));
    FlatMapOne(ResponseOf, Request(|issued|, c.name, c.params));
  }

  lemma NotificationSpoken(sent: seq<Message>, issued: seq<Call>, served: seq<Served>, m: Message)
    requires Spoken(sent, issued, served) && m.Notification?
    ensures Spoken(sent + [m], issued, served)
  {
    FlatMapSnoc(RequestOf, sent, m);
    FlatMapSnoc(ResponseOf, sent, m);
  }

  lemma ServedSpoken(sent: seq<Message>, issued: seq<Call>, served: seq<Served>, s: Served)
    requires Spoken(sent, issued, served)
    ensures Spoken(sent + ReplyOf(s), issued, served + [s])
  {
    FlatMapSnoc(ReplyOf, served, s);
    FlatMapAppend(RequestOf, sent, ReplyOf(s));
    FlatMapAppend(ResponseOf, sent, ReplyOf(s));
    if ReplyOf(s) != [] {
      FlatMapOne(RequestOf, ReplyOf(s)[0]);
      FlatMapOne(ResponseOf, ReplyOf(s)[0]);
    }
  }

  lemma ReceivedTracked(received: seq<Message>, tasks: seq<Message>, running: seq<Message>, served: seq<Served>,
      m: Message)
    requires Tracked(received, tasks, running, served)
    ensures m.Response? ==> Tracked(received + [m], tasks, running, served)
    ensures !m.Response? ==> Tracked(received + [m], tasks + [m], running, served)
  {
    FlatMapSnoc(RequestOf, received, m);
    FlatMapSnoc(RequestOf, tasks, m);
    hide FlatMap;
  }

  lemma ReceivedNoticed(received: seq<Message>, tasks: seq<Message>, noticed: seq<Message>, m: Message)
    requires Noticed(received, tasks, noticed)
    ensures m.Response? ==> Noticed(received + [m], tasks, noticed)
    ensures !m.Response? ==> Noticed(received + [m], tasks + [m], noticed)
  {
    FlatMapSnoc(NotificationOf, received, m);
    FlatMapSnoc(NotificationOf, tasks, m);
    hide FlatMap;
  }

  lemma DispatchNoticed(received: seq<Message>, tasks: seq<Message>, noticed: seq<Message>)
    requires Noticed(received, tasks, noticed) && tasks != []
    ensures Noticed(received, tasks[1..], noticed + NotificationOf(tasks[0]))
    ensures tasks[0].Request? || tasks[0].Notification?
  {
    hide NotificationOf;
    var m, rest := tasks[0], FlatMap(NotificationOf, tasks[1..]);
    assert FlatMap(NotificationOf, tasks) == NotificationOf(m) + rest;
    hide FlatMap;
    assert noticed + (NotificationOf(m) + rest) == (noticed + NotificationOf(m)) + rest;
    assert m in tasks && forall x | x in tasks[1..] :: x in tasks;
  }

  lemma DispatchTracked(received: seq<Message>, tasks: seq<Message>, running: seq<Message>, served: seq<Served>)
    requires Tracked(received, tasks, running, served) && tasks != []
    ensures Tracked(received, tasks[1..], running + RequestOf(tasks[0]), served)
  {
    assert FlatMap(RequestOf, tasks) == RequestOf(tasks[0]) + FlatMap(RequestOf, tasks[1..]);
    hide FlatMap, RequestOf;
  }

  lemma FinishTracked(received: seq<Message>, tasks: seq<Message>, running: seq<RequestMessage>, served: seq<Served>,
                      k: nat, result: HandlerResult)
    requires Tracked(received, tasks, running, served) && k < |running|
    ensures Tracked(received, tasks, running[..k] + running[k + 1..], served + [Served(running[k], result)])
  {
    FlatMapSnoc(RunOf, served, Served(running[k], result));
    TakeOut(running, k);
    hide FlatMap, RequestOf;
  }

  lemma TakeOut(running: seq<Message>, k: nat)
    requires k < |running|
    ensures multiset(running) == multiset(running[..k] + running[k + 1..]) + multiset([running[k]])
  {
    assert running == running[..k] + [running[k]] + running[k + 1..];
  }

  lemma SendAccounted(e: Endpoint, c: Call, m: Message)
    requires Accounted(e) && e.nextId == |e.issued| && m.Notification?
    ensures Accounted(SendRequest(e, c)) && Accounted(Enqueue(e, m))
  {
    CallSpoken(e.sent, e.issued, e.served, c);
    NotificationSpoken(e.sent, e.issued, e.served, m);
    hide Spoken, Tracked, Noticed;
    assert e.sent + [] == e.sent;
  }

  lemma ProcessAccounted(e: Endpoint, m: Message)
    requires Accounted(e) && QueueOpen(e)
    ensures Accounted(Process(e, m))
  {
    hide Spoken, Tracked, Noticed, FlatMap, Settlement, Settle;
    FlatMapSnoc(ItemOf, e.taskQueue, Some(m));
    assert Items(e.taskQueue + [Some(m)]) == Items(e.taskQueue) + [m];
    hide Items;
    ReceivedTracked(e.received, Items(e.taskQueue), e.running, e.served, m);
    ReceivedNoticed(e.received, Items(e.taskQueue), e.noticed, m);
  }

  lemma DispatchAccounted(e: Endpoint)
    requires Accounted(e)
    ensures Accounted(Dispatch(e))
  {
    hide Spoken, Tracked, Noticed, FlatMap;
    if !e.dispatcherDone && e.taskQueue != [] {
      ItemsHead(e.taskQueue);
      hide Items;
      if e.taskQueue[0].Some? {
        DispatchTracked(e.received, Items(e.taskQueue), e.running, e.served);
        DispatchNoticed(e.received, Items(e.taskQueue), e.noticed);
        assert e.running + [] == e.running && e.noticed + [] == e.noticed;
      }
    }
  }

  lemma ItemsHead(q: seq<Option<Message>>)
    requires q != []
    ensures q[0].Some? ==> Items(q) != [] && Items(q)[0] == q[0].value && Items(q)[1..] == Items(q[1..])
    ensures q[0].None? ==> Items(q) == Items(q[1..])
  {
    assert Items(q) == ItemOf(q[0]) + Items(q[1..]);
  }

  lemma FinishAccounted(e: Endpoint, k: nat, result: HandlerResult)
    requires Accounted(e)
    ensures Accounted(Finish(e, k, result))
  {
    hide Spoken, Tracked, Noticed, FlatMap, Items, RunRequest, Reply;
    if k < |e.running| {
      FinishTracked(e.received, Items(e.taskQueue), e.running, e.served, k, result);
      ServedSpoken(e.sent, e.issued, e.served, Served(e.running[k], result));
      assert e.sent + [] == e.sent;
    }
  }

  lemma ContinueCloseAccounted(e: Endpoint)
    requires Accounted(e)
    ensures Accounted(ContinueClose(e))
  {
    hide Spoken, Tracked, Noticed, FlatMap, SettleAll;
    if e.phase.ReceiveCancelled? && e.receiveDone {
      FlatMapSnoc(ItemOf, e.taskQueue, None);
      assert Items(e.taskQueue + [None]) == Items(e.taskQueue) + [] == Items(e.taskQueue);
    } else {
      FrameAccounted(e, ContinueClose(e));
    }
  }

  /** Accounting looks only at the histories, the handlers and the queued tasks. */
  lemma FrameAccounted(e: Endpoint, e': Endpoint)
    requires Accounted(e)
    requires e'.sent == e.sent && e'.issued == e.issued && e'.served == e.served && e'.received == e.received
    requires e'.running == e.running && e'.taskQueue == e.taskQueue && e'.noticed == e.noticed
    ensures Accounted(e')
  {
  }

  lemma ActKeepsAccounted(l: Local, a: Action)
    requires Accounted(l.e) && l.e.nextId == |l.e.issued| && (!l.e.receiveDone ==> QueueOpen(l.e))
    ensures Accounted(Act(l, a).e)
  {
    hide Accounted, SendRequest, Process, Finish, Dispatch, ContinueClose;
    var e := l.e;
    match a
    case DoSendRequest(c) => SendAccounted(e, c, Notification("", ""));
    case DoSendNotification(name, params, _) => SendAccounted(e, Call("", "", false), Notification(name, params));
    case DoReceive =>
      if !e.receiveDone && l.inbound != [] {
        ProcessAccounted(e, l.inbound[0]);
      }
    case DoDispatch => DispatchAccounted(e);
    case DoFinish(k, result) => FinishAccounted(e, k, result);
    case DoContinueClose => ContinueCloseAccounted(e);
    case _ => FrameAccounted(e, Act(l, a).e);
  }

  // ---- Lifecycle ----------------------------------------------------------------

  /** Lifecycle looks only at the phase, the queues, the handlers and the ends of the loops. */
  lemma FrameLifecycle(e: Endpoint, e': Endpoint)
    requires Lifecycle(e)
    requires e'.phase == e.phase && e'.taskQueue == e.taskQueue && e'.dispatcherDone == e.dispatcherDone
    requires e.receiveDone ==> e'.receiveDone
    requires e.senderDone ==> e'.senderDone
    requires e'.failed == e.failed || e'.senderDone
    requires None in e'.sendQueue ==> None in e.sendQueue
    requires None in e.sendQueue ==> None in e'.sendQueue || e'.senderDone
    requires e'.running == e.running || e.running != []
    requires e'.stuck == e.stuck || e.phase.HandlersCancelled?
    ensures Lifecycle(e')
  {
  }

  lemma DispatchKeepsLifecycle(e: Endpoint)
    requires Lifecycle(e)
    ensures Lifecycle(Dispatch(e))
  {
    if e.taskQueue != [] {
      assert e.taskQueue == [e.taskQueue[0]] + e.taskQueue[1..];
    }
  }

  lemma ProcessKeepsLifecycle(e: Endpoint, m: Message)
    requires Lifecycle(e) && !e.receiveDone
    ensures Lifecycle(Process(e, m))
  {
  }

  lemma CloseKeepsLifecycle(e: Endpoint)
    requires Lifecycle(e)
    ensures Lifecycle(BeginClose(e)) && Lifecycle(ContinueClose(e))
  {
  }

  lemma FinishKeepsLifecycle(e: Endpoint, k: nat, result: HandlerResult)
    requires Lifecycle(e)
    ensures Lifecycle(Finish(e, k, result))
  {
    hide Lifecycle, RunRequest, Reply;
    FrameLifecycle(e, Finish(e, k, result));
  }

  lemma ActKeepsLifecycle(l: Local, a: Action)
    requires Lifecycle(l.e)
    ensures Lifecycle(Act(l, a).e)
  {
    hide Lifecycle, Settle, SettleAll, Process, Dispatch, Finish, ContinueClose;
    var e, e' := l.e, Act(l, a).e;
    match a
    case DoReceive =>
      if !e.receiveDone && l.inbound != [] {
        ProcessKeepsLifecycle(e, l.inbound[0]);
      }
    case DoDispatch => DispatchKeepsLifecycle(e);
    case DoFinish(k, result) => FinishKeepsLifecycle(e, k, result);
    case DoBeginClose => CloseKeepsLifecycle(e);
    case DoContinueClose => CloseKeepsLifecycle(e);
    case _ => FrameLifecycle(e, e');
  }

  // ---- The callers of send_request -------------------------------------------------

  /** The head of the queue leaves it; if it was a request, it is in no other place. */
  lemma QueueShrinks(q: seq<Option<Message>>, n: nat, k: nat)
    requires Ascending(q, n) && q != []
    ensures Ascending(q[1..], n)
    ensures Queued(q[1..], k) ==> Queued(q, k)
    ensures RequestAt(q, 0) && q[0].value.id == k ==> !Queued(q[1..], k)
  {
    assert forall i: nat | RequestAt(q[1..], i) :: RequestAt(q, i + 1);
    if Queued(q[1..], k) {
      var m :| m in q[1..] && m.Some? && m.value.Request? && m.value.id == k;
      var i: nat :| i < |q[1..]| && q[1..][i] == m;
      assert RequestAt(q, i + 1);
    }
  }

  lemma QueueGrows(q: seq<Option<Message>>, n: nat, item: Option<Message>, k: nat)
    requires Ascending(q, n)
    requires item.Some? && item.value.Request? ==> item.value.id == n
    ensures Ascending(q + [item], n + 1)
    ensures !(item.Some? && item.value.Request?) ==> Ascending(q + [item], n)
    ensures Queued(q + [item], k) <==> Queued(q, k) || (item.Some? && item.value.Request? && n == k)
  {
    assert forall i: nat | RequestAt(q + [item], i) && i < |q| :: RequestAt(q, i);
    assert (q + [item])[|q|] == item;
    assert forall m | m in q :: m in q + [item];
    assert item in q + [item];
  }

  lemma QueuedNumber(q: seq<Option<Message>>, n: nat, k: nat)
    requires Ascending(q, n) && Queued(q, k)
    ensures k < n
  {
    var m :| m in q && m.Some? && m.value.Request? && m.value.id == k;
    var i: nat :| i < |q| && q[i] == m;
    assert RequestAt(q, i);
  }

  /** What leaves the queue alone, and settles futures or ends callers, keeps the calls. */
  lemma FrameCalled(e: Endpoint, e': Endpoint)
    requires Called(e)
    requires e'.nextId == e.nextId && e'.issued == e.issued && e'.sendQueue == e.sendQueue
    requires |e'.futures| == |e.futures| && |e'.callers| == |e.callers|
    requires forall k: nat | k < |e.futures| && e'.futures[k].Waiting? :: e.futures[k].Waiting?
    requires forall k: nat | k < |e.callers| ::
              e'.callers[k] == e.callers[k] || (e.callers[k].Calling? && e'.callers[k].Gone?)
    requires e'.phase.CloseReturned? ==>
               e.phase.CloseReturned? || forall k: nat | k < |e.futures| :: !e'.futures[k].Waiting?
    ensures Called(e')
  {
  }

  /** An item that is no request joins the queue. */
  lemma JoinsKeepsCalled(e: Endpoint, e': Endpoint, item: Option<Message>)
    requires Called(e) && !(item.Some? && item.value.Request?)
    requires e'.nextId == e.nextId && e'.issued == e.issued && e'.futures == e.futures && e'.callers == e.callers
    requires e'.phase.CloseReturned? == e.phase.CloseReturned?
    requires e'.sendQueue == e.sendQueue + [item]
    ensures Called(e')
  {
    hide Ascending, Queued;
    forall k: nat ensures Queued(e'.sendQueue, k) <==> Queued(e.sendQueue, k) {
      QueueGrows(e.sendQueue, e.nextId, item, k);
    }
    QueueGrows(e.sendQueue, e.nextId, item, 0);
  }

  lemma SendRequestKeepsCalled(e: Endpoint, c: Call)
    requires Called(e)
    ensures Called(SendRequest(e, c))
  {
    hide Ascending, Queued;
    var e', m := SendRequest(e, c), Request(e.nextId, c.name, c.params);
    forall k: nat
      ensures Queued(e'.sendQueue, k) <==> Queued(e.sendQueue, k) || (c.encodable && k == e.nextId)
    {
      QueueGrows(e.sendQueue, e.nextId, Some(m), k);
    }
    QueueGrows(e.sendQueue, e.nextId, if c.encodable then Some(m) else None, 0);
    AscendingBelow(e.sendQueue, e.nextId);
    forall k: nat | Queued(e.sendQueue, k) ensures k < e.nextId {
      QueuedNumber(e.sendQueue, e.nextId, k);
    }
  }

  lemma AscendingBelow(q: seq<Option<Message>>, n: nat)
    requires Ascending(q, n)
    ensures Ascending(q, n + 1)
  {
  }

  lemma TakeKeepsCalled(e: Endpoint, e': Endpoint)
    requires Called(e) && e.sendQueue != [] && !e.phase.CloseReturned?
    requires e'.nextId == e.nextId && e'.issued == e.issued && e'.futures == e.futures && e'.phase == e.phase
    requires e'.sendQueue == e.sendQueue[1..] && |e'.callers| == |e.callers|
    requires forall k: nat | k < |e.callers| && e'.callers[k] != e.callers[k] ::
               RequestAt(e.sendQueue, 0) && e.sendQueue[0].value.id == k && e'.callers[k].Raised?
    ensures Called(e')
  {
    hide Ascending, Queued;
    forall k: nat | k < |e.issued| && e'.callers[k].Raised?
      ensures !Queued(e'.sendQueue, k)
    {
      QueueShrinks(e.sendQueue, e.nextId, k);
    }
    QueueShrinks(e.sendQueue, e.nextId, 0);
  }

  /** Facts about the callers and the sender that the steps below need. */
  lemma CalledFacts(e: Endpoint)
    requires Called(e) && Lifecycle(e)
    ensures e.phase.CloseReturned? ==> e.senderDone
    ensures |e.callers| == |e.futures|
  {
  }

  /** What a finished handler, a closed task queue or a stopped sender adds is no request. */
  lemma WorkerKeepsCalled(e: Endpoint, e': Endpoint, item: Option<Message>)
    requires Called(e) && SameRequests(e, e') && !(item.Some? && item.value.Request?)
    requires e'.phase.CloseReturned? == e.phase.CloseReturned?
    requires e'.sendQueue == e.sendQueue || e'.sendQueue == e.sendQueue + [item]
    ensures Called(e')
  {
    hide Called;
    if e'.sendQueue == e.sendQueue {
      FrameCalled(e, e');
    } else {
      JoinsKeepsCalled(e, e', item);
    }
  }

  lemma FinishKeepsCalled(e: Endpoint, k: nat, result: HandlerResult)
    requires Called(e)
    ensures Called(Finish(e, k, result))
  {
    hide Called, RunRequest;
    FinishFrame(e, k, result);
    if k < |e.running| {
      ReplyIsNoRequest(e.running[k].id, RunRequest(result));
      hide Reply, SameRequests;
      WorkerKeepsCalled(e, Finish(e, k, result), Reply(e.running[k].id, RunRequest(result)));
    }
  }

  lemma ReplyIsNoRequest(id: nat, outcome: Outcome)
    ensures var m := Reply(id, outcome); m.Some? ==> m.value.Response?
  {
  }

  lemma CloseKeepsCalled(e: Endpoint)
    requires Called(e) && Numbered(e)
    ensures Called(ContinueClose(e))
  {
    hide Called, Numbered, SettleAll;
    var e' := ContinueClose(e);
    if e.phase.TasksCancelled? {
      RejectAllKeepsNumbered(e);
      FrameCalled(e, e');
    } else {
      CloseFrame(e);
      hide SameRequests;
      WorkerKeepsCalled(e, e', None);
    }
  }

  lemma ProcessKeepsCalled(e: Endpoint, m: Message)
    requires Called(e)
    ensures Called(Process(e, m))
  {
    hide Settlement;
    assert |e.callers| == |e.futures|;
    hide Called;
    FrameCalled(e, Process(e, m));
  }

  lemma WriterFailsKeepsCalled(e: Endpoint)
    requires Called(e) && (e.phase.CloseReturned? ==> e.senderDone)
    ensures Called(WriterFails(e))
  {
    hide Called, Queued;
    if !e.senderDone && e.sendQueue != [] && e.sendQueue[0].Some? {
      TakeKeepsCalled(e, WriterFails(e));
    }
  }

  lemma ActKeepsCalled(l: Local, a: Action)
    requires Called(l.e) && Numbered(l.e) && Lifecycle(l.e)
    ensures Called(Act(l, a).e)
  {
    hide Called, Numbered, Lifecycle, SendRequest, WriterFails, Process, Dispatch, Finish, ContinueClose, Queued;
    var e, e' := l.e, Act(l, a).e;
    CalledFacts(e);
    match a
    case DoSendRequest(c) => SendRequestKeepsCalled(e, c);
    case DoTransmit =>
      if !e.senderDone && e.sendQueue != [] {
        TakeKeepsCalled(e, e');
      }
    case DoWriterFails => WriterFailsKeepsCalled(e);
    case DoSendNotification(name, params, encodable) =>
      if encodable {
        JoinsKeepsCalled(e, e', Some(Notification(name, params)));
      }
    case DoReceive =>
      if !e.receiveDone && l.inbound != [] {
        ProcessKeepsCalled(e, l.inbound[0]);
      }
    case DoFinish(k, result) => FinishKeepsCalled(e, k, result);
    case DoContinueClose => CloseKeepsCalled(e);
    case DoDispatch =>
      DispatchFrame(e);
      WorkerKeepsCalled(e, e', None);
    case _ => FrameCalled(e, e');
  }
}
