/** Every interleaving of two connected endpoints. */
module Interleavings {
  import opened Lists
  import opened Rpc
  import opened Protocol
  import opened Options

  datatype System = System(a: Endpoint, b: Endpoint, toB: seq<Message>, toA: seq<Message>)

  const START := System(FRESH, FRESH, [], [])

  function Swap(s: System): System {
    System(s.b, s.a, s.toA, s.toB)
  }

  function StepA(s: System, a: Action): System {
    var l := Act(Local(s.a, s.toA, s.toB), a);
    System(l.e, s.b, l.outbound, l.inbound)
  }

  /** An action of endpoint `a` or, when `onA` is false, of endpoint `b`. */
  function Step(s: System, onA: bool, a: Action): System {
    if onA then StepA(s, a) else Swap(StepA(Swap(s), a))
  }

  function Run(s: System, trace: seq<(bool, Action)>): System
    decreases |trace|
  {
    if trace == [] then s else Run(Step(s, trace[0].0, trace[0].1), trace[1..])
  }

  // ---- The streams ----------------------------------------------------------------

  /** What was handed to the sender and is not on the stream: what failed and what waits. */
  function Unsent(e: Endpoint): seq<Message> { ItemOf(e.failed) + Items(e.sendQueue) }

  /** What is written or unsent grows by exactly what was sent. */
  ghost predicate Writes(e: Endpoint, outbound: seq<Message>, e': Endpoint, outbound': seq<Message>) {
    e.sent <= e'.sent &&
    outbound' + Unsent(e') == outbound + Unsent(e) + e'.sent[|e.sent|..]
  }

  /** An item joins the send queue, and the message in it the history. */
  ghost predicate HandsOver(e: Endpoint, e': Endpoint, item: Option<Message>) {
    && e'.failed == e.failed
    && e'.sendQueue == e.sendQueue + [item] && e'.sent == e.sent + ItemOf(item)
  }

  ghost predicate SameSender(e: Endpoint, e': Endpoint) {
    e'.failed == e.failed && e'.sendQueue == e.sendQueue && e'.sent == e.sent
  }

  lemma HandingWrites(e: Endpoint, e': Endpoint, item: Option<Message>, outbound: seq<Message>)
    requires HandsOver(e, e', item) || SameSender(e, e')
    ensures Writes(e, outbound, e', outbound)
  {
    FlatMapSnoc(ItemOf, e.sendQueue, item);
    hide FlatMap, ItemOf;
  }

  lemma TransmitWrites(l: Local)
    requires l.e.failed.Some? ==> l.e.senderDone
    ensures var l' := Act(l, DoTransmit); Writes(l.e, l.outbound, l'.e, l'.outbound)
    ensures var l' := Act(l, DoWriterFails); Writes(l.e, l.outbound, l'.e, l'.outbound)
  {
    var e := l.e;
    hide FlatMap;
    if !e.senderDone && e.sendQueue != [] {
      ItemsHead(e.sendQueue);
      hide Items;
      if e.sendQueue[0].Some? {
        assert Items(e.sendQueue) == [e.sendQueue[0].value] + Items(e.sendQueue[1..]);
      }
    }
  }

  lemma FinishHandsOver(e: Endpoint, k: nat, result: HandlerResult)
    ensures var e', item := Finish(e, k, result),
                            if k < |e.running| then Reply(e.running[k].id, RunRequest(result)) else None;
            if item.Some? then HandsOver(e, e', item) else SameSender(e, e')
  {
    hide Reply, RunRequest;
  }

  lemma CloseHandsOver(e: Endpoint)
    ensures HandsOver(e, ContinueClose(e), None) || SameSender(e, ContinueClose(e))
  {
    hide SettleAll;
    assert e.sent == e.sent + [];
  }

  lemma SendHandsOver(e: Endpoint, c: Call)
    ensures var e' := SendRequest(e, c);
            HandsOver(e, e', Some(Request(e.nextId, c.name, c.params))) || SameSender(e, e')
  {
  }

  lemma ActWrites(l: Local, a: Action)
    requires l.e.failed.Some? ==> l.e.senderDone
    ensures var l' := Act(l, a); Writes(l.e, l.outbound, l'.e, l'.outbound)
  {
    hide Writes, HandsOver, SendRequest, Finish, ContinueClose, Settle, SettleAll, Settlement, Reply, RunRequest;
    var e, e' := l.e, Act(l, a).e;
    match a
    case DoTransmit => TransmitWrites(l);
    case DoWriterFails => TransmitWrites(l);
    case DoSendRequest(c) =>
      SendHandsOver(e, c);
      HandingWrites(e, e', Some(Request(e.nextId, c.name, c.params)), l.outbound);
    case DoSendNotification(name, params, encodable) =>
      var item := Some(Notification(name, params));
      assert HandsOver(e, Enqueue(e, item.value), item) by {
        EnqueueHandsOver(e, item.value);
      }
      HandingWrites(e, e', item, l.outbound);
    case DoFinish(k, result) =>
      FinishHandsOver(e, k, result);
      HandingWrites(e, e', if k < |e.running| then Reply(e.running[k].id, RunRequest(result)) else None, l.outbound);
    case DoContinueClose =>
      CloseHandsOver(e);
      HandingWrites(e, e', None, l.outbound);
    case _ => HandingWrites(e, e', None, l.outbound);
  }

  lemma EnqueueHandsOver(e: Endpoint, m: Message)
    ensures HandsOver(e, Enqueue(e, m), Some(m))
  {
  }

  /** Only the receive loop reads, and only it and a new request change what waits for an
      answer, other than by rejecting everything. */
  lemma OtherActsReadNothing(l: Local, a: Action)
    requires !a.DoReceive? && !a.DoSendRequest?
    ensures var l' := Act(l, a);
            && l'.e.received == l.e.received && l'.inbound == l.inbound
            && (l'.e.outgoing == l.e.outgoing || l'.e.outgoing == map[]) && l'.e.nextId == l.e.nextId
  {
    hide Settle, SettleAll, Dispatch, Finish, ContinueClose;
    CloseFrame(l.e);
    DispatchFrame(l.e);
    FinishFrame(l.e, if a.DoFinish? then a.k else 0, if a.DoFinish? then a.result else HandlerCancelled);
  }

  /** Processed and unread messages together stay the same. */
  lemma ActReads(l: Local, a: Action)
    ensures Act(l, a).e.received + Act(l, a).inbound == l.e.received + l.inbound
  {
    hide RunRequest, Reply, Settle, SettleAll, Settlement, FlatMap, Dispatch, Finish, ContinueClose;
    if a.DoReceive? {
      if l.inbound != [] {
        assert l.inbound == [l.inbound[0]] + l.inbound[1..];
      }
    } else if !a.DoSendRequest? {
      OtherActsReadNothing(l, a);
      hide Act;
    }
  }

  /** If a stream held everything sent before, it does so after more was sent. */
  lemma StreamGrows(e: Endpoint, outbound: seq<Message>, e': Endpoint, outbound': seq<Message>, received: seq<Message>)
    requires Writes(e, outbound, e', outbound')
    requires received + outbound + Unsent(e) == e.sent
    ensures received + outbound' + Unsent(e') == e'.sent
  {
    hide Unsent;
    assert e'.sent == e.sent + e'.sent[|e.sent|..];
    assert received + (outbound + Unsent(e)) == e.sent;
    assert received + (outbound' + Unsent(e')) == e'.sent;
  }

  // ---- The invariant ----------------------------------------------------------------

  /** A response that an endpoint processed is for a request it made and no longer waits for. */
  ghost predicate AnsweredOnce(e: Endpoint) {
    forall m | m in e.received && m.Response? :: m.id < e.nextId && m.id !in e.outgoing
  }

  /** Endpoint `a` is consistent, and its input is what `b` sent, in order. */
  ghost predicate Half(s: System) {
    && Inv(s.a)
    && AnsweredOnce(s.a)
    && s.a.received + s.toA + Unsent(s.b) == s.b.sent
  }

  ghost predicate SystemInv(s: System) {
    Half(s) && Half(Swap(s))
  }

  lemma InvOf(s: System)
    requires SystemInv(s)
    ensures Inv(s.a)
  {
    hide Inv;
  }

  /** A response sent by `b` answers a handler run that ended at `b`. */
  lemma ResponsesComeFromHandlers(b: Endpoint, m: Message) returns (r: Served)
    requires Inv(b) && m in b.sent && m.Response?
    ensures r in b.served && Reply(r.request.id, r.Told()) == Some(m)
  {
    FlatMapMember(ResponseOf, b.sent, m);
    assert m in ResponseOf(m);
    FlatMapMember(ReplyOf, b.served, m);
    r :| r in b.served && m in ReplyOf(r);
  }

  /** A handler of `b` ran for a call of `a`: same number, same method, same parameters. */
  lemma HandlersRunCalls(s: System, r: Served)
    requires SystemInv(s)
    ensures r in s.b.served ==> r.request in s.b.received
    ensures var m := r.request;
            r in s.b.served ==> m.id < |s.a.issued| && s.a.issued[m.id] == Call(m.name, m.params, true)
  {
    hide Numbered, Lifecycle, Called, Unsent, AnsweredOnce, FlatMap, SentCalls;
    if r in s.b.served {
      var m := r.request;
      FlatMapMember(RunOf, s.b.served, m);
      assert m in RunOf(r);
      assert m in multiset(FlatMap(RequestOf, s.b.received));
      FlatMapMember(RequestOf, s.b.received, m);
      FlatMapMember(RequestOf, s.a.sent, m);
      assert m in RequestOf(m);
      SentCallMembers(s.a.issued, m);
    }
  }

  /** A processed response takes its number out of the pending table, for good. */
  lemma ActAnswers(l: Local, a: Action, m: Message)
    requires m in Act(l, a).e.received && m.Response? && m.id < l.e.nextId
    requires m in l.e.received ==> m.id !in l.e.outgoing
    ensures m.id !in Act(l, a).e.outgoing && m.id < Act(l, a).e.nextId
  {
    hide RunRequest, Reply, Settle, SettleAll, Settlement, FlatMap, Dispatch, Finish, ContinueClose;
    if !a.DoReceive? && !a.DoSendRequest? {
      OtherActsReadNothing(l, a);
      hide Act;
    }
  }

  lemma StepAKeepsAnswered(s: System, a: Action)
    requires SystemInv(s)
    ensures AnsweredOnce(StepA(s, a).a)
  {
    var l := Local(s.a, s.toA, s.toB);
    ActReads(l, a);
    hide Act, Inv;
    forall m | m in StepA(s, a).a.received && m.Response?
      ensures m.id < StepA(s, a).a.nextId && m.id !in StepA(s, a).a.outgoing
    {
      assert m in s.a.received + s.toA;
      assert m in s.b.sent;
      var r := ResponsesComeFromHandlers(s.b, m);
      HandlersRunCalls(s, r);
      assert m.id == r.request.id;
      NextIsIssued(s.a);
      ActAnswers(l, a, m);
    }
  }

  lemma NextIsIssued(e: Endpoint)
    requires Inv(e)
    ensures e.nextId == |e.issued| == |e.futures| == |e.callers|
  {
  }

  lemma ActKeepsInv(l: Local, a: Action)
    requires Inv(l.e)
    ensures Inv(Act(l, a).e)
  {
    assert l.e.nextId == |l.e.issued| && (!l.e.receiveDone ==> QueueOpen(l.e));
    hide Numbered, Accounted, Lifecycle, Called, Act;
    ActKeepsNumbered(l, a);
    ActKeepsAccounted(l, a);
    ActKeepsLifecycle(l, a);
    ActKeepsCalled(l, a);
  }

  lemma StepAKeepsInv(s: System, a: Action)
    requires SystemInv(s)
    ensures SystemInv(StepA(s, a))
  {
    var l := Local(s.a, s.toA, s.toB);
    assert s.a.failed.Some? ==> s.a.senderDone by {
      assert Lifecycle(s.a);
    }
    hide Inv, Unsent, AnsweredOnce, Act, Writes;
    ActKeepsInv(l, a);
    ActReads(l, a);
    ActWrites(l, a);
    StepAKeepsAnswered(s, a);
    StreamGrows(s.a, s.toB, Act(l, a).e, Act(l, a).outbound, s.b.received);
  }

  lemma StepKeepsInv(s: System, onA: bool, a: Action)
    requires SystemInv(s)
    ensures SystemInv(Step(s, onA, a))
  {
    hide Half, StepA;
    if onA {
      StepAKeepsInv(s, a);
    } else {
      StepAKeepsInv(Swap(s), a);
    }
  }

  /** Every state that any interleaving reaches is consistent. */
  lemma {:induction false} RunKeepsInv(s: System, trace: seq<(bool, Action)>)
    requires SystemInv(s)
    ensures SystemInv(Run(s, trace))
    decreases |trace|
  {
    hide Half, Step;
    if trace != [] {
      StepKeepsInv(s, trace[0].0, trace[0].1);
      RunKeepsInv(Step(s, trace[0].0, trace[0].1), trace[1..]);
    }
  }

  lemma ReachableInv(trace: seq<(bool, Action)>)
    ensures SystemInv(Run(START, trace))
  {
    StartInv();
    RunKeepsInv(START, trace);
  }

  lemma StartInv()
    ensures SystemInv(START)
  {
    FreshInv();
    assert FRESH.received == [] && FRESH.sent == [] && Unsent(FRESH) == [];
    hide Inv, Unsent;
  }

  // ---- Requests and their outcomes -----------------------------------------------------

  /** A future that is done never changes again. */
  ghost predicate Final(before: seq<Future>, after: seq<Future>) {
    && |before| <= |after|
    && forall i: nat | i < |before| && !before[i].Waiting? :: after[i] == before[i]
  }

  lemma ActSettlesOnce(l: Local, a: Action)
    ensures Final(l.e.futures, Act(l, a).e.futures)
  {
    hide RunRequest, Reply, Settlement, FlatMap, Final;
    var e := l.e;
    match a
    case DoReceive =>
      if l.inbound != [] && l.inbound[0].Response? && l.inbound[0].id in e.outgoing {
        SettleIsFinal(e.futures, e.outgoing[l.inbound[0].id], Settlement(l.inbound[0]), {});
      }
      SettleIsFinal(e.futures, 0, Cancelled, {});
    case DoCancelCaller(k) => SettleIsFinal(e.futures, k, Cancelled, {});
    case _ => SettleIsFinal(e.futures, 0, Rejected(ConnectionLost), e.outgoing.Values);
  }

  lemma SettleIsFinal(futures: seq<Future>, k: nat, f: Future, which: set<nat>)
    ensures Final(futures, futures) && Final(futures, futures + [Waiting])
    ensures Final(futures, Settle(futures, k, f)) && Final(futures, SettleAll(futures, which, f))
  {
  }

  /** Each `send_request` settles at most once, whatever either endpoint does. */
  lemma {:induction false} SettlesAtMostOnce(s: System, trace: seq<(bool, Action)>)
    ensures Final(s.a.futures, Run(s, trace).a.futures)
    ensures Final(s.b.futures, Run(s, trace).b.futures)
    decreases |trace|
  {
    if trace != [] {
      ActSettlesOnce(Local(s.a, s.toA, s.toB), trace[0].1);
      ActSettlesOnce(Local(s.b, s.toB, s.toA), trace[0].1);
      SettlesAtMostOnce(Step(s, trace[0].0, trace[0].1), trace[1..]);
    }
  }

  lemma CountTwice(s: seq<Message>, j: nat, k: nat)
    requires j < k < |s| && s[j] == s[k]
    ensures multiset(s)[s[j]] >= 2
  {
    assert s == s[..j] + [s[j]] + s[j + 1..k] + [s[k]] + s[k + 1..];
  }

  lemma {:induction false} RunsIndex(served: seq<Served>, k: nat)
    requires k < |served|
    ensures |FlatMap(RunOf, served)| == |served| && FlatMap(RunOf, served)[k] == served[k].request
  {
    if |served| > 1 {
      RunsIndex(served[1..], if k > 0 then k - 1 else 0);
    }
  }

  /** Everything an endpoint processed was sent by its peer. */
  lemma ReceivedWasSent(s: System)
    requires SystemInv(s)
    ensures s.b.received <= s.a.sent && s.a.received <= s.b.sent
  {
    hide Inv, Items, AnsweredOnce;
  }

  lemma HandledCount(s: System, m: Message)
    requires SystemInv(s)
    ensures multiset(FlatMap(RunOf, s.b.served))[m] <= 1
  {
    hide FlatMap, SentCalls, Numbered, Lifecycle, Items;
    ReceivedWasSent(s);
    assert Inv(s.a) && Inv(s.b);
    assert Accounted(s.a) && Accounted(s.b);
    hide SystemInv, Inv;
    SentCallMembers(s.a.issued, m);
    var rest := s.a.sent[|s.b.received|..];
    assert s.b.received + rest == s.a.sent;
    FlatMapAppend(RequestOf, s.b.received, rest);
  }

  /** No request is handled twice, although both ends use the same numbers. */
  lemma HandledAtMostOnce(s: System, j: nat, k: nat)
    requires SystemInv(s)
    requires j < k < |s.b.served|
    ensures s.b.served[j].request.id != s.b.served[k].request.id
  {
    var m, m' := s.b.served[j].request, s.b.served[k].request;
    HandlersRunCalls(s, s.b.served[j]);
    HandlersRunCalls(s, s.b.served[k]);
    HandledCount(s, m);
    RunsIndex(s.b.served, j);
    RunsIndex(s.b.served, k);
    hide *;
    if m == m' {
      CountTwice(FlatMap(RunOf, s.b.served), j, k);
      assert false;
    }
  }

  /** `r` is the one handler run of `b` for the `i`-th request of `a`. */
  ghost predicate TheRunFor(a: Endpoint, i: nat, b: Endpoint, r: Served) {
    && r in b.served && i < |a.issued|
    && a.issued[i] == Call(r.request.name, r.request.params, true)
    && r.request.id == i
    && multiset(b.served)[r] == 1
    && forall r' | r' in b.served && r'.request.id == i :: r' == r
  }

  /** A future that a response settled shows what the peer's handler did for that very
      request: the same result, or an error with the same code, message and data. */
  ghost predicate Faithful(a: Endpoint, b: Endpoint) {
    forall i: nat | i < |a.futures| && Answered(a.futures[i]) ::
      exists r :: TheRunFor(a, i, b, r) && Shows(a.futures[i], r.result)
  }

  lemma SettlementOfReply(r: Served, m: Message)
    requires Reply(r.request.id, r.Told()) == Some(m)
    ensures m.Response? && m.id == r.request.id && Shows(Settlement(m), r.result)
  {
  }

  lemma CountOnce<T>(s: seq<T>, k: nat)
    requires k < |s| && forall j: nat | j < |s| && j != k :: s[j] != s[k]
    ensures multiset(s)[s[k]] == 1
  {
    assert s == s[..k] + [s[k]] + s[k + 1..];
    assert s[k] !in s[..k] && s[k] !in s[k + 1..];
  }

  lemma RunIsUnique(s: System, r: Served)
    requires SystemInv(s)
    ensures r in s.b.served ==> TheRunFor(s.a, r.request.id, s.b, r)
  {
    hide SystemInv;
    if r in s.b.served {
      HandlersRunCalls(s, r);
      var k :| 0 <= k < |s.b.served| && s.b.served[k] == r;
      forall j: nat | j < |s.b.served| && j != k
        ensures s.b.served[j].request.id != r.request.id
      {
        HandledAtMostOnce(s, if j < k then j else k, if j < k then k else j);
      }
      CountOnce(s.b.served, k);
    }
  }

  lemma HalfIsFaithful(s: System)
    requires SystemInv(s)
    ensures Faithful(s.a, s.b)
  {
    forall i: nat | i < |s.a.futures| && Answered(s.a.futures[i])
      ensures exists r :: TheRunFor(s.a, i, s.b, r) && Shows(s.a.futures[i], r.result)
    {
      assert Justified(s.a.futures[i], i, s.a.outgoing, s.a.received);
      var m :| m in s.a.received && m.Response? && m.id == i && s.a.futures[i] == Settlement(m);
      ReceivedWasSent(s);
      hide Half, Settlement, Shows;
      var r := ResponsesComeFromHandlers(s.b, m);
      SettlementOfReply(r, m);
      RunIsUnique(s, r);
    }
  }

  /** Main result: in every interleaving, both endpoints see the outcomes of exactly their
      own requests. */
  lemma OutcomesAreFaithful(trace: seq<(bool, Action)>)
    ensures var s := Run(START, trace); Faithful(s.a, s.b) && Faithful(s.b, s.a)
  {
    ReachableInv(trace);
    HalfIsFaithful(Run(START, trace));
    HalfIsFaithful(Swap(Run(START, trace)));
  }

  /** Nothing is on its way between the endpoints or waits in them. */
  predicate Quiet(s: System) {
    && s.toA == [] && s.toB == []
    && s.a.sendQueue == [] && s.b.sendQueue == [] && s.b.taskQueue == [] && s.b.running == []
    && s.a.failed.None? && s.b.failed.None?
  }

  /** A request whose handler run was cancelled, or gave something that cannot be encoded, is
      never answered, in any reachable state. */
  lemma UnanswerableIsNeverAnswered(s: System, r: Served)
    requires SystemInv(s)
    ensures r in s.b.served && CannotAnswer(r.result) ==>
              r.request.id < |s.a.futures| && !Answered(s.a.futures[r.request.id])
  {
    hide SystemInv, CannotAnswer, Shows;
    PartsInv(s);
    hide Inv;
    NextIsIssued(s.a);
    RunIsUnique(s, r);
    HalfIsFaithful(s);
    if r in s.b.served {
      OnlyAnswersAreShown(s.a.futures[r.request.id], r.result);
    }
  }

  lemma PartsInv(s: System)
    requires SystemInv(s)
    ensures Inv(s.a) && Inv(s.b) && AnsweredOnce(s.a)
  {
    hide Inv, AnsweredOnce;
  }

  lemma OnlyAnswersAreShown(f: Future, result: HandlerResult)
    ensures Shows(f, result) ==> Answered(f) && !CannotAnswer(result)
  {
  }

  /** No reply is lost. Once everything has been delivered and handled, the future of a request
      that nobody gave up is answered if and only if the request could be encoded and its one
      handler run can answer; otherwise it still waits. The caller of one that could not be
      encoded has raised; the others wait with their futures, unless they were cancelled. */
  lemma QuietMeansAnswered(s: System, i: nat)
    requires SystemInv(s) && Quiet(s) && i < |s.a.futures| && !GivenUp(s.a.futures[i])
    ensures i < |s.a.issued|
    ensures Answered(s.a.futures[i]) <==>
              s.a.issued[i].encodable && exists r :: TheRunFor(s.a, i, s.b, r) && !CannotAnswer(r.result)
    ensures s.a.futures[i].Waiting? <==>
              !s.a.issued[i].encodable || exists r :: TheRunFor(s.a, i, s.b, r) && CannotAnswer(r.result)
    ensures |s.a.callers| == |s.a.futures| && (!s.a.issued[i].encodable ==> s.a.callers[i].Raised?)
    ensures !CallerReturned(s.a, i) <==>
            s.a.callers[i].Calling? && exists r :: TheRunFor(s.a, i, s.b, r) && CannotAnswer(r.result)
  {
    NextIsIssued(s.a);
    assert Called(s.a);
    assert !Queued(s.a.sendQueue, i);
    hide SystemInv, Quiet, Queued, Called;
    if s.a.issued[i].encodable {
      var r := QuietMeansHandled(s, i);
      RunIsUnique(s, r);
      if CannotAnswer(r.result) {
        UnanswerableIsNeverAnswered(s, r);
      } else {
        QuietMeansSettled(s, r);
      }
    } else {
      HalfIsFaithful(s);
    }
  }

  lemma QuietMeansHandled(s: System, i: nat) returns (r: Served)
    requires SystemInv(s) && Quiet(s) && i < |s.a.issued| && s.a.issued[i].encodable
    ensures r in s.b.served && r.request.id == i
  {
    hide SystemInv, Quiet, FlatMap, Inv, Numbered, Lifecycle, Called;
    var m := Request(i, s.a.issued[i].name, s.a.issued[i].params);
    SentCallMembers(s.a.issued, m);
    QuietMeansReceived(s);
    PartsInv(s);
    CallsWereReceived(s, m);
    FlatMapMember(RunOf, s.b.served, m);
    r :| r in s.b.served && m in RunOf(r);
  }

  lemma CallsWereReceived(s: System, m: Message)
    requires Inv(s.a) && Inv(s.b) && s.b.received == s.a.sent && s.b.taskQueue == [] && s.b.running == []
    ensures m in SentCalls(s.a.issued) ==> m in FlatMap(RunOf, s.b.served)
  {
    assert Items([]) == [] && FlatMap(RequestOf, []) == [];
    assert Accounted(s.a) && Accounted(s.b);
    hide FlatMap, Inv, SentCalls, Items;
    assert m in SentCalls(s.a.issued) ==> m in multiset(FlatMap(RequestOf, s.b.received));
  }

  /** In a quiet system everything sent was received, and nothing is being handled. */
  lemma QuietMeansReceived(s: System)
    requires SystemInv(s) && Quiet(s)
    ensures s.b.received == s.a.sent && s.a.received == s.b.sent && s.b.taskQueue == [] && s.b.running == []
    ensures Items([]) == [] && FlatMap(RequestOf, []) == []
  {
    hide Inv, AnsweredOnce;
  }

  lemma QuietMeansSettled(s: System, r: Served)
    requires SystemInv(s) && Quiet(s) && r in s.b.served && !CannotAnswer(r.result)
    ensures r.request.id < |s.a.futures| ==> !s.a.futures[r.request.id].Waiting?
  {
    hide SystemInv, Quiet, AnsweredOnce, CannotAnswer;
    PartsInv(s);
    QuietMeansReceived(s);
    var m := ReplyWasSent(s.b, r);
    ReceivedIsAnswered(s.a, m);
  }

  lemma ReplyWasSent(b: Endpoint, r: Served) returns (m: Message)
    requires Inv(b) && r in b.served && !CannotAnswer(r.result)
    ensures m in b.sent && m.Response? && m.id == r.request.id
  {
    hide Inv, FlatMap, Reply, ReplyOf, RunRequest, CannotAnswer;
    m := ReplyExists(r);
    RepliesAreSent(b);
    FlatMapMember(ReplyOf, b.served, m);
    FlatMapMember(ResponseOf, b.sent, m);
  }

  lemma ReplyExists(r: Served) returns (m: Message)
    requires !CannotAnswer(r.result)
    ensures m.Response? && m.id == r.request.id && m in ReplyOf(r)
  {
    m := Reply(r.request.id, r.Told()).value;
  }

  lemma RepliesAreSent(b: Endpoint)
    requires Inv(b)
    ensures FlatMap(ResponseOf, b.sent) == FlatMap(ReplyOf, b.served)
  {
    hide FlatMap, Numbered, Lifecycle;
  }

  lemma ReceivedIsAnswered(a: Endpoint, m: Message)
    requires Inv(a) && AnsweredOnce(a) && m in a.received && m.Response?
    ensures m.id < |a.futures| ==> !a.futures[m.id].Waiting?
  {
    hide Accounted, Lifecycle;
    assert Numbered(a);
    if m.id < |a.futures| {
      assert Justified(a.futures[m.id], m.id, a.outgoing, a.received);
    }
  }

  // ---- close() -------------------------------------------------------------------------

  /** Main result: no message is ever published on the closed queue. In every interleaving the
      receive loop is over before the queue is closed, so that whatever it processes before is
      handled and whatever it publishes joins the queue. */
  lemma PublishNeverRaises(trace: seq<(bool, Action)>, onA: bool)
    ensures var s := if onA then Run(START, trace) else Swap(Run(START, trace));
            && (!QueueOpen(s.a) ==> s.a.receiveDone)
            && (!s.a.receiveDone && s.toA != [] ==>
                  var e := StepA(s, DoReceive).a;
                  && !e.receiveDone
                  && e.taskQueue == s.a.taskQueue + (if s.toA[0].Response? then [] else [Some(s.toA[0])]))
  {
    hide Run, SystemInv;
    ReachableInv(trace);
    var s := Run(START, trace);
    InvOf(s);
    SwapInv(s);
    InvOf(Swap(s));
    PublishStep(if onA then s else Swap(s));
  }

  lemma SwapInv(s: System)
    requires SystemInv(s)
    ensures SystemInv(Swap(s))
  {
    hide Half;
  }

  lemma PublishStep(s: System)
    requires Inv(s.a)
    ensures !QueueOpen(s.a) ==> s.a.receiveDone
    ensures !s.a.receiveDone && s.toA != [] ==>
              var e := StepA(s, DoReceive).a;
              && !e.receiveDone
              && e.taskQueue == s.a.taskQueue + (if s.toA[0].Response? then [] else [Some(s.toA[0])])
  {
    assert !QueueOpen(s.a) ==> s.a.receiveDone by {
      assert Lifecycle(s.a);
    }
    hide Inv, Settlement, Settle;
  }

  /** The first two parts of `close()` in the other order: the queue first. */
  function CloseQueueFirst(e: Endpoint): Endpoint {
    if e.phase.Open? then e.(phase := QueueClosed, taskQueue := e.taskQueue + [None]) else e
  }

  /** In that order every request or notification that arrives before the receive loop is
      cancelled raises in it: the loop ends, and the message never reaches a handler. */
  lemma ClosingTheQueueFirstRaises(l: Local)
    requires l.e.phase.Open? && !l.e.receiveDone && l.inbound != [] && !l.inbound[0].Response?
    ensures var e, e' := CloseQueueFirst(l.e), Act(l.(e := CloseQueueFirst(l.e)), DoReceive).e;
            e'.receiveDone && e'.taskQueue == e.taskQueue && e'.received == e.received + [l.inbound[0]]
  {
  }

  lemma ClosingIsForGood(l: Local, a: Action)
    requires !l.e.phase.Open?
    ensures !Act(l, a).e.phase.Open?
  {
    hide RunRequest, Reply, Settle, SettleAll, Settlement, FlatMap;
  }

  lemma {:induction false} NeverOpensAgain(s: System, trace: seq<(bool, Action)>)
    requires !s.a.phase.Open?
    ensures !Run(s, trace).a.phase.Open?
    decreases |trace|
  {
    hide Act;
    if trace != [] {
      ClosingIsForGood(Local(s.a, s.toA, s.toB), trace[0].1);
      NeverOpensAgain(Step(s, trace[0].0, trace[0].1), trace[1..]);
    }
  }

  /** Once `close()` has been called, every later call changes nothing, whatever both sides do in
      between. */
  lemma SecondCloseDoesNothing(s: System, trace: seq<(bool, Action)>)
    ensures var later := Run(StepA(s, DoBeginClose), trace);
            !later.a.phase.Open? && StepA(later, DoBeginClose) == later
  {
    NeverOpensAgain(StepA(s, DoBeginClose), trace);
    hide Run;
  }

  /** When outgoing requests are rejected, the future of every request made so far is settled. */
  lemma CloseSettlesEverything(s: System)
    requires SystemInv(s) && s.a.phase.TasksCancelled?
    ensures var e := StepA(s, DoContinueClose).a;
            e.phase.CloseReturned? && forall i: nat | i < |e.futures| :: !e.futures[i].Waiting?
  {
    assert Numbered(s.a);
    hide SystemInv, Numbered, SettleAll;
    RejectAllKeepsNumbered(s.a);
    CloseFrame(s.a);
  }

  ghost predicate Closed(e: Endpoint) {
    e.phase.CloseReturned? && e.receiveDone
  }

  lemma ClosedActs(l: Local, a: Action)
    requires Closed(l.e)
    ensures Closed(Act(l, a).e)
    ensures forall i: nat | i < |l.e.futures| && l.e.futures[i].Waiting? ::
              Act(l, a).e.futures[i] in {Waiting, Cancelled}
    ensures |Act(l, a).e.futures| > |l.e.futures| ==> Act(l, a).e.futures == l.e.futures + [Waiting]
  {
    hide RunRequest, Reply, SettleAll, Settlement, FlatMap;
  }

  lemma {:induction false} ClosedNeverSettles(s: System, trace: seq<(bool, Action)>, n: nat)
    requires Closed(s.a) && n <= |s.a.futures|
    requires forall i: nat | n <= i < |s.a.futures| :: s.a.futures[i] in {Waiting, Cancelled}
    ensures |s.a.futures| <= |Run(s, trace).a.futures|
    ensures forall i: nat | n <= i < |Run(s, trace).a.futures| :: Run(s, trace).a.futures[i] in {Waiting, Cancelled}
    decreases |trace|
  {
    if trace != [] {
      ClosedActs(Local(s.a, s.toA, s.toB), trace[0].1);
      ActSettlesOnce(Local(s.a, s.toA, s.toB), trace[0].1);
      hide Act;
      ClosedNeverSettles(Step(s, trace[0].0, trace[0].1), trace[1..], n);
    }
  }

  /** Exactly the futures of the requests made before `close()` rejects are settled by it. The
      future of one made later, which `send_request` accepts, is never settled by a response or
      a rejection. When the callers return is another matter: see `CallerWaitsIffLeftBehind`. */
  lemma SettledIffIssuedBeforeClose(s: System, trace: seq<(bool, Action)>)
    requires SystemInv(s) && s.a.phase.TasksCancelled?
    ensures forall i: nat | i < |Run(StepA(s, DoContinueClose), trace).a.futures| ::
              var f := Run(StepA(s, DoContinueClose), trace).a.futures[i];
              && (i < s.a.nextId ==> !f.Waiting?)
              && (i >= s.a.nextId ==> f in {Waiting, Cancelled})
  {
    CloseSettlesEverything(s);
    NextIsIssued(s.a);
    var s' := StepA(s, DoContinueClose);
    SettlesAtMostOnce(s', trace);
    RejectionCloses(s);
    hide SystemInv, StepA, Closed, Run;
    ClosedNeverSettles(s', trace, s.a.nextId);
  }

  lemma RejectionCloses(s: System)
    requires SystemInv(s) && s.a.phase.TasksCancelled?
    ensures Closed(StepA(s, DoContinueClose).a) && |StepA(s, DoContinueClose).a.futures| == s.a.nextId
  {
    assert Lifecycle(s.a) && Numbered(s.a);
    hide SystemInv, Numbered;
    assert |s.a.futures| == s.a.nextId by {
      NumberedSizes(s.a);
    }
  }

  lemma NumberedSizes(e: Endpoint)
    requires Numbered(e)
    ensures |e.futures| == e.nextId
  {
  }

  // ---- The handlers that run when close() cancels them --------------------------------------

  /** `close()` cancelled the handlers of `before`; those that ended since are the rest of
      `e.served`. It is beyond its wait for them only if all have ended and none answered. */
  ghost predicate Ending(before: Endpoint, e: Endpoint) {
    && before.served <= e.served && e.received == before.received
    && e.receiveDone && e.dispatcherDone && e.taskQueue == []
    && (e.stuck == [] <==> forall r | r in e.served[|before.served|..] :: CannotAnswer(r.result))
    && (e.phase.HandlersCancelled?
        || ((e.phase.TasksCancelled? || e.phase.CloseReturned?) && e.running == [] && e.stuck == []))
  }

  lemma FinishKeepsEnding(before: Endpoint, e: Endpoint, k: nat, result: HandlerResult)
    requires Ending(before, e)
    ensures Ending(before, Finish(e, k, result))
  {
    if k < |e.running| {
      var e', n := Finish(e, k, result), |before.served|;
      var r := Served(e.running[k], result);
      ReplyIffAnswers(r);
      hide Reply, RunRequest, CannotAnswer;
      assert e'.served[n..] == e.served[n..] + [r];
      assert r in e'.served[n..];
      assert forall x | x in e.served[n..] :: x in e'.served[n..];
    }
  }

  lemma ReplyIffAnswers(r: Served)
    ensures Reply(r.request.id, RunRequest(r.result)).None? <==> CannotAnswer(r.result)
  {
  }

  lemma ActKeepsEnding(before: Endpoint, l: Local, a: Action)
    requires Ending(before, l.e)
    ensures Ending(before, Act(l, a).e)
  {
    hide Settle, SettleAll, Settlement, Finish, CannotAnswer;
    match a
    case DoFinish(k, result) => FinishKeepsEnding(before, l.e, k, result);
    case _ =>
  }

  lemma {:induction false} RunKeepsEnding(before: Endpoint, s: System, trace: seq<(bool, Action)>)
    requires Ending(before, s.a)
    ensures Ending(before, Run(s, trace).a)
    decreases |trace|
  {
    hide Ending, Act;
    if trace != [] {
      ActKeepsEnding(before, Local(s.a, s.toA, s.toB), trace[0].1);
      RunKeepsEnding(before, Step(s, trace[0].0, trace[0].1), trace[1..]);
    }
  }

  /** `close()` completes if and only if no handler that it cancels answers. Let it come to the
      handlers and let both sides go on in any way: the runs that ended since are those of
      the handlers that were running, except for the ones that still run; `close()` is beyond
      its wait only if all of them ended without an answer; and once all have ended, the rest
      of `close()` takes it to its end exactly in that case. */
  lemma CompletesIffHandlersAreSilent(s: System, trace: seq<(bool, Action)>)
    requires SystemInv(s) && s.a.phase.HandlersCancelled? && s.a.stuck == []
    ensures var e := Run(s, trace).a;
            && s.a.served <= e.served
            && var ended := e.served[|s.a.served|..];
            && multiset(s.a.running) == multiset(e.running) + multiset(FlatMap(RunOf, ended))
            && (!e.phase.HandlersCancelled? ==> e.running == [] && forall r | r in ended :: CannotAnswer(r.result))
            && (e.running == [] ==>
                  (ContinueClose(ContinueClose(e)).phase.CloseReturned? <==>
                   forall r | r in ended :: CannotAnswer(r.result)))
  {
    RunKeepsInv(s, trace);
    RunKeepsEnding(s.a, s, trace) by {
      InvOf(s);
      BeginsEnding(s.a);
    }
    hide SystemInv, Run;
    InvOf(s);
    InvOf(Run(s, trace));
    BeginsEnding(s.a);
    EndedWereRunning(s.a, Run(s, trace).a);
    EndingMeans(s.a, Run(s, trace).a);
  }

  lemma EndingMeans(before: Endpoint, e: Endpoint)
    requires Ending(before, e)
    ensures var silent := forall r | r in e.served[|before.served|..] :: CannotAnswer(r.result);
            && (!e.phase.HandlersCancelled? ==> e.running == [] && silent)
            && (e.running == [] ==> (ContinueClose(ContinueClose(e)).phase.CloseReturned? <==> silent))
  {
    hide SettleAll, CannotAnswer;
  }

  lemma BeginsEnding(e: Endpoint)
    requires Inv(e) && e.phase.HandlersCancelled? && e.stuck == []
    ensures Ending(e, e)
  {
    hide Numbered, Accounted, Called;
  }

  lemma EndedWereRunning(before: Endpoint, e: Endpoint)
    requires Inv(before) && Inv(e) && Ending(before, before) && Ending(before, e)
    ensures multiset(before.running) ==
              multiset(e.running) + multiset(FlatMap(RunOf, e.served[|before.served|..]))
  {
    hide FlatMap, Numbered, Lifecycle, Called, Tracked, Spoken, Noticed;
    var ended := e.served[|before.served|..];
    assert Accounted(before) && Accounted(e);
    assert e.served == before.served + ended;
    SameTotal(e.received, before.running, e.running, before.served, ended);
  }

  /** With no task queued, every request received runs or was served. */
  lemma SameTotal(received: seq<Message>, running: seq<Message>, running': seq<Message>, served: seq<Served>,
      ended: seq<Served>)
    requires Tracked(received, Items([]), running, served) && Tracked(received, Items([]), running', served + ended)
    ensures multiset(running) == multiset(running') + multiset(FlatMap(RunOf, ended))
  {
    FlatMapAppend(RunOf, served, ended);
    hide FlatMap, Items;
    var before, more := FlatMap(RunOf, served), FlatMap(RunOf, ended);
    assert FlatMap(RunOf, served + ended) == before + more;
    SameRest(multiset(running), multiset(running'), multiset(before), multiset(more),
             multiset(FlatMap(RequestOf, received)) - multiset(FlatMap(RequestOf, Items([]))));
  }

  lemma SameRest<T>(running: multiset<T>, running': multiset<T>, before: multiset<T>, more: multiset<T>,
      total: multiset<T>)
    requires running + before == total == running' + (before + more)
    ensures running == running' + more
  {
    assert running == (running + before) - before;
  }

  /** A handler that answers its cancellation keeps `close()` waiting forever, whatever happens,
      and no request that was pending is rejected. */
  lemma {:induction false} StuckForever(s: System, trace: seq<(bool, Action)>)
    requires s.a.phase.HandlersCancelled? && s.a.stuck != [] && s.a.receiveDone
    ensures var e := Run(s, trace).a;
            && e.phase.HandlersCancelled? && e.stuck != [] && |e.futures| >= |s.a.futures|
            && forall i: nat | i < |s.a.futures| && s.a.futures[i].Waiting? :: e.futures[i] in {Waiting, Cancelled}
    decreases |trace|
  {
    if trace != [] {
      ActStaysStuck(Local(s.a, s.toA, s.toB), trace[0].1);
      hide Act;
      var s' := Step(s, trace[0].0, trace[0].1);
      StuckForever(s', trace[1..]);
      SettlesAtMostOnce(s', trace[1..]);
    }
  }

  lemma ActStaysStuck(l: Local, a: Action)
    requires l.e.phase.HandlersCancelled? && l.e.stuck != [] && l.e.receiveDone
    ensures var e, e' := l.e, Act(l, a).e;
            && e'.phase.HandlersCancelled? && e'.stuck != [] && e'.receiveDone && |e'.futures| >= |e.futures|
            && forall i: nat | i < |e.futures| && e.futures[i].Waiting? :: e'.futures[i] in {Waiting, Cancelled}
  {
    hide RunRequest, Reply, SettleAll, Settlement;
  }

  function PhaseRank(p: ClosePhase): nat {
    match p
    case Open => 6
    case ReceiveCancelled => 5
    case QueueClosed => 4
    case SenderClosing => 3
    case HandlersCancelled => 2
    case TasksCancelled => 1
    case CloseReturned => 0
  }

  /** The endpoint's own turn that `close()` waits for, or the next part of `close()`. */
  function ClosingAction(e: Endpoint): Action {
    if e.phase.ReceiveCancelled? && !e.receiveDone then DoReceiveEnds(false)
    else if e.phase.QueueClosed? && !e.dispatcherDone then DoDispatch
    else if e.phase.SenderClosing? && !e.senderDone then DoTransmit
    else if e.phase.HandlersCancelled? && e.running != [] then DoFinish(0, HandlerCancelled)
    else DoContinueClose
  }

  /** What the endpoint's own turns bring down: first the flag of the receive loop, the queue of
      tasks, the queue of the sender or the list of handlers, then the phase. */
  function Waits(e: Endpoint): nat {
    match e.phase
    case ReceiveCancelled => if e.receiveDone then 0 else 1
    case QueueClosed => |e.taskQueue|
    case SenderClosing => |e.sendQueue|
    case HandlersCancelled => |e.running|
    case _ => 0
  }

  lemma ClosingActionProgresses(l: Local)
    requires Lifecycle(l.e) && !l.e.phase.Open? && !l.e.phase.CloseReturned? && l.e.stuck == []
    ensures var e, e' := l.e, Act(l, ClosingAction(l.e)).e;
            && !e'.phase.Open? && e'.stuck == []
            && (|| PhaseRank(e'.phase) < PhaseRank(e.phase)
                || (e'.phase == e.phase && Waits(e') < Waits(e)))
  {
    var e := l.e;
    if e.phase.HandlersCancelled? && e.running != [] {
      assert Finish(e, 0, HandlerCancelled).running == e.running[1..];
      hide Lifecycle;
    } else {
      hide SettleAll, Settle, Finish;
    }
  }

  function Alone(l: Local, actions: seq<Action>): Local
    decreases |actions|
  {
    if actions == [] then l else Alone(Act(l, actions[0]), actions[1..])
  }

  /** From any point of `close()` at which no handler has answered its cancellation, the
      endpoint's own turns bring it to its end, without any help from the peer: the loops end
      and the handlers obey. */
  lemma CloseCompletes(l: Local) returns (actions: seq<Action>)
    requires Lifecycle(l.e) && !l.e.phase.Open? && l.e.stuck == []
    ensures Alone(l, actions).e.phase.CloseReturned?
    ensures forall a | a in actions ::
              a in {DoReceiveEnds(false), DoDispatch, DoTransmit, DoFinish(0, HandlerCancelled), DoContinueClose}
    decreases PhaseRank(l.e.phase), Waits(l.e)
  {
    if l.e.phase.CloseReturned? {
      return [];
    }
    var a := ClosingAction(l.e);
    ActKeepsLifecycle(l, a);
    ClosingActionProgresses(l);
    hide Lifecycle, Act;
    var rest := CloseCompletes(Act(l, a));
    actions := [a] + rest;
    assert actions[1..] == rest;
  }

  // ---- The callers of send_request when close() has returned --------------------------------

  function AfterStop(q: seq<Option<Message>>): seq<Option<Message>> {
    if q == [] then [] else if q[0].None? then q[1..] else AfterStop(q[1..])
  }

  /** What waits to be sent and will not be: the sender loop ended or ends before it. */
  function Behind(e: Endpoint): seq<Option<Message>> {
    if e.senderDone then e.sendQueue else AfterStop(e.sendQueue)
  }

  /** The two ways in which request `k` comes there: it is issued after `close()` told the
      sender to stop or the sender loop ended, or a write before it raises. */
  predicate LeavesBehind(e: Endpoint, a: Action, k: nat) {
    match a
    case DoSendRequest(c) => c.encodable && k == e.nextId && (e.senderDone || e.phase.SenderClosing?)
    case DoWriterFails => !e.senderDone && e.sendQueue != [] && e.sendQueue[0].Some? && Queued(e.sendQueue[1..], k)
    case _ => false
  }

  lemma {:induction false} AfterStopGrows(q: seq<Option<Message>>, item: Option<Message>)
    ensures AfterStop(q + [item]) == if None in q then AfterStop(q) + [item] else []
    ensures None !in q ==> AfterStop(q) == []
  {
    if q != [] {
      AfterStopGrows(q[1..], item);
      assert (q + [item])[1..] == q[1..] + [item];
    }
  }

  lemma {:induction false} AfterStopIsQueued(q: seq<Option<Message>>, k: nat)
    ensures Queued(AfterStop(q), k) ==> Queued(q, k)
  {
    if q != [] {
      assert forall m | m in q[1..] :: m in q;
      AfterStopIsQueued(q[1..], k);
    }
  }

  lemma QueuedOne(q: seq<Option<Message>>, item: Option<Message>, k: nat)
    ensures Queued(q + [item], k) <==> Queued(q, k) || Queued([item], k)
  {
    assert forall m | m in q :: m in q + [item];
  }

  /** An item joins the queue of an endpoint. */
  lemma JoinsBehind(e: Endpoint, e': Endpoint, item: Option<Message>, k: nat)
    requires e'.senderDone == e.senderDone && e'.sendQueue == e.sendQueue + [item]
    ensures Queued(Behind(e'), k) <==>
            Queued(Behind(e), k) || ((e.senderDone || None in e.sendQueue) && Queued([item], k))
  {
    hide Queued;
    AfterStopGrows(e.sendQueue, item);
    QueuedOne(Behind(e), item, k);
  }

  lemma SentinelIsLate(e: Endpoint)
    requires Lifecycle(e)
    ensures e.senderDone || None in e.sendQueue <==> e.senderDone || e.phase.SenderClosing?
  {
  }

  lemma SendRequestBehind(e: Endpoint, c: Call, k: nat)
    requires Lifecycle(e)
    ensures Queued(Behind(SendRequest(e, c)), k) <==>
            Queued(Behind(e), k) || LeavesBehind(e, DoSendRequest(c), k)
  {
    SentinelIsLate(e);
    var item := Some(Request(e.nextId, c.name, c.params));
    assert Queued([item], k) <==> k == e.nextId;
    hide Lifecycle, Queued, Behind;
    var e' := SendRequest(e, c);
    if c.encodable {
      JoinsBehind(e, e', item, k);
    } else {
      SameBehind(e, e');
    }
  }

  lemma SameBehind(e: Endpoint, e': Endpoint)
    requires e'.senderDone == e.senderDone && e'.sendQueue == e.sendQueue
    ensures Behind(e') == Behind(e)
  {
  }

  lemma FinishBehind(e: Endpoint, i: nat, result: HandlerResult, k: nat)
    ensures Queued(Behind(Finish(e, i, result)), k) <==> Queued(Behind(e), k)
  {
    hide RunRequest;
    if i < |e.running| {
      var item := Reply(e.running[i].id, RunRequest(result));
      ReplyIsNoRequest(e.running[i].id, RunRequest(result));
      assert !Queued([item], k);
      hide Queued, Behind, Reply;
      var e' := Finish(e, i, result);
      if item.Some? {
        JoinsBehind(e, e', item, k);
      } else {
        SameBehind(e, e');
      }
    }
  }

  lemma DispatchLeavesSender(e: Endpoint)
    ensures Dispatch(e).senderDone == e.senderDone
  {
  }

  lemma NotificationBehind(e: Endpoint, m: Message, k: nat)
    requires m.Notification?
    ensures Queued(Behind(Enqueue(e, m)), k) <==> Queued(Behind(e), k)
  {
    assert !Queued([Some(m)], k);
    hide Queued, Behind;
    JoinsBehind(e, Enqueue(e, m), Some(m), k);
  }

  lemma CloseBehind(e: Endpoint, k: nat)
    ensures Queued(Behind(ContinueClose(e)), k) <==> Queued(Behind(e), k)
  {
    assert !Queued([None], k);
    hide Queued, Behind, SettleAll;
    var e' := ContinueClose(e);
    if e.phase.QueueClosed? && e.dispatcherDone {
      JoinsBehind(e, e', None, k);
    } else {
      SameBehind(e, e');
    }
  }

  /** The sender loop takes the head of its queue, and its write succeeds or raises. */
  lemma TakeBehind(l: Local, k: nat)
    ensures Queued(Behind(Act(l, DoTransmit).e), k) <==> Queued(Behind(l.e), k)
    ensures Queued(Behind(Act(l, DoWriterFails).e), k) <==>
            Queued(Behind(l.e), k) || LeavesBehind(l.e, DoWriterFails, k)
  {
    if l.e.sendQueue != [] {
      AfterStopIsQueued(l.e.sendQueue[1..], k);
      hide Queued;
    }
  }

  lemma ActLeavesBehind(l: Local, a: Action, k: nat)
    requires Lifecycle(l.e)
    ensures Queued(Behind(Act(l, a).e), k) <==> Queued(Behind(l.e), k) || LeavesBehind(l.e, a, k)
  {
    var e, e' := l.e, Act(l, a).e;
    SentinelIsLate(e);
    hide Lifecycle, Queued, Behind, SendRequest, Finish, ContinueClose, Dispatch, Settle, SettleAll;
    match a
    case DoSendRequest(c) => SendRequestBehind(e, c, k);
    case DoSendNotification(name, params, _) => NotificationBehind(e, Notification(name, params), k);
    case DoFinish(i, result) => FinishBehind(e, i, result, k);
    case DoContinueClose => CloseBehind(e, k);
    case DoTransmit => TakeBehind(l, k);
    case DoWriterFails => TakeBehind(l, k);
    case DoDispatch =>
      DispatchFrame(e);
      DispatchLeavesSender(e);
      SameBehind(e, e');
    case _ => SameBehind(e, e');
  }

  /** An entry of the trace after which request `k` waits behind the end of the sender loop. */
  ghost predicate LeftBehindAt(trace: seq<(bool, Action)>, t: nat, k: nat) {
    t < |trace| && trace[t].0 && LeavesBehind(Run(START, trace[..t]).a, trace[t].1, k)
  }

  /** Over whole runs, the requests behind the end of the sender loop are exactly those that one
      of the two ways brought there. */
  lemma {:induction false} LeftBehindIff(trace: seq<(bool, Action)>, k: nat)
    ensures Queued(Behind(Run(START, trace).a), k) <==> exists t: nat :: LeftBehindAt(trace, t, k)
    decreases |trace|
  {
    hide Queued, Behind, LeavesBehind, LeftBehindAt, Run, Step;
    if trace == [] {
      NothingBehindAtStart(k);
    } else {
      var n := |trace| - 1;
      var before, onA, a := trace[..n], trace[n].0, trace[n].1;
      assert trace == before + [(onA, a)];
      LeftBehindIff(before, k);
      ReachableInv(before);
      RunLast(START, before, onA, a);
      StepLeavesBehind(Run(START, before), onA, a, k);
      LastOrBefore(before, onA, a, k);
    }
  }

  lemma NothingBehindAtStart(k: nat)
    ensures !Queued(Behind(Run(START, []).a), k)
    ensures forall t: nat :: !LeftBehindAt([], t, k)
  {
  }

  lemma StepLeavesBehind(s: System, onA: bool, a: Action, k: nat)
    requires SystemInv(s)
    ensures Queued(Behind(Step(s, onA, a).a), k) <==> Queued(Behind(s.a), k) || (onA && LeavesBehind(s.a, a, k))
  {
    assert Lifecycle(s.a);
    hide Queued, Behind, LeavesBehind, SystemInv, Lifecycle, Act;
    if onA {
      ActLeavesBehind(Local(s.a, s.toA, s.toB), a, k);
    }
  }

  lemma LastOrBefore(before: seq<(bool, Action)>, onA: bool, a: Action, k: nat)
    ensures (exists t: nat :: LeftBehindAt(before + [(onA, a)], t, k)) <==>
            (exists t: nat :: LeftBehindAt(before, t, k)) || (onA && LeavesBehind(Run(START, before).a, a, k))
  {
    hide LeavesBehind, Run;
    var trace, n := before + [(onA, a)], |before|;
    assert trace[..n] == before;
    assert LeftBehindAt(trace, n, k) <==> onA && LeavesBehind(Run(START, before).a, a, k);
    forall t: nat | t < n ensures LeftBehindAt(trace, t, k) <==> LeftBehindAt(before, t, k) {
      assert trace[..t] == before[..t];
    }
  }

  lemma RunLast(s: System, before: seq<(bool, Action)>, onA: bool, a: Action)
    ensures Run(s, before + [(onA, a)]) == Step(Run(s, before), onA, a)
  {
    RunAppend(s, before, [(onA, a)]);
    RunFirst(Run(s, before), onA, a, []);
    hide Step;
    assert [(onA, a)] + [] == [(onA, a)];
  }

  /** When `close()` has returned, a caller of `send_request` has returned if and only if it was
      cancelled or its request was not left in the send queue. */
  lemma ReturnedIffNotQueued(s: System, k: nat)
    requires SystemInv(s) && s.a.phase.CloseReturned?
    ensures |s.a.callers| == |s.a.futures|
    ensures k < |s.a.callers| ==>
              (CallerReturned(s.a, k) <==> s.a.callers[k].Gone? || !Queued(s.a.sendQueue, k))
  {
    assert Called(s.a);
    hide SystemInv, Queued, Ascending;
  }

  /** Main result: in every run in which `close()` returned, a caller that was not cancelled
      waits if and only if its request was issued after `close()` told the sender to stop or the
      sender loop ended, or waited behind a write that raised. */
  lemma CallerWaitsIffLeftBehind(trace: seq<(bool, Action)>, k: nat)
    requires Run(START, trace).a.phase.CloseReturned?
    ensures var e := Run(START, trace).a;
            && |e.callers| == |e.futures|
            && (k < |e.callers| && !e.callers[k].Gone? ==>
                  (!CallerReturned(e, k) <==> exists t: nat :: LeftBehindAt(trace, t, k)))
  {
    var s := Run(START, trace);
    ReachableInv(trace);
    ReturnedIffNotQueued(s, k);
    LeftBehindIff(trace, k);
    assert Lifecycle(s.a);
    hide Queued, CallerReturned, LeftBehindAt, SystemInv, Run;
  }

  /** What waits behind the end of the sender loop stays there, whatever happens: its caller waits
      until it is cancelled. */
  lemma {:induction false} NeverReturns(s: System, trace: seq<(bool, Action)>, k: nat)
    requires SystemInv(s) && s.a.senderDone && Queued(s.a.sendQueue, k) && k < |s.a.callers|
    ensures var e := Run(s, trace).a;
            && s.a.sendQueue <= e.sendQueue && k < |e.callers| == |e.futures|
            && (CallerReturned(e, k) <==> e.callers[k].Gone?)
    decreases |trace|
  {
    if trace == [] {
      NotRaisedInQueue(s, k);
    } else {
      var onA, a := trace[0].0, trace[0].1;
      if onA {
        ActNeverSends(Local(s.a, s.toA, s.toB), a, k);
      }
      StepKeepsInv(s, onA, a);
      hide Act, SystemInv, Queued, CallerReturned;
      NeverReturns(Step(s, onA, a), trace[1..], k);
    }
  }

  /** Cancelling a caller ends it at once, in either of its awaits. Its request is still sent if
      it waits for that; otherwise its future is cancelled if it was not done. */
  lemma CancelEndsCaller(s: System, k: nat)
    requires SystemInv(s) && k < |s.a.callers|
    ensures var e := StepA(s, DoCancelCaller(k)).a;
            && |e.callers| == |e.futures| == |s.a.futures| && CallerReturned(e, k) && e.sendQueue == s.a.sendQueue
            && (s.a.callers[k].Calling? && s.a.futures[k].Waiting? && !Queued(s.a.sendQueue, k) ==>
                  e.futures[k] == Cancelled)
            && forall i: nat | i < |e.futures| && (i != k || Queued(s.a.sendQueue, k)) ::
                 e.futures[i] == s.a.futures[i]
  {
    hide SystemInv, Inv, Queued, CancelCaller, CallerReturned;
    InvOf(s);
    NextIsIssued(s.a);
    CancelEnds(s.a, k);
  }

  lemma CancelEnds(e: Endpoint, k: nat)
    requires k < |e.callers| == |e.futures|
    ensures var e' := CancelCaller(e, k);
            && |e'.callers| == |e'.futures| == |e.futures| && CallerReturned(e', k) && e'.sendQueue == e.sendQueue
            && (e.callers[k].Calling? && e.futures[k].Waiting? && !Queued(e.sendQueue, k) ==>
                  e'.futures[k] == Cancelled)
            && forall i: nat | i < |e.futures| && (i != k || Queued(e.sendQueue, k)) :: e'.futures[i] == e.futures[i]
  {
    hide Queued;
  }

  /** A write that raises ends the sender loop; the message reaches neither the stream nor the
      queue again, and the caller of the request in it returns at once. */
  lemma FailedWriteRaises(s: System)
    requires SystemInv(s) && !s.a.senderDone && s.a.sendQueue != [] && s.a.sendQueue[0].Some?
    ensures var m := s.a.sendQueue[0].value;
            var s' := StepA(s, DoWriterFails);
            && s'.a.senderDone && s'.a.failed == Some(m) && s'.a.sendQueue == s.a.sendQueue[1..] && s'.toB == s.toB
            && |s'.a.callers| == |s'.a.futures|
            && (m.Request? ==> m.id < |s'.a.callers| && CallerReturned(s'.a, m.id))
  {
    hide SystemInv, Inv, CallerReturned;
    InvOf(s);
    FailedWriteEnds(s.a);
  }

  lemma FailedWriteEnds(e: Endpoint)
    requires Inv(e) && !e.senderDone && e.sendQueue != [] && e.sendQueue[0].Some?
    ensures var m, e' := e.sendQueue[0].value, WriterFails(e);
            && |e'.callers| == |e'.futures| && e'.sendQueue == e.sendQueue[1..]
            && (m.Request? ==> m.id < |e'.callers| && CallerReturned(e', m.id))
  {
    hide Numbered, Accounted, Lifecycle, Queued;
    assert Called(e);
    if e.sendQueue[0].value.Request? {
      assert RequestAt(e.sendQueue, 0);
    }
  }

  /** If the receive loop ends with an error, every pending request is rejected; otherwise none. */
  lemma ReceiveErrorRejects(s: System, error: bool)
    requires SystemInv(s) && !s.a.receiveDone
    ensures var e := StepA(s, DoReceiveEnds(error)).a;
            && e.receiveDone && (!error ==> e.futures == s.a.futures)
            && (error ==> |e.futures| == |s.a.futures| && forall i: nat | i < |e.futures| ::
                  e.futures[i] == if s.a.futures[i].Waiting? then Rejected(ConnectionLost) else s.a.futures[i])
  {
    InvOf(s);
    assert Numbered(s.a);
    hide SystemInv, Inv, Numbered, RejectAll;
    RejectAllSettles(s.a);
  }

  lemma RejectAllSettles(e: Endpoint)
    requires Numbered(e)
    ensures var e' := RejectAll(e);
            |e'.futures| == |e.futures| && forall i: nat | i < |e.futures| ::
              e'.futures[i] == if e.futures[i].Waiting? then Rejected(ConnectionLost) else e.futures[i]
  {
    RejectAllKeepsNumbered(e);
  }

  lemma NotRaisedInQueue(s: System, k: nat)
    requires SystemInv(s) && Queued(s.a.sendQueue, k) && k < |s.a.callers|
    ensures |s.a.callers| == |s.a.futures|
    ensures CallerReturned(s.a, k) <==> s.a.callers[k].Gone?
  {
    assert Called(s.a);
    hide SystemInv, Queued, Ascending;
  }

  ghost predicate Appends(e: Endpoint, e': Endpoint) {
    && e'.senderDone == e.senderDone && e'.callers == e.callers
    && (e'.sendQueue == e.sendQueue || (e'.sendQueue != [] && e'.sendQueue == e.sendQueue + [Last(e'.sendQueue)]))
  }

  lemma FinishAppends(e: Endpoint, k: nat, result: HandlerResult)
    ensures Appends(e, Finish(e, k, result))
  {
    hide RunRequest, Reply;
  }

  lemma CloseAppends(e: Endpoint)
    ensures Appends(e, ContinueClose(e))
  {
    hide SettleAll;
  }

  lemma ActNeverSends(l: Local, a: Action, k: nat)
    requires l.e.senderDone
    ensures var e, e' := l.e, Act(l, a).e;
            && e'.senderDone && e.sendQueue <= e'.sendQueue && |e'.callers| >= |e.callers|
            && (Queued(e.sendQueue, k) ==> Queued(e'.sendQueue, k))
  {
    var e, e' := l.e, Act(l, a).e;
    hide Settle, SettleAll, Settlement, Queued, Finish, ContinueClose, Dispatch;
    DispatchFrame(e);
    DispatchLeavesSender(e);
    CloseAppends(e);
    if a.DoFinish? {
      FinishAppends(e, a.k, a.result);
    }
    if e'.sendQueue != e.sendQueue {
      assert e'.sendQueue == e.sendQueue + [Last(e'.sendQueue)];
      QueuedOne(e.sendQueue, Last(e'.sendQueue), k);
    }
  }

  // ---- Concrete runs ----------------------------------------------------------------------

  lemma RunFirst(s: System, onA: bool, a: Action, rest: seq<(bool, Action)>)
    ensures Run(s, [(onA, a)] + rest) == Run(Step(s, onA, a), rest)
  {
    assert ([(onA, a)] + rest)[1..] == rest;
    hide Step;
  }

  lemma {:induction false} RunAppend(s: System, first: seq<(bool, Action)>, rest: seq<(bool, Action)>)
    ensures Run(s, first + rest) == Run(Run(s, first), rest)
    decreases |first|
  {
    hide Step;
    if first == [] {
      assert first + rest == rest;
    } else {
      RunAppend(Step(s, first[0].0, first[0].1), first[1..], rest);
      assert (first + rest)[1..] == first[1..] + rest;
    }
  }

  /** The steps of a whole `close()` of an idle endpoint. */
  const CLOSING: seq<Action> :=
    [DoBeginClose, DoReceiveEnds(false), DoContinueClose, DoDispatch, DoContinueClose, DoTransmit, DoContinueClose,
     DoContinueClose, DoContinueClose]

  function OnA(actions: seq<Action>): seq<(bool, Action)> {
    seq(|actions|, i requires 0 <= i < |actions| => (true, actions[i]))
  }

  lemma RunOnA(s: System, a: Action, rest: seq<Action>)
    ensures Run(s, OnA([a] + rest)) == Run(Step(s, true, a), OnA(rest))
  {
    assert OnA([a] + rest) == [(true, a)] + OnA(rest);
    hide Step;
    RunFirst(s, true, a, OnA(rest));
  }

  lemma RunOnALast(s: System, first: seq<Action>, a: Action)
    ensures Run(s, OnA(first + [a])) == Step(Run(s, OnA(first)), true, a)
  {
    assert OnA(first + [a]) == OnA(first) + [(true, a)];
    hide Step;
    RunLast(s, OnA(first), true, a);
  }

  lemma RunNothing(s: System)
    ensures Run(s, OnA([])) == s
  {
  }

  /** An endpoint whose loops are idle; handlers may run. */
  predicate LoopsIdle(e: Endpoint) {
    && e.phase.Open? && !e.receiveDone && !e.dispatcherDone && !e.senderDone
    && e.sendQueue == [] && e.taskQueue == []
  }

  /** Such an endpoint after the first steps of `CLOSING`, up to the wait for the handlers. */
  function ClosingAfter(e: Endpoint, n: nat): Endpoint {
    match n
    case 0 => e
    case 1 => e.(phase := ReceiveCancelled)
    case 2 => e.(phase := ReceiveCancelled, receiveDone := true)
    case 3 => e.(phase := QueueClosed, receiveDone := true, taskQueue := [None])
    case 4 => e.(phase := QueueClosed, receiveDone := true, dispatcherDone := true)
    case 5 => e.(phase := SenderClosing, receiveDone := true, dispatcherDone := true, sendQueue := [None])
    case _ =>
      e.(phase := if n == 6 then SenderClosing else HandlersCancelled,
         receiveDone := true, dispatcherDone := true, senderDone := true)
  }

  lemma ClosingStep(s: System, e: Endpoint, n: nat)
    requires LoopsIdle(e) && n < 7 && s.a == ClosingAfter(e, n)
    ensures Step(s, true, CLOSING[n]) == s.(a := ClosingAfter(e, n + 1))
  {
    hide SettleAll;
  }

  lemma {:induction false} ClosingRun(s: System, n: nat)
    requires LoopsIdle(s.a) && n <= 7
    ensures Run(s, OnA(CLOSING[..n])) == s.(a := ClosingAfter(s.a, n))
  {
    hide Run, OnA, Step;
    if n == 0 {
      RunNothing(s);
    } else {
      ClosingRun(s, n - 1);
      assert CLOSING[..n] == CLOSING[..n - 1] + [CLOSING[n - 1]];
      RunOnALast(s, CLOSING[..n - 1], CLOSING[n - 1]);
      ClosingStep(s.(a := ClosingAfter(s.a, n - 1)), s.a, n - 1);
    }
  }

  lemma IdleCloses()
    ensures Run(START, OnA(CLOSING)) ==
              START.(a := FRESH.(receiveDone := true, dispatcherDone := true, senderDone := true,
                phase := CloseReturned))
  {
    hide Run, OnA;
    ClosingRun(START, 7);
    assert CLOSING[..8] == CLOSING[..7] + [DoContinueClose] && CLOSING == CLOSING[..8] + [DoContinueClose];
    RunOnALast(START, CLOSING[..7], DoContinueClose);
    RunOnALast(START, CLOSING[..8], DoContinueClose);
  }

  /** For instance, a request made after `close()` has returned is never settled. */
  lemma LateRequestHangs(c: Call, trace: seq<(bool, Action)>)
    ensures var s := Run(START, OnA(CLOSING) + ([(true, DoSendRequest(c))] + trace));
            |s.a.futures| > 0 && s.a.futures[0] in {Waiting, Cancelled}
  {
    hide Run;
    IdleCloses();
    var closed := Run(START, OnA(CLOSING));
    var asked := Step(closed, true, DoSendRequest(c));
    RunAppend(START, OnA(CLOSING), [(true, DoSendRequest(c))] + trace);
    RunFirst(closed, true, DoSendRequest(c), trace);
    assert asked.a.futures == [Waiting] && Closed(asked.a);
    hide Step, OnA, Closed;
    ClosedNeverSettles(asked, trace, 0);
  }

  /** The steps of a `close()` during which a request is made behind the sentinel of the sender. */
  function RequestInClose(c: Call): seq<(bool, Action)> {
    OnA(CLOSING[..5]) + OnA([DoSendRequest(c)] + CLOSING[5..])
  }

  /** An endpoint that made its first request behind the sentinel. */
  function AskedInClose(c: Call, m: Message): Endpoint {
    FRESH.(nextId := 1, futures := [Waiting], callers := [Calling], outgoing := map[0 := 0], issued := [c], sent := [m],
           phase := SenderClosing, receiveDone := true, dispatcherDone := true, sendQueue := [None, Some(m)])
  }

  /** The same endpoint when `close()` has returned. */
  function AskedAndClosed(c: Call, m: Message): Endpoint {
    AskedInClose(c, m).(phase := CloseReturned, futures := [Rejected(ConnectionLost)], outgoing := map[],
      senderDone := true, sendQueue := [Some(m)])
  }

  lemma AskedThenClosed(s: System, c: Call, m: Message)
    requires s.a == AskedInClose(c, m)
    ensures Run(s, OnA(CLOSING[5..])) == s.(a := AskedAndClosed(c, m))
  {
    var s7 := s.(a := s.a.(sendQueue := [Some(m)], senderDone := true));
    var s8, s9 := s7.(a := s7.a.(phase := HandlersCancelled)), s7.(a := s7.a.(phase := TasksCancelled));
    assert Step(s, true, DoTransmit) == s7 && Step(s7, true, DoContinueClose) == s8;
    assert Step(s8, true, DoContinueClose) == s9;
    LastPart(s9, c, m);
    hide Run, OnA, Step, AskedInClose, AskedAndClosed;
    RunOnA(s, DoTransmit, CLOSING[6..]);
    RunOnA(s7, DoContinueClose, CLOSING[7..]);
    RunOnA(s8, DoContinueClose, CLOSING[8..]);
    RunOnA(s9, DoContinueClose, []);
    RunNothing(s.(a := AskedAndClosed(c, m)));
    assert CLOSING[5..] == [DoTransmit] + CLOSING[6..] && CLOSING[6..] == [DoContinueClose] + CLOSING[7..];
    assert CLOSING[7..] == [DoContinueClose] + CLOSING[8..] && CLOSING[8..] == [DoContinueClose] + [];
  }

  lemma LastPart(s: System, c: Call, m: Message)
    requires s.a == AskedInClose(c, m).(sendQueue := [Some(m)], senderDone := true, phase := TasksCancelled)
    ensures Step(s, true, DoContinueClose) == s.(a := AskedAndClosed(c, m))
  {
    assert s.a.outgoing[0] in s.a.outgoing.Values;
    assert RejectAll(s.a).futures == [Rejected(ConnectionLost)];
  }

  lemma RequestInCloseRun(c: Call, m: Message)
    requires c.encodable && m == Request(0, c.name, c.params)
    ensures Run(START, RequestInClose(c)) == START.(a := AskedAndClosed(c, m))
  {
    var s5, s6 := START.(a := ClosingAfter(FRESH, 5)), START.(a := AskedInClose(c, m));
    assert Step(s5, true, DoSendRequest(c)) == s6;
    hide Run, OnA, Step, ClosingAfter, AskedInClose, AskedAndClosed;
    ClosingRun(START, 5);
    RunAppend(START, OnA(CLOSING[..5]), OnA([DoSendRequest(c)] + CLOSING[5..]));
    RunOnA(s5, DoSendRequest(c), CLOSING[5..]);
    AskedThenClosed(s6, c, m);
  }

  /** For instance, a request made while `close()` waits for the sender: its future is rejected,
      `close()` returns, and whatever happens then its caller returns only if it is cancelled. */
  lemma RequestInCloseHangs(name: string, params: Json, trace: seq<(bool, Action)>)
    ensures var s := Run(START, RequestInClose(Call(name, params, true)));
            && s.a.phase.CloseReturned? && s.a.callers == [Calling] && s.a.futures == [Rejected(ConnectionLost)]
            && var e := Run(s, trace).a;
               0 < |e.callers| == |e.futures| && (CallerReturned(e, 0) <==> e.callers[0].Gone?)
  {
    hide Run, RequestInClose, CallerReturned;
    var c, m := Call(name, params, true), Request(0, name, params);
    RequestInCloseRun(c, m);
    var s := START.(a := AskedAndClosed(c, m));
    assert s.a.sendQueue[0] == Some(m) && Queued(s.a.sendQueue, 0);
    ReachableInv(RequestInClose(c));
    hide Queued, SystemInv;
    NeverReturns(s, trace, 0);
  }

  /** A request of the peer that is being handled. */
  function HandledAtA(name: string, params: Json): seq<(bool, Action)> {
    [(false, DoSendRequest(Call(name, params, true))), (false, DoTransmit), (true, DoReceive), (true, DoDispatch)]
  }

  lemma PeerAsks(call: Call, m: Message)
    requires call.encodable && m == Request(0, call.name, call.params)
    ensures var s := Run(START, [(false, DoSendRequest(call)), (false, DoTransmit)]);
            s.a == FRESH && s.toA == [m] && s.toB == []
  {
    var ask := DoSendRequest(call);
    var s1 := Step(START, false, ask);
    assert s1.a == FRESH && s1.b.sendQueue == [Some(m)] && s1.toA == s1.toB == [] && !s1.b.senderDone;
    hide Run;
    RunPair(START, false, ask, false, DoTransmit);
  }

  lemma HandlingStarts(s: System, m: RequestMessage)
    requires s.a == FRESH && s.toA == [m]
    ensures Run(s, [(true, DoReceive), (true, DoDispatch)]).a == FRESH.(received := [m], running := [m])
  {
    var s1 := s.(a := FRESH.(received := [m], taskQueue := [Some(m)]), toA := []);
    assert Step(s, true, DoReceive) == s1;
    hide Run;
    RunPair(s, true, DoReceive, true, DoDispatch);
  }

  lemma HandlerRunsAtA(name: string, params: Json)
    ensures var s, m := Run(START, HandledAtA(name, params)), Request(0, name, params);
            s.a == FRESH.(received := [m], running := [m])
  {
    hide Run;
    var call, m := Call(name, params, true), Request(0, name, params);
    PeerAsks(call, m);
    var first, rest := [(false, DoSendRequest(call)), (false, DoTransmit)], [(true, DoReceive), (true, DoDispatch)];
    HandlingStarts(Run(START, first), m);
    assert HandledAtA(name, params) == first + rest;
    RunAppend(START, first, rest);
  }

  lemma RunPair(s: System, onA: bool, a: Action, onA': bool, a': Action)
    ensures Run(s, [(onA, a), (onA', a')]) == Step(Step(s, onA, a), onA', a')
  {
    assert [(onA, a), (onA', a')] == [(onA, a)] + ([(onA', a')] + []);
    RunFirst(s, onA, a, [(onA', a')] + []);
    RunFirst(Step(s, onA, a), onA', a', []);
    hide Step;
  }

  /** For instance, a handler that returns a value when `close()` cancels it, as the one for
      prompts does: `close()` never returns, whatever either side does then. */
  lemma AnsweringHandlerHangs(name: string, params: Json, v: Json, trace: seq<(bool, Action)>)
    ensures var closing := HandledAtA(name, params) + OnA(CLOSING[..7] + [DoFinish(0, Returned(v, true))]);
            Run(START, closing + trace).a.phase.HandlersCancelled?
  {
    var handled, finish := HandledAtA(name, params), DoFinish(0, Returned(v, true));
    var s4 := Run(START, handled);
    HandlerRunsAtA(name, params);
    var s11 := s4.(a := ClosingAfter(s4.a, 7));
    var s12 := Step(s11, true, finish);
    assert s12.a.phase.HandlersCancelled? && s12.a.stuck == [Request(0, name, params)] && s12.a.receiveDone;
    hide Run, Step, OnA, HandledAtA;
    ClosingRun(s4, 7);
    RunOnALast(s4, CLOSING[..7], finish);
    RunAppend(START, handled, OnA(CLOSING[..7] + [finish]));
    RunAppend(START, handled + OnA(CLOSING[..7] + [finish]), trace);
    StuckForever(s12, trace);
  }

  /** For instance, a result that cannot be encoded: everything was delivered and handled, and
      the caller still waits. */
  lemma UnencodableResultHangs(name: string, params: Json, v: Json)
    ensures var s := Run(START, [(true, DoSendRequest(Call(name, params, true))), (true, DoTransmit),
              (false, DoReceive),
                                 (false, DoDispatch), (false, DoFinish(0, Returned(v, false)))]);
            Quiet(s) && s.a.futures == [Waiting]
  {
    var call, m := Call(name, params, true), Request(0, name, params);
    var ask, finish := DoSendRequest(call), DoFinish(0, Returned(v, false));
    var s1 := Step(START, true, ask);
    assert s1 == START.(a := FRESH.(nextId := 1, futures := [Waiting], callers := [Calling],
                                    outgoing := map[0 := 0], issued := [call],
                                    sendQueue := [Some(m)], sent := [m]));
    var s2 := Step(s1, true, DoTransmit);
    assert s2 == s1.(a := s1.a.(sendQueue := []), toB := [m]);
    var s3 := Step(s2, false, DoReceive);
    assert s3 == s2.(b := FRESH.(received := [m], taskQueue := [Some(m)]), toB := []);
    var s4 := Step(s3, false, DoDispatch);
    assert s4 == s3.(b := s3.b.(taskQueue := [], running := [m]));
    var s5 := Step(s4, false, finish);
    assert s5 == s4.(b := s4.b.(running := [], served := [Served(m, Returned(v, false))]));
    hide Run, Step;
    var t5 := [(false, finish)] + [];
    var t4 := [(false, DoDispatch)] + t5;
    var t3 := [(false, DoReceive)] + t4;
    var t2 := [(true, DoTransmit)] + t3;
    RunFirst(s4, false, finish, []);
    RunFirst(s3, false, DoDispatch, t5);
    RunFirst(s2, false, DoReceive, t4);
    RunFirst(s1, true, DoTransmit, t3);
    RunFirst(START, true, ask, t2);
    RunNothing(s5);
    assert OnA([]) == [];
    assert Quiet(s5);
    hide Quiet, OnA;
    assert [(true, ask)] + t2 == [(true, ask), (true, DoTransmit), (false, DoReceive), (false, DoDispatch),
      (false, finish)];
  }
}
