/** What a run does, told from the entries of its trace: the requests, the notifications and the
    handler runs of either endpoint are exactly those of the trace, and no notification is lost. */
module Histories {
  import opened Lists
  import opened Rpc
  import opened Protocol
  import opened Interleavings
  import opened Options

  // ---- One action ----------------------------------------------------------------------

  function CallsOf(a: Action): seq<Call> {
    if a.DoSendRequest? then [a.call] else []
  }

  /** A notification that cannot be encoded raises in its caller and is not sent. */
  function NoticesOf(a: Action): seq<Message> {
    if a.DoSendNotification? && a.encodable then [Notification(a.name, a.params)] else []
  }

  function RunsOf(running: seq<RequestMessage>, a: Action): seq<Served> {
    if a.DoFinish? && a.k < |running| then [Served(running[a.k], a.result)] else []
  }

  function Notifications(ms: seq<Message>): seq<Message> { FlatMap(NotificationOf, ms) }

  ghost predicate Continues(e: Endpoint, e': Endpoint, a: Action) {
    && e'.issued == e.issued + CallsOf(a)
    && Notifications(e'.sent) == Notifications(e.sent) + NoticesOf(a)
    && e'.served == e.served + RunsOf(e.running, a)
  }

  lemma OneMore(sent: seq<Message>, m: Message)
    ensures Notifications(sent + [m]) == Notifications(sent) + if m.Notification? then [m] else []
  {
    FlatMapSnoc(NotificationOf, sent, m);
  }

  lemma FinishContinues(e: Endpoint, k: nat, result: HandlerResult)
    ensures Continues(e, Finish(e, k, result), DoFinish(k, result))
  {
    hide Notifications, RunRequest;
    if k < |e.running| {
      var m := Reply(e.running[k].id, RunRequest(result));
      ReplyIsNoRequest(e.running[k].id, RunRequest(result));
      hide Reply;
      if m.Some? {
        OneMore(e.sent, m.value);
      }
    }
  }

  lemma SendContinues(e: Endpoint, c: Call, name: string, params: Json)
    ensures Continues(e, SendRequest(e, c), DoSendRequest(c))
    ensures Continues(e, Enqueue(e, Notification(name, params)), DoSendNotification(name, params, true))
  {
    hide Notifications;
    OneMore(e.sent, Request(e.nextId, c.name, c.params));
    OneMore(e.sent, Notification(name, params));
  }

  lemma SameContinues(e: Endpoint, e': Endpoint, a: Action)
    requires e'.issued == e.issued && e'.sent == e.sent && e'.served == e.served
    requires !a.DoSendRequest? && !a.DoFinish? && NoticesOf(a) == []
    ensures Continues(e, e', a)
  {
    hide Notifications;
  }

  lemma ActContinues(l: Local, a: Action)
    ensures Continues(l.e, Act(l, a).e, a)
  {
    hide Continues, SendRequest, Finish, Settle, SettleAll, Settlement;
    var e := l.e;
    match a
    case DoSendRequest(c) => SendContinues(e, c, "", "");
    case DoSendNotification(name, params, encodable) =>
      if encodable {
        SendContinues(e, Call("", "", false), name, params);
      } else {
        SameContinues(e, e, a);
      }
    case DoFinish(k, result) => FinishContinues(e, k, result);
    case _ => SameContinues(e, Act(l, a).e, a);
  }

  // ---- Whole runs ------------------------------------------------------------------------

  function EndOf(s: System, onA: bool): Endpoint { if onA then s.a else s.b }

  /** The calls of one side in a trace. */
  function Calls(trace: seq<(bool, Action)>, onA: bool): seq<Call> {
    if trace == [] then []
    else Calls(Init(trace), onA) + if Last(trace).0 == onA then CallsOf(Last(trace).1) else []
  }

  /** The notifications of one side in a trace. */
  function Notices(trace: seq<(bool, Action)>, onA: bool): seq<Message> {
    if trace == [] then []
    else Notices(Init(trace), onA) + if Last(trace).0 == onA then NoticesOf(Last(trace).1) else []
  }

  /** The handler runs that end on one side in a trace. */
  function Runs(trace: seq<(bool, Action)>, onA: bool): seq<Served> {
    if trace == [] then []
    else
      var s := Run(START, Init(trace));
      Runs(Init(trace), onA) + if Last(trace).0 == onA then RunsOf(EndOf(s, onA).running, Last(trace).1) else []
  }

  /** The histories of an endpoint are what the entries of the trace say: every call, every
      encodable notification and every handler that ended, each once and in order. */
  lemma {:induction false} HistoriesFollowTrace(trace: seq<(bool, Action)>, onA: bool)
    ensures var e := EndOf(Run(START, trace), onA);
            && e.issued == Calls(trace, onA)
            && Notifications(e.sent) == Notices(trace, onA)
            && e.served == Runs(trace, onA)
  {
    hide Run, Notifications, CallsOf, NoticesOf, RunsOf;
    if trace == [] {
      NothingYet(onA);
    } else {
      var before, entry := Init(trace), Last(trace);
      HistoriesFollowTrace(before, onA);
      assert trace == before + [entry];
      RunLast(START, before, entry.0, entry.1);
      StepContinues(Run(START, before), entry.0, entry.1, onA);
    }
  }

  lemma NothingYet(onA: bool)
    ensures var e := EndOf(Run(START, []), onA); e.issued == [] && Notifications(e.sent) == [] && e.served == []
  {
  }

  lemma StepContinues(s: System, side: bool, a: Action, onA: bool)
    ensures var e, e' := EndOf(s, onA), EndOf(Step(s, side, a), onA);
            if side == onA then Continues(e, e', a) else e' == e
  {
    hide Continues, Act;
    ActContinues(if side then Local(s.a, s.toA, s.toB) else Local(s.b, s.toB, s.toA), a);
  }

  /** Main result for notifications: at any moment, those given to a handler of the receiver,
      those queued there, those in flight and those unsent are together, in this order, the
      notifications of the sender. Once nothing is on its way, every one has been given to a
      handler exactly once, in the order in which they were sent. */
  lemma NotificationsArriveInOrder(trace: seq<(bool, Action)>, onA: bool)
    ensures var s := if onA then Run(START, trace) else Swap(Run(START, trace));
            && Notices(trace, onA) ==
                 s.b.noticed + Notifications(Items(s.b.taskQueue)) + Notifications(s.toB) + Notifications(Unsent(s.a))
            && (Quiet(s) ==> s.b.noticed == Notices(trace, onA))
  {
    hide Run, SystemInv;
    ReachableInv(trace);
    HistoriesFollowTrace(trace, onA);
    var s := Run(START, trace);
    SwapInv(s);
    hide Notices;
    if onA {
      NotificationsAreSomewhere(s);
    } else {
      NotificationsAreSomewhere(Swap(s));
    }
  }

  lemma NotificationsAreSomewhere(s: System)
    requires SystemInv(s)
    ensures Notifications(s.a.sent) ==
              s.b.noticed + Notifications(Items(s.b.taskQueue)) + Notifications(s.toB) + Notifications(Unsent(s.a))
    ensures Quiet(s) ==> s.b.noticed == Notifications(s.a.sent)
  {
    assert s.b.received + s.toB + Unsent(s.a) == s.a.sent;
    assert Accounted(s.b);
    assert Notifications([]) == [] && Items([]) == [] && (Quiet(s) ==> Unsent(s.a) == []);
    hide SystemInv, Items, FlatMap, Unsent, Tracked, Spoken;
    FlatMapAppend(NotificationOf, s.b.received + s.toB, Unsent(s.a));
    FlatMapAppend(NotificationOf, s.b.received, s.toB);
  }
}
