/** Two open endpoints can always finish what is under way: their own turns, with whatever the
    handlers do, bring any reachable state to rest, and then every request has its outcome. */
module Progress {
  import opened Lists
  import opened Rpc
  import opened Protocol
  import opened Interleavings
  import opened Options

  /** All loops run. */
  ghost predicate Alive(e: Endpoint) {
    e.phase.Open? && !e.receiveDone && !e.senderDone
  }

  ghost predicate BothAlive(s: System) { SystemInv(s) && Alive(s.a) && Alive(s.b) }

  predicate AtRest(e: Endpoint, inbound: seq<Message>) {
    e.sendQueue == [] && inbound == [] && e.taskQueue == [] && e.running == []
  }

  /** Turns of the loops, and handlers that end as `answer` says. */
  predicate IsTurn(e: Endpoint, a: Action, answer: RequestMessage -> HandlerResult) {
    match a
    case DoTransmit => true
    case DoReceive => true
    case DoDispatch => true
    case DoFinish(k, result) => k < |e.running| && result == answer(e.running[k])
    case _ => false
  }

  // ---- How far a message still has to go ---------------------------------------------------

  function ToSend(m: Message): nat { match m case Request(_, _, _) => 6 case Notification(_, _) => 3 case _ => 2 }

  function ToReceive(m: Message): nat { match m case Request(_, _, _) => 5 case Notification(_, _) => 2 case _ => 1 }

  function ToDispatch(m: Message): nat { match m case Request(_, _, _) => 4 case _ => 1 }

  function Sum(f: Message -> nat, ms: seq<Message>): nat {
    if ms == [] then 0 else f(ms[0]) + Sum(f, ms[1..])
  }

  lemma {:induction false} SumSnoc(f: Message -> nat, ms: seq<Message>, m: Message)
    ensures Sum(f, ms + [m]) == Sum(f, ms) + f(m)
  {
    if ms == [] {
      assert ([] + [m])[1..] == [];
    } else {
      SumSnoc(f, ms[1..], m);
      assert (ms + [m])[1..] == ms[1..] + [m];
    }
  }

  function Load(e: Endpoint): nat {
    Sum(ToSend, Items(e.sendQueue)) + Sum(ToDispatch, Items(e.taskQueue)) + 3 * |e.running|
  }

  function Distance(s: System): nat {
    Load(s.a) + Sum(ToReceive, s.toA) + Load(s.b) + Sum(ToReceive, s.toB)
  }

  // ---- One turn ---------------------------------------------------------------------------

  /** From `e` to `e'` no request was given up, and handlers ended as `answer` says. */
  ghost predicate Follows(e: Endpoint, e': Endpoint, answer: RequestMessage -> HandlerResult) {
    && |e'.futures| == |e.futures|
    && (forall i: nat | i < |e.futures| :: GivenUp(e'.futures[i]) ==> GivenUp(e.futures[i]))
    && e.served <= e'.served
    && forall r | r in e'.served[|e.served|..] :: r.result == answer(r.request)
  }

  lemma FollowsOn(e: Endpoint, e1: Endpoint, e2: Endpoint, answer: RequestMessage -> HandlerResult)
    requires Follows(e, e1, answer) && Follows(e1, e2, answer)
    ensures Follows(e, e2, answer)
  {
    hide GivenUp;
    assert e2.served[|e.served|..] == e1.served[|e.served|..] + e2.served[|e1.served|..];
  }

  lemma FollowsSame(e: Endpoint, e': Endpoint, answer: RequestMessage -> HandlerResult)
    requires e'.futures == e.futures && e'.served == e.served
    ensures Follows(e, e', answer)
  {
    hide GivenUp;
  }

  /** What the other lemmas say of one turn. */
  ghost predicate GoesOn(l: Local, l': Local, answer: RequestMessage -> HandlerResult) {
    && Alive(l'.e) && Follows(l.e, l'.e, answer)
    && Load(l'.e) + Sum(ToReceive, l'.inbound) + Sum(ToReceive, l'.outbound)
         < Load(l.e) + Sum(ToReceive, l.inbound) + Sum(ToReceive, l.outbound)
  }

  lemma TransmitGoesOn(l: Local, answer: RequestMessage -> HandlerResult)
    requires Alive(l.e) && l.e.sendQueue != [] && l.e.sendQueue[0].Some?
    ensures GoesOn(l, Act(l, DoTransmit), answer)
  {
    var m, l' := l.e.sendQueue[0].value, Act(l, DoTransmit);
    ItemsHead(l.e.sendQueue);
    SumSnoc(ToReceive, l.outbound, m);
    assert Sum(ToSend, Items(l.e.sendQueue)) == ToSend(m) + Sum(ToSend, Items(l.e.sendQueue[1..]));
    FollowsSame(l.e, l'.e, answer);
    hide Items, Sum, Follows;
  }

  lemma ReceiveGoesOn(l: Local, answer: RequestMessage -> HandlerResult)
    requires Alive(l.e) && l.inbound != []
    ensures GoesOn(l, Act(l, DoReceive), answer)
  {
    var m, l' := l.inbound[0], Act(l, DoReceive);
    FlatMapSnoc(ItemOf, l.e.taskQueue, Some(m));
    SumSnoc(ToDispatch, Items(l.e.taskQueue), m);
    assert Sum(ToReceive, l.inbound) == ToReceive(m) + Sum(ToReceive, l.inbound[1..]);
    hide Sum, FlatMap;
    ReceiveFollows(l.e, m, answer);
    hide Follows, Settlement, Settle;
  }

  lemma ReceiveFollows(e: Endpoint, m: Message, answer: RequestMessage -> HandlerResult)
    ensures Follows(e, Process(e, m), answer)
  {
    assert m.Response? ==> !GivenUp(Settlement(m));
    hide Settlement, GivenUp;
  }

  lemma DispatchGoesOn(l: Local, answer: RequestMessage -> HandlerResult)
    requires Alive(l.e) && !l.e.dispatcherDone && l.e.taskQueue != [] && l.e.taskQueue[0].Some?
    ensures GoesOn(l, Act(l, DoDispatch), answer)
  {
    var m, l' := l.e.taskQueue[0].value, Act(l, DoDispatch);
    ItemsHead(l.e.taskQueue);
    assert Sum(ToDispatch, Items(l.e.taskQueue)) == ToDispatch(m) + Sum(ToDispatch, Items(l.e.taskQueue[1..]));
    FollowsSame(l.e, l'.e, answer);
    hide Items, Sum, Follows;
  }

  lemma FinishGoesOn(l: Local, answer: RequestMessage -> HandlerResult)
    requires Alive(l.e) && l.e.running != []
    ensures GoesOn(l, Act(l, DoFinish(0, answer(l.e.running[0]))), answer)
  {
    var request := l.e.running[0];
    var result := answer(request);
    var m, l' := Reply(request.id, RunRequest(result)), Act(l, DoFinish(0, result));
    ReplyIsNoRequest(request.id, RunRequest(result));
    hide Reply, RunRequest;
    if m.Some? {
      FlatMapSnoc(ItemOf, l.e.sendQueue, m);
      SumSnoc(ToSend, Items(l.e.sendQueue), m.value);
    }
    hide Sum, FlatMap, GivenUp;
    assert l'.e.served == l.e.served + [Served(request, result)];
  }

  /** A turn that an endpoint with something to do can take. */
  function NextTurn(e: Endpoint, inbound: seq<Message>, answer: RequestMessage -> HandlerResult): Action {
    if e.sendQueue != [] then DoTransmit
    else if inbound != [] then DoReceive
    else if e.taskQueue != [] then DoDispatch
    else if e.running != [] then DoFinish(0, answer(e.running[0]))
    else DoTransmit
  }

  lemma NothingStopped(e: Endpoint)
    requires Inv(e) && e.phase.Open?
    ensures !e.dispatcherDone
    ensures e.sendQueue != [] ==> e.sendQueue[0].Some?
    ensures e.taskQueue != [] ==> e.taskQueue[0].Some?
  {
    hide Numbered, Accounted, Called;
    assert Lifecycle(e);
    assert e.sendQueue != [] ==> e.sendQueue[0] in e.sendQueue;
    assert e.taskQueue != [] ==> e.taskQueue[0] in e.taskQueue;
  }

  lemma TurnGoesOn(l: Local, answer: RequestMessage -> HandlerResult)
    requires Inv(l.e) && Alive(l.e) && !AtRest(l.e, l.inbound)
    ensures var a := NextTurn(l.e, l.inbound, answer); IsTurn(l.e, a, answer) && GoesOn(l, Act(l, a), answer)
  {
    hide Inv, Act, GoesOn;
    var e := l.e;
    NothingStopped(e);
    if e.sendQueue != [] {
      TransmitGoesOn(l, answer);
    } else if l.inbound != [] {
      ReceiveGoesOn(l, answer);
    } else if e.taskQueue != [] {
      DispatchGoesOn(l, answer);
    } else {
      FinishGoesOn(l, answer);
    }
  }

  // ---- Runs --------------------------------------------------------------------------------

  /** Every entry of the trace is a turn. */
  ghost predicate OnlyTurns(s: System, trace: seq<(bool, Action)>, answer: RequestMessage -> HandlerResult)
    decreases |trace|
  {
    trace != [] ==>
      && IsTurn(if trace[0].0 then s.a else s.b, trace[0].1, answer)
      && OnlyTurns(Step(s, trace[0].0, trace[0].1), trace[1..], answer)
  }

  lemma FollowsItself(e: Endpoint, answer: RequestMessage -> HandlerResult)
    ensures Follows(e, e, answer)
  {
  }

  lemma StepGoesOn(s: System, answer: RequestMessage -> HandlerResult)
    requires BothAlive(s) && !AtRest(s.a, s.toA)
    ensures var a := NextTurn(s.a, s.toA, answer);
            var s' := StepA(s, a);
            && IsTurn(s.a, a, answer) && BothAlive(s') && Distance(s') < Distance(s)
            && Follows(s.a, s'.a, answer) && s'.b == s.b
  {
    StepKeepsInv(s, true, NextTurn(s.a, s.toA, answer));
    InvOf(s);
    hide SystemInv, Act, Inv, Alive, Load, Sum, AtRest, NextTurn, IsTurn, Follows;
    TurnGoesOn(Local(s.a, s.toA, s.toB), answer);
  }

  lemma SwapAlive(s: System)
    requires BothAlive(s)
    ensures BothAlive(Swap(s)) && Distance(Swap(s)) == Distance(s)
  {
    hide SystemInv, Load, Sum;
    SwapInv(s);
  }

  /** Something to do on either side makes a step. */
  lemma SideGoesOn(s: System, onA: bool, answer: RequestMessage -> HandlerResult)
    requires BothAlive(s) && (if onA then !AtRest(s.a, s.toA) else !AtRest(s.b, s.toB))
    ensures var a := if onA then NextTurn(s.a, s.toA, answer) else NextTurn(s.b, s.toB, answer);
            var s' := Step(s, onA, a);
            && IsTurn(if onA then s.a else s.b, a, answer) && BothAlive(s') && Distance(s') < Distance(s)
            && Follows(s.a, s'.a, answer) && Follows(s.b, s'.b, answer)
  {
    hide BothAlive, AtRest, NextTurn, IsTurn, Distance, StepA, Follows;
    FollowsItself(s.a, answer);
    FollowsItself(s.b, answer);
    if onA {
      StepGoesOn(s, answer);
    } else {
      SwapAlive(s);
      StepGoesOn(Swap(s), answer);
      SwapAlive(StepA(Swap(s), NextTurn(s.b, s.toB, answer)));
    }
  }

  /** From any reachable state of two open endpoints, turns of their loops lead to rest, whatever
      the handlers do; on the way no request is given up. */
  lemma ComesToRest(s: System, answer: RequestMessage -> HandlerResult) returns (trace: seq<(bool, Action)>)
    requires BothAlive(s)
    ensures OnlyTurns(s, trace, answer)
    ensures var s' := Run(s, trace);
            && BothAlive(s') && AtRest(s'.a, s'.toA) && AtRest(s'.b, s'.toB)
            && Follows(s.a, s'.a, answer) && Follows(s.b, s'.b, answer)
    decreases Distance(s)
  {
    hide BothAlive, AtRest, NextTurn, IsTurn, Distance, Step, Follows;
    if AtRest(s.a, s.toA) && AtRest(s.b, s.toB) {
      FollowsItself(s.a, answer);
      FollowsItself(s.b, answer);
      return [];
    }
    var onA := !AtRest(s.a, s.toA);
    var a := if onA then NextTurn(s.a, s.toA, answer) else NextTurn(s.b, s.toB, answer);
    SideGoesOn(s, onA, answer);
    var s1 := Step(s, onA, a);
    var rest := ComesToRest(s1, answer);
    trace := [(onA, a)] + rest;
    assert trace[1..] == rest;
    FollowsOn(s.a, s1.a, Run(s1, rest).a, answer);
    FollowsOn(s.b, s1.b, Run(s1, rest).b, answer);
  }

  lemma RestIsQuiet(s: System)
    requires BothAlive(s) && AtRest(s.a, s.toA) && AtRest(s.b, s.toB)
    ensures Quiet(s) && SystemInv(s)
  {
    assert Lifecycle(s.a) && Lifecycle(s.b);
  }

  /** At rest, a request is answered if its peer's handlers could answer all along. */
  lemma AnsweredAtRest(s: System, i: nat)
    requires SystemInv(s) && Quiet(s) && forall r | r in s.b.served :: !CannotAnswer(r.result)
    requires i < |s.a.futures| == |s.a.issued| && s.a.issued[i].encodable && !GivenUp(s.a.futures[i])
    ensures Answered(s.a.futures[i])
  {
    hide SystemInv, Quiet, CannotAnswer, GivenUp;
    var r := QuietMeansHandled(s, i);
    RunIsUnique(s, r);
    QuietMeansAnswered(s, i);
  }

  lemma AllCouldAnswer(e: Endpoint, e': Endpoint, answer: RequestMessage -> HandlerResult)
    requires Follows(e, e', answer) && (forall m: RequestMessage :: !CannotAnswer(answer(m)))
    requires forall r | r in e.served :: !CannotAnswer(r.result)
    ensures forall r | r in e'.served :: !CannotAnswer(r.result)
  {
    hide CannotAnswer, GivenUp;
    assert e'.served == e.served + e'.served[|e.served|..];
  }

  /** Main result for open connections: from any reachable state, if the handlers can answer (and
      did so far), turns of the loops answer every encodable request that nobody gave up. */
  lemma EveryRequestIsAnswered(s: System, answer: RequestMessage -> HandlerResult) returns (trace: seq<(bool, Action)>)
    requires BothAlive(s) && forall m: RequestMessage :: !CannotAnswer(answer(m))
    requires forall r | r in s.b.served :: !CannotAnswer(r.result)
    ensures OnlyTurns(s, trace, answer)
    ensures var e := Run(s, trace).a;
            && |e.futures| == |s.a.futures| == |e.issued|
            && forall i: nat | i < |e.futures| && e.issued[i].encodable && !GivenUp(s.a.futures[i]) ::
                 Answered(e.futures[i])
  {
    hide Run, OnlyTurns, SystemInv, Inv, CannotAnswer, GivenUp, AtRest, Quiet, Alive, BothAlive;
    trace := ComesToRest(s, answer);
    var s' := Run(s, trace);
    RestIsQuiet(s');
    InvOf(s');
    NextIsIssued(s'.a);
    AllCouldAnswer(s.b, s'.b, answer);
    forall i: nat | i < |s'.a.futures| && s'.a.issued[i].encodable && !GivenUp(s.a.futures[i])
      ensures Answered(s'.a.futures[i])
    {
      AnsweredAtRest(s', i);
    }
  }
}
