/** The WebSocket heartbeat: pings at a fixed interval, and closing after several pongs in a
    row were missed. Time is exact; only sleeping and waiting for a pong take time. */
module Heartbeat {
  import opened Options

  /** What happens to one ping (sections 5.5.2 and 5.5.3 of RFC 6455): a pong after some delay,
      no pong within the timeout, or, after some delay, a closed connection or another exception. */
  datatype PingResult = Pong(delay: real) | Timeout | ConnectionClosed(delay: real) | Broken(delay: real)

  datatype Settings = Settings(pingInterval: real, pongTimeout: real, maxMissedPongs: nat)

  /** `_validate_websocket_heartbeat` and the check of the interval. */
  predicate Valid(s: Settings) {
    s.pingInterval > 0.0 && s.pongTimeout > 0.0 && s.maxMissedPongs > 0
  }

  /** `_effective_websocket_pong_timeout`. */
  function EffectivePongTimeout(interval: Option<real>, pongTimeout: real, maxMissedPongs: int): Option<real> {
    match interval
    case None => None
    case Some(i) => Some(pongTimeout * maxMissedPongs as real + i * (maxMissedPongs - 1) as real)
  }

  /** Without pings there is no timeout; with pings it is as long as the misses that are tolerated
      and the intervals between them. */
  lemma TimeoutOnlyWithPings(interval: Option<real>, pongTimeout: real, maxMissedPongs: int)
    ensures EffectivePongTimeout(interval, pongTimeout, maxMissedPongs).Some? <==> interval.Some?
    ensures maxMissedPongs == 1 && interval.Some? ==>
              EffectivePongTimeout(interval, pongTimeout, maxMissedPongs) == Some(pongTimeout)
  {
    if maxMissedPongs == 1 && interval.Some? {
      var one, none := maxMissedPongs as real, (maxMissedPongs - 1) as real;
      assert one == 1.0 && none == 0.0;
      assert pongTimeout * one == pongTimeout && interval.value * none == 0.0;
    }
  }

  /** How the heartbeat stands after a finite number of pings. */
  datatype Verdict = Beating | ClosedForPongTimeout | ClosedForFailure | Stopped

  predicate EndsTask(r: PingResult) { r.ConnectionClosed? || r.Broken? }

  /** The last `n` of these results are all timeouts. */
  predicate MissedLast(results: seq<PingResult>, n: nat) {
    n <= |results| && forall i | |results| - n <= i < |results| :: results[i].Timeout?
  }

  /** The heartbeat does not end before its `k`-th result. */
  predicate Survives(results: seq<PingResult>, n: nat, k: nat)
    requires k <= |results|
  {
    forall j | 0 <= j < k :: !EndsTask(results[j]) && !MissedLast(results[..j + 1], n)
  }

  /** How long a ping keeps the loop waiting. */
  function Waited(r: PingResult, pongTimeout: real): real {
    match r
    case Pong(delay) => delay
    case Timeout => pongTimeout
    case ConnectionClosed(delay) => delay
    case Broken(delay) => delay
  }

  /** When the ping number `k` is sent, from the start of the heartbeat. */
  function SendTime(s: Settings, results: seq<PingResult>, k: nat): real
    requires k <= |results|
  {
    if k == 0 then s.pingInterval
    else SendTime(s, results, k - 1) + Waited(results[k - 1], s.pongTimeout) + s.pingInterval
  }

  lemma NotAllMissed(results: seq<PingResult>, n: nat, i: int)
    requires |results| - n <= i < |results|
    requires i < 0 || !results[i].Timeout?
    ensures !MissedLast(results, n)
  {
  }

  lemma SurvivesNext(results: seq<PingResult>, n: nat, k: nat)
    requires k < |results| && Survives(results, n, k)
    requires !EndsTask(results[k]) && !MissedLast(results[..k + 1], n)
    ensures Survives(results, n, k + 1)
  {
  }

  /** `_websocket_heartbeat` against any sequence of ping results: `pings` pings are sent, and
      `clock` is the time of the verdict. The socket is closed for pong timeout exactly when
      the last `maxMissedPongs` pings were all missed, never earlier and never for another
      reason. */
  method Run(s: Settings, results: seq<PingResult>) returns (verdict: Verdict, pings: nat, clock: real)
    requires Valid(s)
    ensures pings <= |results|
    ensures verdict.Beating? ==> pings == |results| && Survives(results, s.maxMissedPongs, pings)
    ensures !verdict.Beating? ==> pings > 0 && Survives(results, s.maxMissedPongs, pings - 1)
    ensures verdict.ClosedForPongTimeout? <==> MissedLast(results[..pings], s.maxMissedPongs)
    ensures verdict.ClosedForFailure? <==> pings > 0 && results[pings - 1].Broken?
    ensures verdict.Stopped? <==> pings > 0 && results[pings - 1].ConnectionClosed?
    ensures !verdict.Beating? ==>
              clock == SendTime(s, results, pings - 1) +
                if results[pings - 1].Timeout? then s.pongTimeout else results[pings - 1].delay
  {
    var missed := 0;
    pings, clock := 0, 0.0;
    while pings < |results|
      invariant pings <= |results|
      invariant missed < s.maxMissedPongs && MissedLast(results[..pings], missed)
      invariant missed < pings ==> !results[pings - 1 - missed].Timeout?
      invariant Survives(results, s.maxMissedPongs, pings)
      invariant clock + s.pingInterval == SendTime(s, results, pings)
    {
      clock := clock + s.pingInterval;
      var r := results[pings];
      pings := pings + 1;
      clock := clock + Waited(r, s.pongTimeout);
      assert results[..pings] == results[..pings - 1] + [r];
      match r {
        case Pong(_) =>
          missed := 0;
          NotAllMissed(results[..pings], s.maxMissedPongs, pings - 1);
          SurvivesNext(results, s.maxMissedPongs, pings - 1);
        case Timeout =>
          missed := missed + 1;
          if missed >= s.maxMissedPongs {
            return ClosedForPongTimeout, pings, clock;
          }
          NotAllMissed(results[..pings], s.maxMissedPongs, pings - 1 - missed);
          SurvivesNext(results, s.maxMissedPongs, pings - 1);
        case ConnectionClosed(_) =>
          return Stopped, pings, clock;
        case Broken(_) =>
          return ClosedForFailure, pings, clock;
      }
    }
    verdict := Beating;
  }

  /** From the sending of a missed ping to the sending of the `m`-th one after it. */
  function Spacing(s: Settings, m: nat): real {
    m as real * (s.pongTimeout + s.pingInterval)
  }

  lemma SpacingGrows(s: Settings, m: nat)
    requires m > 0
    ensures Spacing(s, m) == Spacing(s, m - 1) + s.pongTimeout + s.pingInterval
  {
    assert m as real == (m - 1) as real + 1.0;
  }

  lemma {:induction false} MissedPingsSpacing(s: Settings, results: seq<PingResult>, k: nat, m: nat)
    requires m <= k <= |results|
    requires forall i | k - m <= i < k :: results[i].Timeout?
    ensures SendTime(s, results, k) == SendTime(s, results, k - m) + Spacing(s, m)
  {
    if m == 0 {
      assert Spacing(s, 0) == 0.0;
    } else {
      hide Spacing;
      MissedPingsSpacing(s, results, k - 1, m - 1);
      SpacingGrows(s, m);
      assert SendTime(s, results, k) == SendTime(s, results, k - 1) + s.pongTimeout + s.pingInterval;
    }
  }

  /** A ping that was answered is followed by the next one after the delay of its pong and one
      interval; one that was missed, after the timeout and one interval. */
  lemma NextPing(s: Settings, results: seq<PingResult>, k: nat)
    requires k < |results|
    ensures SendTime(s, results, 0) == s.pingInterval
    ensures results[k].Pong? ==>
              SendTime(s, results, k + 1) == SendTime(s, results, k) + results[k].delay + s.pingInterval
    ensures results[k].Timeout? ==>
              SendTime(s, results, k + 1) == SendTime(s, results, k) + s.pongTimeout + s.pingInterval
  {
  }

  lemma Distribute(t: real, i: real, d: real)
    ensures t * (d + 1.0) + i * d == d * (t + i) + t
  {
  }

  lemma WindowIsSpacing(s: Settings)
    requires Valid(s)
    ensures var n := s.maxMissedPongs;
            var timeout := EffectivePongTimeout(Some(s.pingInterval), s.pongTimeout, n);
            timeout.Some? && timeout.value == Spacing(s, n - 1) + s.pongTimeout
  {
    var n := s.maxMissedPongs;
    var d := (n - 1) as real;
    var w := EffectivePongTimeout(Some(s.pingInterval), s.pongTimeout, n).value;
    assert n as real == d + 1.0;
    assert w == s.pongTimeout * (d + 1.0) + s.pingInterval * d;
    Distribute(s.pongTimeout, s.pingInterval, d);
  }

  /** The time from sending the first of the missed pings to closing is exactly the single
      keepalive timeout that the streamable HTTP server is given for the same settings. */
  lemma ClosingDelayIsEffectiveTimeout(s: Settings, results: seq<PingResult>, pings: nat)
    requires Valid(s) && pings <= |results| && MissedLast(results[..pings], s.maxMissedPongs)
    ensures var first := pings - s.maxMissedPongs;
            var closed := SendTime(s, results, pings - 1) + s.pongTimeout;
            var timeout := EffectivePongTimeout(Some(s.pingInterval), s.pongTimeout, s.maxMissedPongs);
            timeout.Some? && timeout.value == closed - SendTime(s, results, first)
  {
    var n := s.maxMissedPongs;
    forall i | pings - n <= i < pings ensures results[i].Timeout? {
      assert results[..pings][i].Timeout?;
    }
    MissedPingsSpacing(s, results, pings - 1, n - 1);
    WindowIsSpacing(s);
    hide Spacing, EffectivePongTimeout;
    assert pings - 1 - (n - 1) == pings - n;
  }
}
