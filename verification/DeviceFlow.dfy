/**
 The device-authorization polling loop of `crates/spt-auth/src/oidc_device_flow.rs`
 (sections 3.4 and 3.5 of RFC 8628).

 Time is a logical clock in nanoseconds. The environment is an arbitrary sequence
 of exchanges: every delay, reply and jitter is chosen by an adversary, except that
 a sleep never ends early. The loop keeps `clock`, `interval` and `backoff` in
 variables; the specification recomputes all three from the history alone.
 */
module DeviceFlow {

  import opened Basics

  const SECOND: nat := 1_000_000_000
  const FIRST_BACKOFF: nat := 250_000_000
  const MAX_BACKOFF: nat := 30 * SECOND
  const SLOW_DOWN_STEP: nat := 5 * SECOND

  datatype OidcError =
    | MalformedResponse
    | AccessDenied
    | TokenExpired
    | InvalidGrant(description: string)
    | OauthError(code: string, description: string)
    | Expired

  /** How `post_token_request` classifies one exchange. */
  datatype Reply =
    | Granted(accessToken: string)
    | AuthorizationPending
    | SlowDown
    | Terminal(error: OidcError)
    | Transport

  predicate Retryable(r: Reply) { r.AuthorizationPending? || r.SlowDown? || r.Transport? }

  // ----- Reply classification -----

  /** What came back over HTTP. The body is decoded as a token on success and as
      an OAuth error otherwise; either decoding may fail. */
  datatype HttpResult =
    | SendFailed
    | BodyUnreadable
    | Response(success: bool, asToken: Option<string>, asError: Option<(string, string)>)

  /** The error code and description of an OAuth error response. */
  function ErrorOf(h: HttpResult): Option<(string, string)>
  {
    if h.Response? && !h.success then h.asError else None
  }

  predicate Says(h: HttpResult, code: string) { ErrorOf(h).Some? && ErrorOf(h).value.0 == code }

  const KNOWN_CODES := {"authorization_pending", "slow_down", "access_denied", "expired_token", "invalid_grant"}

  /** Polling goes on exactly after a transport failure or an error response
      that says authorization_pending or slow_down; every other answer ends it,
      each with the one error it stands for. */
  function Classify(h: HttpResult): (r: Reply)
    ensures Retryable(r) <==> !h.Response? || Says(h, "authorization_pending") || Says(h, "slow_down")
    ensures r.SlowDown? <==> Says(h, "slow_down")
    ensures r.Transport? <==> !h.Response?
    ensures r.Granted? <==> h.Response? && h.success && h.asToken.Some?
    ensures r.Granted? ==> h.asToken == Some(r.accessToken)
    ensures r == Terminal(AccessDenied) <==> Says(h, "access_denied")
    ensures r == Terminal(TokenExpired) <==> Says(h, "expired_token")
    ensures forall desc :: r == Terminal(InvalidGrant(desc)) <==> ErrorOf(h) == Some(("invalid_grant", desc))
    ensures forall code, desc :: r == Terminal(OauthError(code, desc)) <==>
                                 ErrorOf(h) == Some((code, desc)) && code !in KNOWN_CODES
    ensures r == Terminal(MalformedResponse) <==>
            h.Response? && if h.success then h.asToken.None? else h.asError.None?
    ensures r != Terminal(Expired)
  {
    match h
    case SendFailed => Transport
    case BodyUnreadable => Transport
    case Response(true, token, _) =>
      if token.Some? then Granted(token.value) else Terminal(MalformedResponse)
    case Response(false, _, None) => Terminal(MalformedResponse)
    case Response(false, _, Some((code, desc))) =>
      if code == "authorization_pending" then AuthorizationPending
      else if code == "slow_down" then SlowDown
      else if code == "access_denied" then Terminal(AccessDenied)
      else if code == "expired_token" then Terminal(TokenExpired)
      else if code == "invalid_grant" then Terminal(InvalidGrant(desc))
      else Terminal(OauthError(code, desc))
  }

  // ----- The environment -----

  /** One turn of the loop as the environment plays it: time lost before the
      deadline is looked at, how late the interval sleep wakes, how long the
      exchange takes, its reply, and (after a transport error) jitter and lateness. */
  datatype Exchange = Exchange(stall: nat, oversleep: nat, latency: nat, reply: Reply,
                               jitter: nat, backoffOversleep: nat)

  type Env = seq<Exchange>

  datatype Outcome = Token(accessToken: string) | Failed(error: OidcError) | Waiting

  datatype Request = Request(at: nat, interval: nat, reply: Reply)

  // ----- Specification from the history -----

  /** slow_down replies among the first `n` exchanges. */
  function SlowDowns(env: Env, n: nat): (k: nat)
    requires n <= |env|
    ensures k <= n
  {
    if n == 0 then 0 else SlowDowns(env, n - 1) + if env[n - 1].reply.SlowDown? then 1 else 0
  }

  /** Transport errors since the start or the last reply that was not one. */
  function TransportStreak(env: Env, n: nat): nat
    requires n <= |env|
  {
    if n == 0 || !env[n - 1].reply.Transport? then 0 else 1 + TransportStreak(env, n - 1)
  }

  function Grow(interval: nat): nat { Max(2 * interval, interval + SLOW_DOWN_STEP) }

  function Grown(interval: nat, k: nat): nat
  {
    if k == 0 then interval else Grow(Grown(interval, k - 1))
  }

  /** The polling interval in force for exchange `n`. */
  function IntervalAt(interval: nat, env: Env, n: nat): nat
    requires n <= |env|
  {
    Grown(interval, SlowDowns(env, n))
  }

  /** The transport backoff in force for exchange `n`. */
  function BackoffAt(env: Env, n: nat): nat
    requires n <= |env|
  {
    Min(FIRST_BACKOFF * Pow2(TransportStreak(env, n)), MAX_BACKOFF)
  }

  /** When exchange `n` is ready to begin: the previous reply has been handled. */
  function ReadyAt(start: nat, interval: nat, env: Env, n: nat): nat
    requires n <= |env|
    decreases n, 0
  {
    if n == 0 then start
    else
      var e := env[n - 1];
      SentAt(start, interval, env, n - 1) + e.latency
      + if e.reply.Transport? then BackoffAt(env, n - 1) + e.jitter + e.backoffOversleep else 0
  }

  /** When request `n` goes out, if it does. */
  function SentAt(start: nat, interval: nat, env: Env, n: nat): nat
    requires n < |env|
    decreases n, 1
  {
    ReadyAt(start, interval, env, n) + env[n].stall + IntervalAt(interval, env, n) + env[n].oversleep
  }

  /** The first `n` requests, as the history dictates them. */
  function History(start: nat, interval: nat, env: Env, n: nat): (log: seq<Request>)
    requires n <= |env|
    ensures |log| == n
  {
    if n == 0 then []
    else
      History(start, interval, env, n - 1)
      + [Request(SentAt(start, interval, env, n - 1), IntervalAt(interval, env, n - 1), env[n - 1].reply)]
  }

  /** The log of a run: every request before the deadline, none after a decisive
      reply, and a reason why there is no further one. */
  ghost predicate IsRun(start: nat, interval: nat, expiresIn: nat, env: Env, log: seq<Request>)
  {
    && |log| <= |env|
    && log == History(start, interval, env, |log|)
    && (forall i :: 0 <= i < |log| ==> log[i].at < start + expiresIn)
    && (forall i :: 0 <= i < |log| - 1 ==> Retryable(log[i].reply))
    && (|log| < |env| && Undecided(env, |log|) ==> SentAt(start, interval, env, |log|) >= start + expiresIn)
  }

  /** No decisive reply among the first `n`, given that only the last can be one. */
  predicate Undecided(env: Env, n: nat)
    requires n <= |env|
  {
    n == 0 || Retryable(env[n - 1].reply)
  }

  /** The first decisive reply decides; otherwise the deadline does. */
  function Verdict(env: Env, n: nat): Outcome
    requires n <= |env|
  {
    if Undecided(env, n) then (if n < |env| then Failed(Expired) else Waiting)
    else match env[n - 1].reply
      case Granted(t) => Token(t)
      case Terminal(e) => Failed(e)
      case _ => Waiting
  }

  // ----- The loop -----

  /** What one turn does to the interval, the backoff and the clock. */
  lemma NextTurn(start: nat, interval: nat, env: Env, n: nat)
    requires n < |env|
    ensures History(start, interval, env, n + 1)
            == History(start, interval, env, n)
               + [Request(SentAt(start, interval, env, n), IntervalAt(interval, env, n), env[n].reply)]
    ensures IntervalAt(interval, env, n + 1)
            == if env[n].reply.SlowDown? then Grow(IntervalAt(interval, env, n)) else IntervalAt(interval, env, n)
    ensures BackoffAt(env, n + 1)
            == if env[n].reply.Transport? then Min(BackoffAt(env, n) * 2, MAX_BACKOFF) else FIRST_BACKOFF
    ensures ReadyAt(start, interval, env, n + 1)
            == SentAt(start, interval, env, n) + env[n].latency
               + if env[n].reply.Transport? then BackoffAt(env, n) + env[n].jitter + env[n].backoffOversleep else 0
  {
  }

  /** Where the loop stands before an exchange: the log so far, and its variables. */
  ghost predicate Stands(start: nat, initial: nat, deadline: nat, env: Env, log: seq<Request>,
                         clock: nat, interval: nat, backoff: nat)
  {
    && |log| <= |env| && log == History(start, initial, env, |log|)
    && clock == ReadyAt(start, initial, env, |log|)
    && interval == IntervalAt(initial, env, |log|) && backoff == BackoffAt(env, |log|)
    && Undecided(env, |log|)
    && forall i :: 0 <= i < |log| ==> log[i].at < deadline && Retryable(log[i].reply)
  }

  lemma Expires(start: nat, initial: nat, expiresIn: nat, env: Env, log: seq<Request>,
                clock: nat, interval: nat, backoff: nat)
    requires Stands(start, initial, start + expiresIn, env, log, clock, interval, backoff) && |log| < |env|
    requires clock + env[|log|].stall + interval + env[|log|].oversleep >= start + expiresIn
    ensures IsRun(start, initial, expiresIn, env, log) && Verdict(env, |log|) == Failed(Expired)
    ensures ByTheNumbers(start, initial, env, log)
  {
    RunsByTheNumbers(start, initial, expiresIn, env, log);
  }

  lemma Decides(start: nat, initial: nat, expiresIn: nat, env: Env, log: seq<Request>,
                clock: nat, interval: nat, backoff: nat, at: nat)
    requires Stands(start, initial, start + expiresIn, env, log, clock, interval, backoff) && |log| < |env|
    requires at == clock + env[|log|].stall + interval + env[|log|].oversleep < start + expiresIn
    requires !Retryable(env[|log|].reply)
    ensures IsRun(start, initial, expiresIn, env, log + [Request(at, interval, env[|log|].reply)])
    ensures ByTheNumbers(start, initial, env, log + [Request(at, interval, env[|log|].reply)])
  {
    NextTurn(start, initial, env, |log|);
    RunsByTheNumbers(start, initial, expiresIn, env, log + [Request(at, interval, env[|log|].reply)]);
  }

  lemma GoesOn(start: nat, initial: nat, deadline: nat, env: Env, log: seq<Request>,
               clock: nat, interval: nat, backoff: nat, at: nat)
    requires Stands(start, initial, deadline, env, log, clock, interval, backoff) && |log| < |env|
    requires at == clock + env[|log|].stall + interval + env[|log|].oversleep < deadline
    requires Retryable(env[|log|].reply)
    ensures var e := env[|log|];
            Stands(start, initial, deadline, env, log + [Request(at, interval, e.reply)],
                   at + e.latency + (if e.reply.Transport? then backoff + e.jitter + e.backoffOversleep else 0),
                   if e.reply.SlowDown? then Grow(interval) else interval,
                   if e.reply.Transport? then Min(backoff * 2, MAX_BACKOFF) else FIRST_BACKOFF)
  {
    NextTurn(start, initial, env, |log|);
  }

  method PollForToken(start: nat, initialInterval: nat, expiresIn: nat, env: Env)
    returns (outcome: Outcome, requests: seq<Request>)
    ensures IsRun(start, initialInterval, expiresIn, env, requests)
    ensures ByTheNumbers(start, initialInterval, env, requests)
    ensures outcome == Verdict(env, |requests|)
  {
    var clock: nat, deadline := start, start + expiresIn;
    var interval: nat, backoff: nat := initialInterval, FIRST_BACKOFF;
    requests := [];
    while |requests| < |env|
      invariant Stands(start, initialInterval, deadline, env, requests, clock, interval, backoff)
    {
      var e := env[|requests|];
      ghost var log, ready, pause, wait := requests, clock, interval, backoff;
      clock := clock + e.stall;
      if clock >= deadline {
        Expires(start, initialInterval, expiresIn, env, log, ready, pause, wait);
        return Failed(Expired), requests;
      }
      clock := clock + interval + e.oversleep;
      if clock >= deadline {
        Expires(start, initialInterval, expiresIn, env, log, ready, pause, wait);
        return Failed(Expired), requests;
      }
      if Retryable(e.reply) {
        GoesOn(start, initialInterval, deadline, env, log, ready, pause, wait, clock);
      } else {
        Decides(start, initialInterval, expiresIn, env, log, ready, pause, wait, clock);
      }
      requests := requests + [Request(clock, interval, e.reply)];
      clock := clock + e.latency;
      match e.reply {
        case Granted(t) => return Token(t), requests;
        case AuthorizationPending =>
          backoff := FIRST_BACKOFF;
        case SlowDown =>
          interval := Max(interval * 2, interval + SLOW_DOWN_STEP);
          backoff := FIRST_BACKOFF;
        case Terminal(error) => return Failed(error), requests;
        case Transport =>
          clock := clock + backoff + e.jitter + e.backoffOversleep;
          backoff := Min(backoff * 2, MAX_BACKOFF);
      }
    }
    RunsByTheNumbers(start, initialInterval, expiresIn, env, requests);
    outcome := Waiting;
  }

  // ----- Every run of the loop -----

  lemma {:induction false} HistoryAt(start: nat, interval: nat, env: Env, n: nat, i: nat)
    requires i < n <= |env|
    ensures History(start, interval, env, n)[i]
            == Request(SentAt(start, interval, env, i), IntervalAt(interval, env, i), env[i].reply)
  {
    if i < n - 1 {
      HistoryAt(start, interval, env, n - 1, i);
    }
  }

  /** A request goes out at least the interval then in force after the previous
      reply was handled, across transport errors too, and the interval never
      shrinks: only a slow_down changes it, by doubling or by five seconds. */
  lemma Spacing(start: nat, interval: nat, expiresIn: nat, env: Env, log: seq<Request>, i: nat)
    requires IsRun(start, interval, expiresIn, env, log) && i < |log|
    ensures start <= log[i].at < start + expiresIn
    ensures log[i].reply == env[i].reply
    ensures i == 0 ==> log[i].interval == interval && log[i].at >= start + interval
    ensures i > 0 ==>
              && log[i].interval == NextInterval(log[i - 1].interval, log[i - 1].reply)
              && log[i].interval >= log[i - 1].interval
              && log[i].at >= log[i - 1].at + env[i - 1].latency + log[i].interval
              && (log[i - 1].reply.Transport? ==>
                    log[i].at >= log[i - 1].at + env[i - 1].latency + BackoffAt(env, i - 1) + log[i].interval)
  {
    HistoryAt(start, interval, env, |log|, i);
    StartFirst(start, interval, env, i);
    if i > 0 {
      HistoryAt(start, interval, env, |log|, i - 1);
      GrowInNumbers(log[i - 1].interval);
    }
  }

  /** The `j` exchanges before exchange `n` failed in transport, and no more than those. */
  ghost predicate StreakIs(env: Env, n: nat, j: nat)
    requires n <= |env|
  {
    && j <= n && (forall k :: n - j <= k < n ==> env[k].reply.Transport?)
    && (j < n ==> !env[n - j - 1].reply.Transport?)
  }

  lemma {:induction false} StreakCounts(env: Env, n: nat, j: nat)
    requires n <= |env| && StreakIs(env, n, j)
    ensures TransportStreak(env, n) == j
  {
    if j > 0 {
      StreakCounts(env, n - 1, j - 1);
    }
  }

  /** The backoff after `j` transport errors in a row: 250 ms doubled j times, at most 30 s. */
  function BackoffMillis(j: nat): nat
  {
    match j
    case 0 => 250
    case 1 => 500
    case 2 => 1_000
    case 3 => 2_000
    case 4 => 4_000
    case 5 => 8_000
    case 6 => 16_000
    case _ => 30_000
  }

  lemma {:induction false} PowerAbove(j: nat)
    requires j >= 7
    ensures Pow2(j) >= 128
  {
    if j > 7 {
      PowerAbove(j - 1);
    } else {
      assert Pow2(7) == 128;
    }
  }

  lemma BackoffInNumbers(env: Env, n: nat, j: nat)
    requires n <= |env| && StreakIs(env, n, j)
    ensures BackoffAt(env, n) == BackoffMillis(j) * 1_000_000
  {
    StreakCounts(env, n, j);
    if j >= 7 {
      PowerAbove(j);
    } else {
      assert Pow2(1) == 2 && Pow2(2) == 4 && Pow2(3) == 8 && Pow2(4) == 16 && Pow2(5) == 32 && Pow2(6) == 64;
    }
  }

  /** The interval after one more exchange, in nanoseconds: a slow_down adds 5 s to an
      interval below 5 s and doubles any other. */
  function NextInterval(w: nat, reply: Reply): nat
  {
    if !reply.SlowDown? then w
    else if w < 5_000_000_000 then w + 5_000_000_000
    else 2 * w
  }

  lemma GrowInNumbers(w: nat)
    ensures Grow(w) == NextInterval(w, SlowDown)
  {
  }

  /** One exchange after another, by the definitions alone. */
  lemma SentInNumbers(start: nat, interval: nat, env: Env, i: nat, j: nat)
    requires 0 < i < |env| && StreakIs(env, i - 1, j)
    ensures IntervalAt(interval, env, i) == NextInterval(IntervalAt(interval, env, i - 1), env[i - 1].reply)
    ensures SentAt(start, interval, env, i)
            == SentAt(start, interval, env, i - 1) + env[i - 1].latency
               + (if env[i - 1].reply.Transport?
                  then BackoffMillis(j) * 1_000_000 + env[i - 1].jitter + env[i - 1].backoffOversleep
                  else 0)
               + env[i].stall + IntervalAt(interval, env, i) + env[i].oversleep
  {
    BackoffInNumbers(env, i - 1, j);
    GrowInNumbers(IntervalAt(interval, env, i - 1));
    NextTurn(start, interval, env, i - 1);
  }

  /** Every request of every run, in numbers: what it waited for and when it went out. */
  lemma RunInNumbers(start: nat, interval: nat, expiresIn: nat, env: Env, log: seq<Request>, i: nat, j: nat)
    requires IsRun(start, interval, expiresIn, env, log) && 0 < i < |log| && StreakIs(env, i - 1, j)
    ensures log[i].interval == NextInterval(log[i - 1].interval, env[i - 1].reply)
    ensures log[i].at == log[i - 1].at + env[i - 1].latency
                         + (if env[i - 1].reply.Transport?
                            then BackoffMillis(j) * 1_000_000 + env[i - 1].jitter + env[i - 1].backoffOversleep
                            else 0)
                         + env[i].stall + log[i].interval + env[i].oversleep
  {
    HistoryAt(start, interval, env, |log|, i);
    HistoryAt(start, interval, env, |log|, i - 1);
    SentInNumbers(start, interval, env, i, j);
  }

  /** Request `i` follows the one before it as the numbers say. */
  ghost predicate Follows(env: Env, log: seq<Request>, i: nat, j: nat)
    requires 0 < i < |log| <= |env|
  {
    && StreakIs(env, i - 1, j)
    && log[i].interval == NextInterval(log[i - 1].interval, env[i - 1].reply)
    && log[i].at == log[i - 1].at + env[i - 1].latency
                    + (if env[i - 1].reply.Transport?
                       then BackoffMillis(j) * 1_000_000 + env[i - 1].jitter + env[i - 1].backoffOversleep
                       else 0)
                    + env[i].stall + log[i].interval + env[i].oversleep
  }

  ghost predicate FollowsOn(env: Env, log: seq<Request>, i: nat)
    requires 0 < i < |log| <= |env|
  {
    exists j: nat :: Follows(env, log, i, j)
  }

  ghost predicate ByTheNumbers(start: nat, interval: nat, env: Env, log: seq<Request>)
  {
    && |log| <= |env|
    && (log != [] ==> log[0].interval == interval && log[0].at == start + env[0].stall + interval + env[0].oversleep)
    && (forall i :: 0 < i < |log| ==> FollowsOn(env, log, i))
  }

  lemma {:induction false} SomeStreak(env: Env, n: nat) returns (j: nat)
    requires n <= |env|
    ensures StreakIs(env, n, j)
  {
    j := 0;
    if n > 0 && env[n - 1].reply.Transport? {
      j := SomeStreak(env, n - 1);
      j := j + 1;
    }
  }

  lemma RunsByTheNumbers(start: nat, interval: nat, expiresIn: nat, env: Env, log: seq<Request>)
    requires IsRun(start, interval, expiresIn, env, log)
    ensures ByTheNumbers(start, interval, env, log)
  {
    if log != [] {
      RequestsInNumbers(start, interval, expiresIn, env, log, 0);
    }
    forall i | 0 < i < |log| ensures FollowsOn(env, log, i) {
      var j := SomeStreak(env, i - 1);
      RunInNumbers(start, interval, expiresIn, env, log, i, j);
      assert Follows(env, log, i, j);
    }
  }

  /** The first request, and what holds of each. */
  lemma RequestsInNumbers(start: nat, interval: nat, expiresIn: nat, env: Env, log: seq<Request>, i: nat)
    requires IsRun(start, interval, expiresIn, env, log) && i < |log|
    ensures log[i].reply == env[i].reply && log[i].at < start + expiresIn
    ensures log[0].interval == interval && log[0].at == start + env[0].stall + interval + env[0].oversleep
    ensures i < |log| - 1 ==> log[i].reply in {AuthorizationPending, SlowDown, Transport}
  {
    HistoryAt(start, interval, env, |log|, i);
    HistoryAt(start, interval, env, |log|, 0);
  }

  /** How a run ends, in the terms of its last exchange. */
  lemma RunEnds(start: nat, interval: nat, expiresIn: nat, env: Env, log: seq<Request>)
    requires IsRun(start, interval, expiresIn, env, log)
    ensures forall t :: Verdict(env, |log|) == Token(t) <==> log != [] && log[|log| - 1].reply == Granted(t)
    ensures forall e :: e != Expired ==>
                          (Verdict(env, |log|) == Failed(e) <==> log != [] && log[|log| - 1].reply == Terminal(e))
    ensures Verdict(env, |log|) == Waiting <==>
            |log| == |env| && (log == [] || log[|log| - 1].reply in {AuthorizationPending, SlowDown, Transport})
  {
    if log != [] {
      HistoryAt(start, interval, env, |log|, |log| - 1);
    }
  }

  /** A run that stops before the environment does, without a decisive reply, has no
      time left for its next request. */
  lemma RunStopsAtDeadline(start: nat, interval: nat, expiresIn: nat, env: Env, log: seq<Request>, j: nat)
    requires IsRun(start, interval, expiresIn, env, log) && |log| < |env|
    requires log != [] ==>
               && StreakIs(env, |log| - 1, j)
               && log[|log| - 1].reply in {AuthorizationPending, SlowDown, Transport}
    ensures Verdict(env, |log|) == Failed(Expired)
    ensures log == [] ==> env[0].stall + interval + env[0].oversleep >= expiresIn
    ensures log != [] ==>
              var last, e, next := log[|log| - 1], env[|log| - 1], env[|log|];
              last.at + e.latency
              + (if e.reply.Transport? then BackoffMillis(j) * 1_000_000 + e.jitter + e.backoffOversleep else 0)
              + next.stall + NextInterval(last.interval, e.reply) + next.oversleep >= start + expiresIn
  {
    if log != [] {
      HistoryAt(start, interval, env, |log|, |log| - 1);
      SentInNumbers(start, interval, env, |log|, j);
    }
  }

  lemma {:induction false} StartFirst(start: nat, interval: nat, env: Env, n: nat)
    requires n <= |env|
    ensures start <= ReadyAt(start, interval, env, n)
  {
    if n > 0 {
      StartFirst(start, interval, env, n - 1);
    }
  }

  /** interval * 2^k, by doubling. */
  function Doubled(interval: nat, k: nat): nat
  {
    if k == 0 then interval else 2 * Doubled(interval, k - 1)
  }

  lemma {:induction false} DoubledClosed(interval: nat, k: nat)
    ensures Doubled(interval, k) == interval * Pow2(k)
  {
    if k > 0 {
      DoubledClosed(interval, k - 1);
      Distribute(interval, Pow2(k - 1), Pow2(k - 1));
    }
  }

  lemma {:induction false} GrowsByDoubling(interval: nat, k: nat)
    ensures Grown(interval, k) >= Doubled(interval, k) >= interval
  {
    if k > 0 {
      GrowsByDoubling(interval, k - 1);
    }
  }

  lemma {:induction false} GrowsByStep(interval: nat, k: nat)
    ensures Grown(interval, k) >= interval + SLOW_DOWN_STEP * k
  {
    if k > 0 {
      GrowsByStep(interval, k - 1);
      Distribute(SLOW_DOWN_STEP, k - 1, 1);
    }
  }

  lemma {:induction false} TimeSpentByRequests(start: nat, interval: nat, env: Env, n: nat)
    requires n < |env|
    ensures SentAt(start, interval, env, n) >= start + (n + 1) * interval
  {
    GrowsByDoubling(interval, SlowDowns(env, n));
    Distribute(interval, n, 1);
    if n > 0 {
      TimeSpentByRequests(start, interval, env, n - 1);
    }
  }

  /** interval + 2 interval + ... + 2^(k-1) interval is 2^k interval - interval. */
  lemma {:induction false} TimeSpentBySlowDowns(start: nat, interval: nat, env: Env, n: nat)
    requires n < |env|
    ensures SentAt(start, interval, env, n) + interval >= start + Doubled(interval, SlowDowns(env, n + 1))
  {
    GrowsByDoubling(interval, SlowDowns(env, n));
    if n > 0 {
      TimeSpentBySlowDowns(start, interval, env, n - 1);
    }
  }

  /** With n requests sent, n intervals fit before the deadline. */
  lemma RequestsBounded(start: nat, interval: nat, expiresIn: nat, env: Env, log: seq<Request>)
    requires IsRun(start, interval, expiresIn, env, log) && log != []
    ensures |log| * interval < expiresIn
  {
    HistoryAt(start, interval, env, |log|, |log| - 1);
    TimeSpentByRequests(start, interval, env, |log| - 1);
  }

  /** With k slow_down replies received, 2^k - 1 intervals fit before the deadline,
      and the interval has grown at least as section 3.5 of RFC 8628 asks. */
  lemma SlowDownsLogarithmic(start: nat, interval: nat, expiresIn: nat, env: Env, log: seq<Request>, k: nat)
    requires IsRun(start, interval, expiresIn, env, log) && log != []
    requires k == SlowDowns(env, |log|)
    ensures interval * (Pow2(k) - 1) < expiresIn
    ensures IntervalAt(interval, env, |log|) >= interval * Pow2(k)
    ensures IntervalAt(interval, env, |log|) >= interval + SLOW_DOWN_STEP * k
  {
    HistoryAt(start, interval, env, |log|, |log| - 1);
    TimeSpentBySlowDowns(start, interval, env, |log| - 1);
    GrowsByDoubling(interval, k);
    GrowsByStep(interval, k);
    DoubledClosed(interval, k);
    Distribute(interval, Pow2(k), -1);
  }

  /** Whenever slow_down is handled the interval is below the expiry, so neither
      the doubling nor the five-second step leaves a range that holds twice the
      expiry and the expiry plus five seconds. */
  lemma SlowDownNeverOverflows(start: nat, interval: nat, expiresIn: nat, env: Env, log: seq<Request>, i: nat,
                               limit: nat)
    requires IsRun(start, interval, expiresIn, env, log) && i < |log|
    requires 2 * expiresIn <= limit && expiresIn + SLOW_DOWN_STEP <= limit
    ensures log[i].interval < expiresIn
    ensures 2 * log[i].interval < limit && log[i].interval + SLOW_DOWN_STEP < limit
    ensures BackoffAt(env, i) <= MAX_BACKOFF
  {
    HistoryAt(start, interval, env, |log|, i);
    StartFirst(start, interval, env, i);
  }

  /** A run is determined by its environment. */
  lemma RunIsUnique(start: nat, interval: nat, expiresIn: nat, env: Env, a: seq<Request>, b: seq<Request>)
    requires IsRun(start, interval, expiresIn, env, a) && IsRun(start, interval, expiresIn, env, b)
    ensures a == b
  {
    if |a| < |b| {
      RunNotShorter(start, interval, expiresIn, env, a, b);
    } else if |b| < |a| {
      RunNotShorter(start, interval, expiresIn, env, b, a);
    }
  }

  lemma RunNotShorter(start: nat, interval: nat, expiresIn: nat, env: Env, a: seq<Request>, b: seq<Request>)
    requires IsRun(start, interval, expiresIn, env, a) && IsRun(start, interval, expiresIn, env, b)
    ensures |a| >= |b|
  {
    if |a| < |b| {
      HistoryAt(start, interval, env, |b|, |a|);
      if |a| > 0 {
        HistoryAt(start, interval, env, |b|, |a| - 1);
      }
    }
  }

  // ----- The outcome -----

  lemma {:induction false} SentInOrder(start: nat, interval: nat, env: Env, i: nat, j: nat)
    requires i <= j < |env|
    ensures SentAt(start, interval, env, i) <= SentAt(start, interval, env, j)
  {
    if i < j {
      SentInOrder(start, interval, env, i, j - 1);
    }
  }

  /** If reply `d` is the first that is not pending, slow_down or a transport
      error, and its request is due before the deadline, it alone decides. */
  lemma FirstDecisiveReplyDecides(start: nat, interval: nat, expiresIn: nat, env: Env, log: seq<Request>, d: nat)
    requires IsRun(start, interval, expiresIn, env, log)
    requires d < |env| && !Retryable(env[d].reply) && forall i :: 0 <= i < d ==> Retryable(env[i].reply)
    requires SentAt(start, interval, env, d) < start + expiresIn
    ensures |log| == d + 1
    ensures Verdict(env, |log|) ==
            match env[d].reply { case Granted(t) => Token(t) case Terminal(e) => Failed(e) case _ => Waiting }
  {
    if |log| <= d {
      SentInOrder(start, interval, env, |log|, d);
    } else if |log| > d + 1 {
      HistoryAt(start, interval, env, |log|, d);
    }
  }

  /** If every reply before the first request due at or after the deadline is
      retryable, the result is Expired and that request is never made. */
  lemma DeadlineDecides(start: nat, interval: nat, expiresIn: nat, env: Env, log: seq<Request>, d: nat)
    requires IsRun(start, interval, expiresIn, env, log)
    requires d < |env| && forall i :: 0 <= i < d ==> Retryable(env[i].reply)
    requires SentAt(start, interval, env, d) >= start + expiresIn
    requires d > 0 ==> SentAt(start, interval, env, d - 1) < start + expiresIn
    ensures |log| == d && Verdict(env, |log|) == Failed(Expired)
  {
    if |log| < d {
      SentInOrder(start, interval, env, |log|, d - 1);
    } else if |log| > d {
      HistoryAt(start, interval, env, |log|, d);
    }
  }

  // ----- Termination -----

  /** Whatever the environment does, `bound` exchanges settle the outcome. */
  ghost predicate SettlesWithin(interval: nat, expiresIn: nat, bound: nat)
  {
    forall start: nat, env: Env, log: seq<Request> ::
      IsRun(start, interval, expiresIn, env, log) && |env| >= bound ==> Verdict(env, |log|) != Waiting
  }

  lemma PositiveIntervalSettles(interval: nat, expiresIn: nat, bound: nat)
    requires bound > 0 && bound * interval >= expiresIn
    ensures SettlesWithin(interval, expiresIn, bound)
  {
    forall start: nat, env: Env, log: seq<Request> | IsRun(start, interval, expiresIn, env, log) && |env| >= bound
      ensures Verdict(env, |log|) != Waiting
    {
      if |log| == |env| {
        RequestsBounded(start, interval, expiresIn, env, log);
        MulMonotone(bound, |log|, interval);
      } else if !Undecided(env, |log|) {
        assert !Retryable(env[|log| - 1].reply);
      }
    }
  }

  function AlwaysPending(n: nat): Env
  {
    seq(n, i => Exchange(0, 0, 0, AuthorizationPending, 0, 0))
  }

  lemma {:induction false} ZeroIntervalStandsStill(n: nat, m: nat)
    requires n <= m
    ensures SlowDowns(AlwaysPending(m), n) == 0
    ensures ReadyAt(0, 0, AlwaysPending(m), n) == 0
  {
    if n > 0 {
      ZeroIntervalStandsStill(n - 1, m);
    }
  }

  lemma ZeroIntervalNeverSettles(expiresIn: nat, n: nat)
    requires expiresIn > 0
    ensures !SettlesWithin(0, expiresIn, n)
  {
    var env := AlwaysPending(n);
    var log := History(0, 0, env, n);
    forall i | 0 <= i < n ensures log[i] == Request(0, 0, AuthorizationPending) {
      HistoryAt(0, 0, env, n, i);
      ZeroIntervalStandsStill(i, n);
    }
    assert IsRun(0, 0, expiresIn, env, log);
    assert Verdict(env, |log|) == Waiting;
  }

  /** Polling is bounded against every environment iff the interval is positive
      or the code has already expired. */
  lemma SettlesIffIntervalPositive(interval: nat, expiresIn: nat)
    ensures (exists bound :: SettlesWithin(interval, expiresIn, bound)) <==> interval > 0 || expiresIn == 0
  {
    if interval > 0 || expiresIn == 0 {
      if interval > 0 {
        MulMonotone(1, interval, expiresIn + 1);
      }
      PositiveIntervalSettles(interval, expiresIn, expiresIn + 1);
    } else {
      forall bound: nat ensures !SettlesWithin(interval, expiresIn, bound) {
        ZeroIntervalNeverSettles(expiresIn, bound);
      }
    }
  }

  /** `login`: at least one second for the interval and for the expiry. */
  function LoginDuration(seconds: nat): nat { Max(seconds, 1) * SECOND }

  /** `login` waits as many seconds as it was told, and one second when told zero. */
  lemma LoginInNumbers(seconds: nat)
    ensures LoginDuration(0) == 1_000_000_000
    ensures seconds > 0 ==> LoginDuration(seconds) == seconds * 1_000_000_000
  {
  }

  /** Through `login` the loop always settles, within as many exchanges as the
      code lives seconds, and sends fewer requests than that. */
  lemma LoginAlwaysSettles(intervalSecs: nat, expiresInSecs: nat, start: nat, env: Env, log: seq<Request>)
    requires IsRun(start, LoginDuration(intervalSecs), LoginDuration(expiresInSecs), env, log)
    ensures |log| < Max(expiresInSecs, 1)
    ensures |env| >= Max(expiresInSecs, 1) ==> Verdict(env, |log|) != Waiting
  {
    var interval, expiry, n := LoginDuration(intervalSecs), LoginDuration(expiresInSecs), |log|;
    if n > 0 {
      RequestsBounded(start, interval, expiry, env, log);
      MulMonotone(SECOND, interval, n);
    }
    if |env| >= Max(expiresInSecs, 1) && !Undecided(env, n) {
      assert !Retryable(env[n - 1].reply);
    }
  }
}
