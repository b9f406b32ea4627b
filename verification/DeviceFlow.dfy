/**
 Polling the token endpoint in the device authorization flow, sections 3.4 and
 3.5 of RFC 8628 (internal/auth/oidc.go:82-185). Times are nanoseconds on a
 clock that does not go back; the answers, the delays and the cancellation are
 the environment's.
 */
module DeviceFlow {
  import opened Wrappers

  const SECOND: int := 1_000_000_000
  const DEFAULT_INTERVAL := 5
  const DEFAULT_LIFETIME := 1800
  const SLOW_DOWN := 5

  /** The fields of the device authorization response that matter here; the numbers may be anything. */
  datatype DeviceAuthorization = DeviceAuthorization(
    deviceCode: string, userCode: string, verificationUri: string, expiresIn: int, interval: int)

  /** The response of the device authorization endpoint, with the interval of section 3.2 when it has none. */
  method StartDeviceFlow(reply: Option<DeviceAuthorization>) returns (r: Result<DeviceAuthorization, ()>)
    ensures r.Ok? <==>
      reply.Some? && reply.value.deviceCode != "" && reply.value.userCode != "" && reply.value.verificationUri != ""
    ensures r.Ok? ==> r.value == reply.value.(interval := r.value.interval) && r.value.interval >= 1
                      && r.value.interval ==
                        if reply.value.interval >= 1 then reply.value.interval else DEFAULT_INTERVAL
  {
    if reply.None? {
      return Err(());
    }
    var d := reply.value;
    if d.deviceCode == "" || d.userCode == "" || d.verificationUri == "" {
      return Err(());
    }
    if d.interval <= 0 {
      d := d.(interval := DEFAULT_INTERVAL);
    }
    r := Ok(d);
  }

  function Lifetime(da: DeviceAuthorization): (e: int)
    ensures e >= 1
  {
    if da.expiresIn <= 0 then DEFAULT_LIFETIME else da.expiresIn
  }

  /** What a poll can come back with. */
  datatype Answer =
    | Pending
    | SlowDown
    | Token(accessToken: string)
    | Denied
    | ExpiredToken
    | OtherError
    | NoResponse
    | BadStatus
    | BadBody

  datatype Outcome = Credentials | ExpiredDeviceCode | Cancelled | AccessDenied | Failed

  /**
   How one round goes: delays on top of what the program waits, whether it is cancelled
   while waiting, and the answer.
   */
  datatype Round = Round(idle: nat, cancelled: bool, oversleep: nat, request: nat, answer: Answer)

  /**
   A poll: when the deadline was checked before it, how long the program asked to wait,
   when it was sent, and the answer.
   */
  datatype Poll = Poll(checkedAt: int, wait: int, sentAt: int, answer: Answer)

  /** `time.After` fires at once for a duration that is not positive. */
  function Waited(wait: int): nat
  {
    if wait > 0 then wait else 0
  }

  predicate Retries(a: Answer)
  {
    a.Pending? || a.SlowDown?
  }

  /** The outcome an answer settles, if it does. */
  function Settle(a: Answer): (r: Option<Outcome>)
    ensures r.None? <==> Retries(a)
    ensures r == Some(Credentials) <==> a.Token? && a.accessToken != ""
  {
    match a
    case Pending => None
    case SlowDown => None
    case Token(accessToken) => Some(if accessToken == "" then Failed else Credentials)
    case Denied => Some(AccessDenied)
    case ExpiredToken => Some(ExpiredDeviceCode)
    case _ => Some(Failed)
  }

  function SlowDowns(polls: seq<Poll>): nat
  {
    if polls == [] then 0 else SlowDowns(polls[..|polls| - 1]) + if polls[|polls| - 1].answer.SlowDown? then 1 else 0
  }

  /** The interval in seconds after these polls: five more for every slow_down, for all polls that follow. */
  function IntervalAfter(da: DeviceAuthorization, polls: seq<Poll>): int
  {
    da.interval + SLOW_DOWN * SlowDowns(polls)
  }

  /** The time of the last thing that happened. */
  function LastTime(start: int, polls: seq<Poll>): int
  {
    if polls == [] then start else polls[|polls| - 1].sentAt
  }

  /** Each poll was sent in time, and only after waiting out the interval that then applied. */
  ghost predicate WellTimed(da: DeviceAuthorization, start: int, polls: seq<Poll>)
  {
    polls == [] ||
    var before, p := polls[..|polls| - 1], polls[|polls| - 1];
    && WellTimed(da, start, before)
    && (before != [] ==> Retries(before[|before| - 1].answer))
    && LastTime(start, before) <= p.checkedAt <= start + Lifetime(da) * SECOND
    && p.wait == IntervalAfter(da, before) * SECOND && p.sentAt >= p.checkedAt + Waited(p.wait)
  }

  lemma OneMore(da: DeviceAuthorization, start: int, before: seq<Poll>, p: Poll)
    requires WellTimed(da, start, before) && (before != [] ==> Retries(before[|before| - 1].answer))
    requires LastTime(start, before) <= p.checkedAt <= start + Lifetime(da) * SECOND
    requires p.wait == IntervalAfter(da, before) * SECOND && p.sentAt >= p.checkedAt + Waited(p.wait)
    ensures WellTimed(da, start, before + [p]) && LastTime(start, before + [p]) == p.sentAt
    ensures IntervalAfter(da, before + [p]) == IntervalAfter(da, before) + if p.answer.SlowDown? then SLOW_DOWN else 0
  {
    assert (before + [p])[..|before|] == before;
  }

  // ---------------------------------------------------------------------
  // The loop

  /** What the loop carries from round to round: the polls so far, the time, and the interval. */
  datatype Looping = Looping(polls: seq<Poll>, now: int, interval: int)

  function PollIn(s: Looping, round: Round): Poll
  {
    var checkedAt := s.now + round.idle;
    Poll(checkedAt, s.interval, checkedAt + Waited(s.interval) + round.oversleep, round.answer)
  }

  function After(s: Looping, round: Round): Looping
  {
    Looping(s.polls + [PollIn(s, round)], PollIn(s, round).sentAt + round.request,
            s.interval + if round.answer.SlowDown? then SLOW_DOWN * SECOND else 0)
  }

  /** Before round `n`, when all earlier rounds went on. */
  function Before(da: DeviceAuthorization, start: int, env: nat -> Round, n: nat): Looping
  {
    if n == 0 then Looping([], start, da.interval * SECOND) else After(Before(da, start, env, n - 1), env(n - 1))
  }

  /** Whether no poll is sent any more. */
  function Stopped(da: DeviceAuthorization, start: int, s: Looping, round: Round): Option<Outcome>
  {
    if s.now + round.idle > start + Lifetime(da) * SECOND then Some(ExpiredDeviceCode)
    else if round.cancelled then Some(Cancelled)
    else None
  }

  /** What a round ends the polling with, if it does: the deadline, the cancellation, or the answer, in this order. */
  function RoundEnds(da: DeviceAuthorization, start: int, env: nat -> Round, n: nat): Option<Outcome>
  {
    var stopped := Stopped(da, start, Before(da, start, env, n), env(n));
    if stopped.Some? then stopped else Settle(env(n).answer)
  }

  ghost predicate GoesOnFor(da: DeviceAuthorization, start: int, env: nat -> Round, n: nat)
  {
    forall i :: 0 <= i < n ==> RoundEnds(da, start, env, i).None?
  }

  /** The first round to end the polling. */
  ghost predicate EndsIn(da: DeviceAuthorization, start: int, env: nat -> Round, n: nat, r: Outcome)
  {
    GoesOnFor(da, start, env, n) && RoundEnds(da, start, env, n) == Some(r)
  }

  /** All polls sent up to and including round `n`. */
  function PollsUpTo(da: DeviceAuthorization, start: int, env: nat -> Round, n: nat): seq<Poll>
  {
    var s := Before(da, start, env, n);
    if Stopped(da, start, s, env(n)).Some? then s.polls else s.polls + [PollIn(s, env(n))]
  }

  /** The lifetime is over when the round begins; no expiry in the response stands for half an hour. */
  ghost predicate Late(da: DeviceAuthorization, start: int, env: nat -> Round, n: nat)
  {
    var lifetime := if da.expiresIn <= 0 then 1800 else da.expiresIn;
    Before(da, start, env, n).now + env(n).idle > start + lifetime * 1_000_000_000
  }

  /**
   What the polling came to: the deadline is looked at before the cancellation,
   and after both the server's answer gives the outcome, each error its own.
   */
  lemma OutcomeIs(da: DeviceAuthorization, start: int, env: nat -> Round, n: nat, r: Outcome)
    requires EndsIn(da, start, env, n, r)
    ensures Late(da, start, env, n) ==> r == ExpiredDeviceCode
    ensures !Late(da, start, env, n) && env(n).cancelled ==> r == Cancelled
    ensures !Late(da, start, env, n) && !env(n).cancelled ==>
      && !Retries(env(n).answer)
      && (r == Credentials <==> env(n).answer.Token? && env(n).answer.accessToken != "")
      && (r == AccessDenied <==> env(n).answer == Denied)
      && (r == ExpiredDeviceCode <==> env(n).answer == ExpiredToken)
      && r != Cancelled
    ensures forall i :: 0 <= i < n ==>
      !Late(da, start, env, i) && !env(i).cancelled && (env(i).answer == Pending || env(i).answer == SlowDown)
  {
    forall i | 0 <= i < n
      ensures !Late(da, start, env, i) && !env(i).cancelled && (env(i).answer == Pending || env(i).answer == SlowDown)
    {
      assert RoundEnds(da, start, env, i).None?;
    }
  }

  /** The state of the loop before a round, as the bounds need it. */
  ghost predicate Polling(da: DeviceAuthorization, start: int, s: Looping)
  {
    && WellTimed(da, start, s.polls) && s.now >= LastTime(start, s.polls)
    && (s.polls != [] ==> Retries(s.polls[|s.polls| - 1].answer))
    && s.interval == IntervalAfter(da, s.polls) * SECOND
  }

  lemma AfterIsPolling(da: DeviceAuthorization, start: int, s: Looping, round: Round)
    requires Polling(da, start, s) && Stopped(da, start, s, round).None? && Retries(round.answer)
    ensures Polling(da, start, After(s, round)) && |After(s, round).polls| == |s.polls| + 1
    ensures After(s, round).now >= s.now + Waited(s.interval)
  {
    OneMore(da, start, s.polls, PollIn(s, round));
  }

  lemma {:induction false} BeforeIsPolling(da: DeviceAuthorization, start: int, env: nat -> Round, n: nat)
    requires GoesOnFor(da, start, env, n)
    ensures Polling(da, start, Before(da, start, env, n)) && |Before(da, start, env, n).polls| == n
    ensures da.interval >= 1 ==>
      Before(da, start, env, n).interval >= SECOND && Before(da, start, env, n).now >= start + n * SECOND
  {
    if n > 0 {
      BeforeIsPolling(da, start, env, n - 1);
      assert RoundEnds(da, start, env, n - 1).None?;
      AfterIsPolling(da, start, Before(da, start, env, n - 1), env(n - 1));
    }
  }

  /** Every round takes time: the program waits, or the request is not answered at once. */
  ghost predicate TakesTime(da: DeviceAuthorization, env: nat -> Round)
  {
    da.interval >= 1 || forall n: nat :: env(n).request >= 1
  }

  /** Polls until the first round that ends it, and says which round that was. */
  method PollForToken(da: DeviceAuthorization, start: int, env: nat -> Round) returns (r: Outcome, round: nat)
    requires TakesTime(da, env)
    ensures EndsIn(da, start, env, round, r)
  {
    var expiresIn := da.expiresIn;
    if expiresIn <= 0 {
      expiresIn := DEFAULT_LIFETIME;
    }
    var deadline := start + expiresIn * SECOND;
    var interval := da.interval * SECOND;
    var now := start;
    round := 0;
    while true
      invariant GoesOnFor(da, start, env, round)
      invariant now == Before(da, start, env, round).now && interval == Before(da, start, env, round).interval
      decreases deadline + SECOND - now
    {
      BeforeIsPolling(da, start, env, round);
      var step := env(round);
      now := now + step.idle;
      if now > deadline {
        return ExpiredDeviceCode, round;
      }
      if step.cancelled {
        return Cancelled, round;
      }
      now := now + Waited(interval) + step.oversleep + step.request;
      var settled := Settle(step.answer);
      if settled.Some? {
        return settled.value, round;
      }
      round := round + 1;
      if step.answer.SlowDown? {
        interval := interval + SLOW_DOWN * SECOND;
      }
    }
  }

  ghost predicate Ends(da: DeviceAuthorization, start: int, env: nat -> Round)
  {
    exists n: nat, r: Outcome :: EndsIn(da, start, env, n, r)
  }

  lemma {:induction false} SomeRoundEnds(da: DeviceAuthorization, start: int, env: nat -> Round, n: nat)
    requires !GoesOnFor(da, start, env, n)
    ensures Ends(da, start, env)
  {
    if GoesOnFor(da, start, env, n - 1) {
      assert RoundEnds(da, start, env, n - 1).Some?;
      assert EndsIn(da, start, env, n - 1, RoundEnds(da, start, env, n - 1).value);
    } else {
      SomeRoundEnds(da, start, env, n - 1);
    }
  }

  lemma DeadlineEnds(da: DeviceAuthorization, start: int, env: nat -> Round)
    requires da.interval >= 1
    ensures !GoesOnFor(da, start, env, Lifetime(da) + 2)
  {
    var n := Lifetime(da) + 1;
    if GoesOnFor(da, start, env, n + 1) {
      assert RoundEnds(da, start, env, n).None?;
      BeforeIsPolling(da, start, env, n);
    }
  }

  /** A server that is always pending and answers in no time. */
  function Instantly(n: nat): Round
  {
    Round(0, false, 0, 0, Pending)
  }

  lemma {:induction false} InstantlyStandsStill(da: DeviceAuthorization, start: int, n: nat)
    requires da.interval <= 0
    ensures Before(da, start, Instantly, n).now == start && Before(da, start, Instantly, n).interval <= 0
    ensures GoesOnFor(da, start, Instantly, n)
  {
    if n > 0 {
      InstantlyStandsStill(da, start, n - 1);
      assert RoundEnds(da, start, Instantly, n - 1).None?;
    }
  }

  ghost predicate AlwaysEnds(da: DeviceAuthorization, start: int)
  {
    forall env: nat -> Round :: Ends(da, start, env)
  }

  /**
   The polling ends whatever the environment does if and only if the interval is
   positive, which `StartDeviceFlow` sees to.
   */
  lemma AlwaysEndsIff(da: DeviceAuthorization, start: int)
    ensures AlwaysEnds(da, start) <==> da.interval >= 1
  {
    if da.interval >= 1 {
      forall env: nat -> Round ensures Ends(da, start, env) {
        DeadlineEnds(da, start, env);
        SomeRoundEnds(da, start, env, Lifetime(da) + 2);
      }
    } else {
      forall n: nat, r: Outcome ensures !EndsIn(da, start, Instantly, n, r) {
        InstantlyStandsStill(da, start, n + 1);
        assert RoundEnds(da, start, Instantly, n).None?;
      }
      assert !Ends(da, start, Instantly);
    }
  }

  // ---------------------------------------------------------------------
  // Bounds

  /** The least time `n` slow_downs take up: the first interval, then five seconds more each. */
  function Ladder(interval: int, n: nat): int
  {
    if n == 0 then 0 else Ladder(interval, n - 1) + interval + SLOW_DOWN * (n - 1)
  }

  lemma {:induction false} LadderClosed(interval: int, n: nat)
    ensures 2 * Ladder(interval, n) == 2 * n * interval + SLOW_DOWN * n * (n - 1)
  {
    if n > 0 {
      LadderClosed(interval, n - 1);
    }
  }

  /** What has passed by the last poll, at least, in seconds: a wait for each poll and a rung for each slow_down. */
  lemma {:induction false} TimeSpent(da: DeviceAuthorization, start: int, polls: seq<Poll>)
    requires da.interval >= 1 && WellTimed(da, start, polls)
    ensures LastTime(start, polls) - start >= |polls| * da.interval * SECOND
    ensures LastTime(start, polls) - start >= Ladder(da.interval, SlowDowns(polls)) * SECOND
    ensures SlowDowns(polls) <= |polls|
  {
    if polls != [] {
      var before := polls[..|polls| - 1];
      TimeSpent(da, start, before);
      assert IntervalAfter(da, before) >= da.interval;
      assert (|polls| - 1) * da.interval + da.interval == |polls| * da.interval;
    }
  }

  /** The bounds on the numbers of polls and of slow_downs. */
  predicate WithinBounds(da: DeviceAuthorization, n: nat, s: nat)
  {
    && (n >= 1 ==> (n - 1) * da.interval <= Lifetime(da))
    && (s >= 1 ==> 2 * (s - 1) * da.interval + SLOW_DOWN * (s - 1) * (s - 2) <= 2 * Lifetime(da))
  }

  /**
   However the server, the clock and the user behave: `n` polls need the
   interval `n - 1` times within the lifetime of the code, and `s` slow_down
   answers need the growing intervals before them, a quadratic bound.
   */
  lemma PollingIsBounded(da: DeviceAuthorization, start: int, polls: seq<Poll>)
    requires da.interval >= 1 && WellTimed(da, start, polls)
    ensures WithinBounds(da, |polls|, SlowDowns(polls))
  {
    if polls != [] {
      var before := polls[..|polls| - 1];
      TimeSpent(da, start, before);
      var s := SlowDowns(polls);
      if s >= 1 {
        LadderMonotone(da.interval, s - 1, SlowDowns(before));
        LadderClosed(da.interval, s - 1);
      }
    }
  }

  /** The polls of a run, including the last. */
  lemma PollsAreWellTimed(da: DeviceAuthorization, start: int, env: nat -> Round, n: nat)
    requires GoesOnFor(da, start, env, n)
    ensures WellTimed(da, start, PollsUpTo(da, start, env, n))
    ensures |PollsUpTo(da, start, env, n)| ==
      if Stopped(da, start, Before(da, start, env, n), env(n)).Some? then n else n + 1
  {
    BeforeIsPolling(da, start, env, n);
    var s := Before(da, start, env, n);
    if Stopped(da, start, s, env(n)).None? {
      OneMore(da, start, s.polls, PollIn(s, env(n)));
    }
  }

  /** So every run of the loop, in whatever environment, keeps within the bounds. */
  lemma EveryRunIsBounded(da: DeviceAuthorization, start: int, env: nat -> Round, n: nat, r: Outcome)
    requires da.interval >= 1 && EndsIn(da, start, env, n, r)
    ensures var polls := PollsUpTo(da, start, env, n); n <= |polls| && WithinBounds(da, |polls|, SlowDowns(polls))
  {
    PollsAreWellTimed(da, start, env, n);
    PollingIsBounded(da, start, PollsUpTo(da, start, env, n));
  }

  lemma {:induction false} LadderMonotone(interval: int, m: nat, n: nat)
    requires interval >= 1 && m <= n
    ensures Ladder(interval, m) <= Ladder(interval, n)
  {
    if m < n {
      LadderMonotone(interval, m, n - 1);
    }
  }

  /** Every poll waits the first interval and five seconds for each slow_down so far. */
  lemma {:induction false} WaitBeforePoll(da: DeviceAuthorization, start: int, polls: seq<Poll>, k: nat)
    requires WellTimed(da, start, polls) && k < |polls|
    ensures polls[k].wait == (da.interval + SLOW_DOWN * SlowDowns(polls[..k])) * SECOND
    ensures polls[k].sentAt >= LastTime(start, polls[..k]) + polls[k].wait
  {
    var before := polls[..|polls| - 1];
    if k < |before| {
      WaitBeforePoll(da, start, before, k);
      assert before[..k] == polls[..k];
    }
  }

  /** With the defaults of the program a code is polled at most 361 times and slowed down at most 27 times. */
  lemma DefaultBounds(da: DeviceAuthorization, start: int, polls: seq<Poll>)
    requires da.interval == DEFAULT_INTERVAL && da.expiresIn <= 0 && WellTimed(da, start, polls)
    ensures |polls| <= 361 && SlowDowns(polls) <= 27
  {
    if polls != [] {
      PollingIsBounded(da, start, polls);
    }
  }
}
