/** The catch-up loop that turns a last execution into the next fire time (pkg/models/job.go). */
module JobSchedule {

  /** Nanoseconds since Go's zero time. */
  type Instant = int

  const ZERO_TIME: Instant := 0
  const SECOND := 1_000_000_000
  const MINUTE := 60 * SECOND

  /** What is known of a parsed cron schedule: the next activation lies strictly ahead. */
  ghost predicate Advancing(next: Instant -> Instant) {
    forall t :: next(t) > t
  }

  /** time.Duration.Round: to the nearest multiple of `unit`, halves away from zero. */
  function Round(d: int, unit: nat): int
    requires unit > 0
  {
    if d < 0 then -RoundNat(-d, unit) else RoundNat(d, unit)
  }

  function RoundNat(d: nat, unit: nat): int
    requires unit > 0
  {
    var r := d % unit;
    if 2 * r < unit then d - r else d - r + unit
  }

  /** A job that never ran counts from its creation. */
  function LastExecution(last: Instant, created: Instant): Instant {
    if last == ZERO_TIME then created else last
  }

  /** The k-th activation after `start`. */
  function Orbit(next: Instant -> Instant, start: Instant, k: nat): Instant
    decreases k
  {
    if k == 0 then start else Orbit(next, next(start), k - 1)
  }

  /** How many activations the catch-up loop skips. */
  function Steps(next: Instant -> Instant, start: Instant, now: Instant): nat
    requires Advancing(next)
    decreases if start < now then now - start else 0
  {
    if start < now then 1 + Steps(next, next(start), now) else 0
  }

  function NextTime(next: Instant -> Instant, start: Instant, now: Instant): Instant
    requires Advancing(next)
  {
    Orbit(next, start, Steps(next, start, now))
  }

  method GetNextExecutionTime(next: Instant -> Instant, last: Instant, created: Instant, now: Instant)
    returns (currentTime: Instant)
    requires Advancing(next)
    ensures currentTime == NextTime(next, LastExecution(last, created), now)
    ensures FirstDue(next, if last == ZERO_TIME then created else last, now, currentTime)
  {
    currentTime := if last == ZERO_TIME then created else last;
    while Round(now - currentTime, SECOND) >= 0 && currentTime < now
      invariant NextTime(next, LastExecution(last, created), now) == NextTime(next, currentTime, now)
      decreases if currentTime < now then now - currentTime else 0
    {
      currentTime := next(currentTime);
    }
    RoundKeepsSign(now - currentTime, SECOND);
    NextTimeIsFirstDue(next, LastExecution(last, created), now);
  }

  /** The rounded half of the loop guard never ends the loop early. */
  lemma RoundKeepsSign(d: int, unit: nat)
    requires unit > 0
    ensures d >= 0 ==> Round(d, unit) >= 0
  {
  }

  /** Rounded to the minute, nothing is left of a duration exactly when it is less than half a minute. */
  lemma RoundToZero(d: int)
    ensures Round(d, MINUTE) < 1 <==> 2 * d < MINUTE
  {
    if d >= MINUTE {
      assert d - d % MINUTE > 0;
    }
  }

  lemma {:induction false} OrbitAdvances(next: Instant -> Instant, start: Instant, j: nat, k: nat)
    requires Advancing(next) && j < k
    ensures Orbit(next, start, j) < Orbit(next, start, k)
    decreases k
  {
    if j > 0 {
      OrbitAdvances(next, next(start), j - 1, k - 1);
    } else if k > 1 {
      OrbitAdvances(next, next(start), 0, k - 1);
    }
  }

  lemma {:induction false} OrbitSplits(next: Instant -> Instant, start: Instant, j: nat, k: nat)
    ensures Orbit(next, Orbit(next, start, j), k) == Orbit(next, start, j + k)
    decreases j
  {
    if j > 0 {
      OrbitSplits(next, next(start), j - 1, k);
    }
  }

  /** The result is the first activation that is not before `now`. */
  lemma {:induction false} NextTimeIsFirst(next: Instant -> Instant, start: Instant, now: Instant, j: nat)
    requires Advancing(next)
    ensures NextTime(next, start, now) >= now
    ensures Orbit(next, start, j) < now <==> j < Steps(next, start, now)
    decreases if start < now then now - start else 0
  {
    if start < now {
      NextTimeIsFirst(next, next(start), now, if j == 0 then 0 else j - 1);
    } else if j > 0 {
      OrbitAdvances(next, start, 0, j);
    }
  }

  /** No activation at or after `now` lies before the result, so none is skipped. */
  lemma NoActivationSkipped(next: Instant -> Instant, start: Instant, now: Instant, j: nat)
    requires Advancing(next) && Orbit(next, start, j) >= now
    ensures NextTime(next, start, now) <= Orbit(next, start, j)
  {
    NextTimeIsFirst(next, start, now, j);
    if Steps(next, start, now) < j {
      OrbitAdvances(next, start, Steps(next, start, now), j);
    }
  }

  /** `at` is an activation counted from `start`, and the first of them that is not before `now`. */
  ghost predicate FirstDue(next: Instant -> Instant, start: Instant, now: Instant, at: Instant) {
    && at >= now && (exists k: nat :: at == Orbit(next, start, k))
    && forall k: nat :: Orbit(next, start, k) >= now ==> at <= Orbit(next, start, k)
  }

  lemma NextTimeIsFirstDue(next: Instant -> Instant, start: Instant, now: Instant)
    requires Advancing(next)
    ensures FirstDue(next, start, now, NextTime(next, start, now))
  {
    NextTimeIsFirst(next, start, now, 0);
    forall k: nat | Orbit(next, start, k) >= now ensures NextTime(next, start, now) <= Orbit(next, start, k) {
      NoActivationSkipped(next, start, now, k);
    }
  }

  lemma StepsMonotone(next: Instant -> Instant, start: Instant, now: Instant, later: Instant)
    requires Advancing(next) && now <= later
    ensures Steps(next, start, now) <= Steps(next, start, later)
    ensures NextTime(next, start, now) <= NextTime(next, start, later)
  {
    NextTimeIsFirst(next, start, later, Steps(next, start, later));
    NextTimeIsFirst(next, start, now, Steps(next, start, later));
    NoActivationSkipped(next, start, now, Steps(next, start, later));
  }

  /** Restarting the catch-up from an activation already passed leads to the same fire time. */
  lemma {:induction false} RestartAgrees(next: Instant -> Instant, start: Instant, now: Instant, j: nat)
    requires Advancing(next) && j <= Steps(next, start, now)
    ensures NextTime(next, Orbit(next, start, j), now) == NextTime(next, start, now)
    decreases j
  {
    if j > 0 {
      RestartAgrees(next, next(start), now, j - 1);
    }
  }

  /** Catching up twice, at `now` and again at `later`, is catching up once at `later`. */
  lemma CatchUpComposes(next: Instant -> Instant, start: Instant, now: Instant, later: Instant)
    requires Advancing(next) && now <= later
    ensures NextTime(next, NextTime(next, start, now), later) == NextTime(next, start, later)
  {
    StepsMonotone(next, start, now, later);
    RestartAgrees(next, start, later, Steps(next, start, now));
  }

  /** The fire time is the activation right after `start` exactly when `now` falls in that gap. */
  lemma NextTimeIsNext(next: Instant -> Instant, start: Instant, now: Instant)
    requires Advancing(next)
    ensures NextTime(next, start, now) == next(start) <==> start < now <= next(start)
  {
    NextTimeIsFirst(next, start, now, 0);
    NextTimeIsFirst(next, start, now, 1);
    assert Orbit(next, start, 1) == next(start);
    var k := Steps(next, start, now);
    if k > 1 {
      OrbitAdvances(next, start, 1, k);
    }
  }

  /** The fire time lies beyond `start` exactly when `start` has passed; it is never in the past. */
  lemma NextTimeMovesOn(next: Instant -> Instant, start: Instant, now: Instant)
    requires Advancing(next)
    ensures NextTime(next, start, now) > start <==> start < now
    ensures NextTime(next, start, now) >= now
  {
    NextTimeIsFirst(next, start, now, 0);
    if start < now {
      OrbitAdvances(next, start, 0, Steps(next, start, now));
    }
  }

  /**
   * Two ways to count on from `start`: from the activation right after it, or from the one reached by
   * a catch-up at `now`. A later catch-up tells them apart exactly if `start` itself is not past then.
   */
  lemma FiresAlikeIff(next: Instant -> Instant, start: Instant, now: Instant, later: Instant)
    requires Advancing(next) && now <= later
    ensures NextTime(next, next(start), later) == NextTime(next, NextTime(next, start, now), later) <==> start < later
  {
    CatchUpComposes(next, start, now, later);
    if start < later {
      RestartAgrees(next, start, later, 1);
      assert Orbit(next, start, 1) == Orbit(next, next(start), 0);
    } else {
      NextTimeMovesOn(next, next(start), later);
      NextTimeIsFirst(next, next(start), later, 0);
    }
  }
}
