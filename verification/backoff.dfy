/** Retrying a failure without a counter: waiting for as long as it has lasted already. */
module Backoff {
  import opened Workload
  import opened Phases
  import opened WaitClocks

  const HEAD := 960 * SECOND

  /** However the Ready condition looks, the next attempt is a minute away at the least and
      a quarter of an hour at the most; a stamp in the future counts as none. */
  lemma IntervalIsClamped(ready: Option<Condition>, now: int)
    ensures HEALTH_CHECK_INTERVAL <= FailureRetryInterval(ready, now) <= MAX_FAILURE_RETRY_INTERVAL
    ensures ready.None? || ready.value.since > now ==> FailureRetryInterval(ready, now) == HEALTH_CHECK_INTERVAL
    ensures ready.Some? && HEALTH_CHECK_INTERVAL <= now - ready.value.since <= MAX_FAILURE_RETRY_INTERVAL ==>
              now + FailureRetryInterval(ready, now) - ready.value.since == 2 * (now - ready.value.since)
  {
  }

  /** What one failing pass leaves in storage, and when it asks to come back. */
  function FailOnce(ready: Option<Condition>, now: int): (Option<Condition>, int)
  {
    var failed := SetReady(ready, false, VerdictOther, now);
    (Persisted(failed), FailureRetryInterval(failed, now))
  }

  /** The stored condition after failing passes at the given times. */
  function AfterFailures(ready: Option<Condition>, times: seq<int>): Option<Condition>
  {
    if times == [] then ready else FailOnce(AfterFailures(ready, times[..|times| - 1]), times[|times| - 1]).0
  }

  /** Each attempt comes no sooner than the one before asked for. */
  ghost predicate RequeueDriven(ready: Option<Condition>, times: seq<int>)
  {
    forall i: nat :: i + 1 < |times| ==> ComesBack(ready, times, i)
  }

  ghost predicate ComesBack(ready: Option<Condition>, times: seq<int>, i: nat)
    requires i + 1 < |times|
  {
    times[i + 1] >= times[i] + FailOnce(AfterFailures(ready, times[..i]), times[i]).1
  }

  /** The earliest the `i`-th attempt can be, counted from the recorded start. */
  function Earliest(i: nat): int
  {
    if i == 0 then 0
    else if i == 1 then 60 * SECOND
    else if i == 2 then 120 * SECOND
    else if i == 3 then 240 * SECOND
    else if i == 4 then 480 * SECOND
    else HEAD + (i - 5) * MAX_FAILURE_RETRY_INTERVAL
  }

  /** Ready was not False before, so the first failure sets the start of the clock, and
      later ones leave it. */
  lemma {:induction false} StartIsKept(ready: Option<Condition>, times: seq<int>)
    requires times != [] && (ready.None? || ready.value.ok)
    ensures var c := AfterFailures(ready, times);
            c.Some? && !c.value.ok && c.value.since == ToSecond(times[0])
  {
    if |times| > 1 {
      StartIsKept(ready, times[..|times| - 1]);
    } else {
      assert AfterFailures(ready, times[..0]) == ready;
    }
  }

  lemma NextIsLater(e: int, i: nat, next: int)
    requires e >= Earliest(i) && i >= 1
    requires next >= e + FailureRetryInterval(Some(Condition(false, VerdictOther, 0)), e)
    ensures next >= Earliest(i + 1)
  {
  }

  /** Attempts come at 0, 60, 120, 240, 480 and 960 seconds at the earliest, and then
      every 900, counted from the start of the failure to the second. */
  lemma {:induction false} AttemptsAreSpaced(ready: Option<Condition>, times: seq<int>, i: nat)
    requires i < |times| && (ready.None? || ready.value.ok)
    requires RequeueDriven(ready, times)
    ensures times[i] - ToSecond(times[0]) >= Earliest(i)
  {
    if i > 0 {
      AttemptsAreSpaced(ready, times, i - 1);
      assert ComesBack(ready, times, i - 1);
      var start := ToSecond(times[0]);
      if i == 1 {
        assert AfterFailures(ready, times[..0]) == ready;
      } else {
        StartIsKept(ready, times[..i - 1]);
        NextIsLater(times[i - 1] - start, i - 1, times[i] - start);
      }
    }
  }

  lemma CountFromEarliest(i: nat, elapsed: int)
    requires elapsed >= HEAD && Earliest(i) <= elapsed
    ensures i + 1 <= 6 + (elapsed - HEAD) / MAX_FAILURE_RETRY_INTERVAL
  {
  }

  /** So within `elapsed` of the start, from sixteen minutes on, there are at most six
      attempts and one more for every full quarter of an hour over. */
  lemma AttemptsAreBounded(ready: Option<Condition>, times: seq<int>, elapsed: int)
    requires times != [] && (ready.None? || ready.value.ok) && RequeueDriven(ready, times)
    requires elapsed >= HEAD && times[|times| - 1] - ToSecond(times[0]) <= elapsed
    ensures |times| <= 6 + (elapsed - HEAD) / MAX_FAILURE_RETRY_INTERVAL
  {
    AttemptsAreSpaced(ready, times, |times| - 1);
    CountFromEarliest(|times| - 1, elapsed);
  }

  function Schedule(start: int, n: nat): seq<int>
  {
    if n == 0 then [] else Schedule(start, n - 1) + [start + Earliest(n - 1)]
  }

  lemma {:induction false} ScheduleAt(start: int, n: nat, i: nat)
    requires i < n
    ensures |Schedule(start, n)| == n && Schedule(start, n)[i] == start + Earliest(i)
  {
    if n > 1 {
      ScheduleAt(start, n - 1, if i < n - 1 then i else 0);
    }
  }

  lemma ScheduleIsDriven(ready: Option<Condition>, start: int, n: nat, i: nat)
    requires i + 1 < n && (ready.None? || ready.value.ok) && start % SECOND == 0
    ensures |Schedule(start, n)| == n && ComesBack(ready, Schedule(start, n), i)
  {
    var times := Schedule(start, n);
    ScheduleAt(start, n, i);
    ScheduleAt(start, n, i + 1);
    ScheduleAt(start, n, 0);
    if i == 0 {
      assert AfterFailures(ready, times[..0]) == ready;
    } else {
      StartIsKept(ready, times[..i]);
    }
  }

  /** The bound cannot be improved: coming back as soon as asked, from a full second on,
      is such a run and meets it. */
  lemma BoundIsReached(ready: Option<Condition>, start: int, k: nat)
    requires (ready.None? || ready.value.ok) && start % SECOND == 0
    ensures var times := Schedule(start, 6 + k);
            && |times| == 6 + k && times[0] == start && RequeueDriven(ready, times)
            && times[|times| - 1] - start == HEAD + k * MAX_FAILURE_RETRY_INTERVAL
  {
    var n := 6 + k;
    ScheduleAt(start, n, 0);
    ScheduleAt(start, n, n - 1);
    forall i: nat | i + 1 < n ensures ComesBack(ready, Schedule(start, n), i) {
      ScheduleIsDriven(ready, start, n, i);
    }
  }
}
