/** The wait for a rate limit to reset: the decision, the sliced sleep, and the two together. Times are milliseconds. */
module RateLimitWait {
  import opened JsStrings

  const MIN_RATE_LIMIT_WAIT_MS := 60_000
  const MAX_SLEEP_SLICE_MS := 60_000

  datatype LimitType = FiveHour | OtherLimit

  /** `resetsAt` is in seconds since the epoch. */
  datatype Limit = Limit(limitType: Option<LimitType>, resetsAt: Option<int>)

  datatype Decision = WaitInProcess(until: int) | Enqueue(resetsAt: Option<int>)

  predicate CanWait(limit: Limit) {
    limit.limitType == Some(FiveHour) && limit.resetsAt.Some?
  }

  function ResetInstant(limit: Limit): int
    requires limit.resetsAt.Some?
  {
    limit.resetsAt.value * 1000
  }

  function Decide(limit: Limit, now: int): Decision {
    if !CanWait(limit) then Enqueue(limit.resetsAt)
    else if ResetInstant(limit) > now then WaitInProcess(ResetInstant(limit))
    else WaitInProcess(now + MIN_RATE_LIMIT_WAIT_MS)
  }

  /** Any clock at all: time passes between readings, and a sleep takes at least as long as it was asked to. */
  class Clock {
    var time: int
    var sleeps: seq<int>

    method Now() returns (now: int)
      modifies this`time
      ensures now == time >= old(time)
    {
      var passed: nat :| true;
      time := time + passed;
      now := time;
    }

    method Sleep(ms: int)
      modifies this
      ensures time >= old(time) + ms && time >= old(time)
      ensures sleeps == old(sleeps) + [ms]
    {
      var late: nat :| true;
      time := time + (if ms > 0 then ms else 0) + late;
      sleeps := sleeps + [ms];
    }
  }

  /** Sleeps within the slice, as few of them as the time to wait takes: with the last one left out they fall short of it. */
  predicate AreSlices(slept: seq<int>, slice: int, wait: int) {
    && (forall i :: 0 <= i < |slept| ==> 0 < slept[i] <= slice)
    && (slept != [] ==> (|slept| - 1) * slice < wait)
  }

  lemma OneMoreSlice(n: int, slice: int, before: int, wait: int)
    requires n * slice <= before && before + slice <= wait
    ensures (n + 1) * slice <= wait
  {}

  method SleepUntil(clock: Clock, until: int, maxSliceMs: int)
    modifies clock
    ensures clock.time >= until && clock.time >= old(clock.time)
    ensures old(clock.sleeps) <= clock.sleeps
    ensures AreSlices(clock.sleeps[|old(clock.sleeps)|..], if maxSliceMs > 1 then maxSliceMs else 1, until - old(clock.time))
  {
    var slice := if maxSliceMs > 1 then maxSliceMs else 1;
    ghost var slept: seq<int> := [];
    var now := clock.Now();
    while now < until
      invariant now == clock.time >= old(clock.time)
      invariant clock.sleeps == old(clock.sleeps) + slept
      invariant AreSlices(slept, slice, until - old(clock.time))
      invariant now < until ==> |slept| * slice <= clock.time - old(clock.time)
      decreases until - now
    {
      var ms := Min(until - now, slice);
      ghost var before := clock.time - old(clock.time);
      clock.Sleep(ms);
      now := clock.Now();
      if now < until { OneMoreSlice(|slept|, slice, before, clock.time - old(clock.time)); }
      slept := slept + [ms];
    }
    assert clock.sleeps[|old(clock.sleeps)|..] == slept;
  }

  /** The one sleep of a wait, through the sliced clock: it ends at `until` or later. */
  method WaitForReset(clock: Clock, until: int)
    modifies clock
    ensures clock.time >= until && clock.time >= old(clock.time)
  {
    var now := clock.Now();
    var ms := if until > now then until - now else 0;
    var start := clock.Now();
    SleepUntil(clock, start + ms, MAX_SLEEP_SLICE_MS);
  }

  /** What a decided wait promises the attempt that follows it. */
  predicate WaitedOut(limit: Limit, decidedAt: int, resumedAt: int) {
    CanWait(limit) ==>
      && resumedAt >= ResetInstant(limit)
      && (ResetInstant(limit) <= decidedAt ==> resumedAt >= decidedAt + MIN_RATE_LIMIT_WAIT_MS)
  }

  method RideOut(clock: Clock, limit: Limit) returns (waited: bool, decidedAt: int)
    modifies clock
    ensures waited <==> CanWait(limit)
    ensures clock.time >= decidedAt >= old(clock.time)
    ensures waited ==> WaitedOut(limit, decidedAt, clock.time)
  {
    decidedAt := clock.Now();
    match Decide(limit, decidedAt)
    case Enqueue(_) => waited := false;
    case WaitInProcess(until) =>
      WaitForReset(clock, until);
      waited := true;
  }

  /**
   * A wait is chosen for a five-hour limit with a reset time and for nothing else. It ends at the reset when that lies ahead,
   * however far, and a full minimum wait from now otherwise; the queue is told of the reset time when there is one.
   */
  lemma DecisionTable(limit: Limit, now: int)
    ensures
      var decision := Decide(limit, now);
      if limit.limitType == Some(FiveHour) && limit.resetsAt.Some? then
        && decision.WaitInProcess? && decision.until > now && WaitedOut(limit, now, decision.until)
        && (limit.resetsAt.value * 1000 > now ==> decision.until == limit.resetsAt.value * 1000)
        && (limit.resetsAt.value * 1000 <= now ==> decision.until == now + 60_000)
      else decision == Enqueue(limit.resetsAt)
  {}

  /** No earlier moment would do: the wait that is decided on is the shortest that keeps its promise. */
  lemma NoWaitIsShorter(limit: Limit, now: int, resumedAt: int)
    requires limit.limitType == Some(FiveHour) && limit.resetsAt.Some? && WaitedOut(limit, now, resumedAt)
    ensures Decide(limit, now).WaitInProcess? && resumedAt >= Decide(limit, now).until
  {}
}
