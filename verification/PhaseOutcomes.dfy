/** How one call of the phase runner ends and what it leaves in the state file, told from what its attempts meet. */
module PhaseOutcomes {
  import opened JsStrings
  import opened RateLimitWait
  import opened PhaseRunner
  import opened PhaseHistory

  /** A five-hour limit with a reset time, and nothing else, is waited out within the call. */
  predicate IsWaitedOut(attempt: Attempt) {
    && attempt.Rejects? && attempt.error.RateLimited?
    && attempt.error.limit.limitType == Some(FiveHour) && attempt.error.limit.resetsAt.Some?
  }

  /** The attempt at `k` is the first that is not waited out; there is none when `k` is the number of attempts. */
  predicate IsEnding(attempts: seq<Attempt>, k: nat) {
    && k <= |attempts| && (forall i :: 0 <= i < k ==> IsWaitedOut(attempts[i]))
    && (k < |attempts| ==> !IsWaitedOut(attempts[k]))
  }

  lemma WaitedOutIff(attempt: Attempt)
    ensures WaitsInProcess(attempt) <==> IsWaitedOut(attempt)
  {}

  /** Every attempt up to the ending one is made, and that one alone decides what is written, counted and answered. */
  lemma {:induction false} EndingDecides(call: Call, attempts: seq<Attempt>, k: nat)
    requires IsEnding(attempts, k)
    ensures
      var e := Attempts(call, attempts);
      if k == |attempts| then e == Effect([], [], k, Died)
      else e == OneAttempt(call, attempts[k]).(calls := k + 1)
    decreases |attempts|
  {
    if attempts != [] {
      WaitedOutIff(attempts[0]);
      hide OneAttempt, WaitsInProcess;
      if k > 0 {
        EndingDecides(call, attempts[1..], k - 1);
      } else {
        OneCall(call, attempts[0]);
      }
    }
  }

  lemma OneCall(call: Call, attempt: Attempt)
    ensures OneAttempt(call, attempt).calls == 1
  {
    hide FailureWrites, FailureOutcome, CompletedWrite;
  }

  // ---------------------------------------------------------------- how it ends

  predicate IsReturn(attempt: Attempt) {
    attempt.Resolves? && attempt.trouble.NoTrouble?
  }

  /** The process dies in the function, or behind it before the call is over. */
  predicate IsDeath(attempt: Attempt) {
    attempt.Dies? || (attempt.Resolves? && attempt.trouble.DiesAt?)
  }

  /** A timeout, or a limit that is not waited out, ends the process, unless marking it or the handler itself throws. */
  predicate IsExit(attempt: Attempt) {
    && attempt.Rejects? && !attempt.error.OtherError?
    && !attempt.failing.mark.Refused? && !attempt.failing.handler.Refused? && !attempt.failing.throwsBehind
  }

  lemma OutcomeOfAttempt(call: Call, attempt: Attempt)
    ensures
      var e := OneAttempt(call, attempt);
      && (e.outcome.Returned? <==> IsReturn(attempt)) && (IsReturn(attempt) ==> e.outcome == Returned(attempt.cost))
      && (e.outcome == Died <==> IsDeath(attempt)) && (e.outcome == Exited <==> IsExit(attempt)) && e.outcome != Skipped
      && e.costs == if attempt.Resolves? then [attempt.cost] else []
  {
    hide FailureWrites, CompletedWrite;
  }

  /** The phase counts as completed: by its entry where it has one that can be read, else by the list of an old run. */
  predicate CountsAsCompleted(state: Option<TopState>, legacy: set<string>, call: Call) {
    if !call.skipReadFails && state.Some? && call.name in state.value.phases
    then state.value.phases[call.name].status == Completed
    else call.name in legacy
  }

  /** How a call ends, how often the function is called and what is counted, for every sequence of attempts. */
  lemma EndOfCall(state: Option<TopState>, legacy: set<string>, call: Call, k: nat)
    requires IsEnding(call.attempts, k)
    ensures
      var e := CallEffect(state, legacy, call);
      if CountsAsCompleted(state, legacy, call) then e == Effect([], [], 0, Skipped)
      else if call.runningMark.Refused? then e == Effect([], [], 0, Threw)
      else if k == |call.attempts| then e.outcome == Died && e.calls == k && e.costs == []
      else
        var last := call.attempts[k];
        && e.calls == k + 1 && e.costs == (if last.Resolves? then [last.cost] else [])
        && (e.outcome.Returned? <==> IsReturn(last)) && (IsReturn(last) ==> e.outcome == Returned(last.cost))
        && (e.outcome == Died <==> IsDeath(last)) && (e.outcome == Exited <==> IsExit(last))
        && (e.outcome == Threw <==> !IsReturn(last) && !IsDeath(last) && !IsExit(last))
  {
    SkippedIff(state, legacy, call);
    EndingDecides(call, call.attempts, k);
    if k < |call.attempts| { OutcomeOfAttempt(call, call.attempts[k]); }
    hide Attempts, OneAttempt, IsSkipped, IsEnding, IsReturn, IsDeath, IsExit, RunningPatch, CountsAsCompleted;
    SomeOutcome(state, legacy, call);
  }

  lemma SkippedIff(state: Option<TopState>, legacy: set<string>, call: Call)
    ensures IsSkipped(state, legacy, call) <==> CountsAsCompleted(state, legacy, call)
  {}

  lemma SomeOutcome(state: Option<TopState>, legacy: set<string>, call: Call)
    ensures var outcome := CallEffect(state, legacy, call).outcome;
            outcome in {Skipped, Threw, Exited, Died} || outcome.Returned?
  {}

  // ---------------------------------------------------------------- what it leaves

  /** The status the ending attempt leaves the phase with; `Running` is what it was marked as. */
  function StatusLeft(attempt: Attempt): Status {
    match attempt
    case Dies => Running
    case Rejects(_, _, failing) => if failing.mark.Refused? then Running else Failed
    case Resolves(_, _, _, NoTrouble) => Completed
    case Resolves(_, _, _, DiesAt(spot)) => if spot.AtRecord? then Completed else Running
    case Resolves(_, _, _, StepThrows(spot, failing)) =>
      if !failing.mark.Refused? then Failed else if spot.AtRecord? then Completed else Running
  }

  /** An attempt all of whose writes can read the state. */
  predicate AllIsSeen(attempt: Attempt) {
    match attempt
    case Dies => true
    case Rejects(_, _, failing) => !failing.mark.Blind? && !failing.handler.Blind?
    case Resolves(_, _, blind, trouble) =>
      !blind && (trouble.StepThrows? ==> !trouble.failing.mark.Blind? && !trouble.failing.handler.Blind?)
  }

  /** The stage of the workflow that it leaves, when every write can read the state. */
  function StageLeft(name: string, attempt: Attempt): string {
    match attempt
    case Dies => name + "_running"
    case Rejects(error, _, failing) =>
      if failing.mark.Refused? || failing.handler.Refused? || error.OtherError? then name + "_running"
      else if error.TimedOut? then "phase_timeout" else "paused"
    case Resolves(_, _, _, trouble) =>
      if trouble.NoTrouble? || trouble.spot.AtRecord? then name + "_completed" else name + "_running"
  }

  /** What a timed-out attempt leaves as its reason; everything else leaves the reason that was there. */
  predicate LeavesReason(attempt: Attempt) {
    attempt.Rejects? && attempt.error.TimedOut? && !attempt.failing.mark.Refused?
  }

  /** What is said of a state that the phase has an entry in: its status, start, end and reason, and the workflow's stage. */
  datatype Record = Record(status: Status, startedAt: int, completedAt: Option<int>, reason: Option<string>, stage: Option<string>)

  predicate Shows(state: TopState, name: string, record: Record) {
    && name in state.phases && state.workflowStage == record.stage
    && state.phases[name] == Entry(record.status, record.startedAt, record.completedAt, record.reason)
  }

  /** What a write lays over what is on record. */
  function Over(record: Record, w: Write, name: string): Record {
    var base := if w.blind then Record(record.status, record.startedAt, None, None, None) else record;
    var stage := OrOld(w.patch.workflowStage, base.stage);
    if name !in w.patch.phases then base.(stage := stage)
    else
      var p := w.patch.phases[name];
      Record(p.status, p.startedAt, OrOld(p.completedAt, base.completedAt), OrOld(p.failureReason, base.reason), stage)
  }

  lemma OneWriteShows(state: TopState, name: string, record: Record, w: Write)
    requires Shows(state, name, record) && (w.blind ==> name in w.patch.phases)
    ensures WriteAll(Some(state), [w]) == Some(After(Some(state), w)) && Shows(After(Some(state), w), name, Over(record, w, name))
  {
    OneWrite(Some(state), w);
  }

  lemma TwoWritesShow(state: TopState, name: string, record: Record, a: Write, b: Write)
    requires Shows(state, name, record) && (a.blind ==> name in a.patch.phases) && (b.blind ==> name in b.patch.phases)
    ensures
      var after := WriteAll(Some(state), [a, b]);
      after.Some? && Shows(after.value, name, Over(Over(record, a, name), b, name))
  {
    OneWriteShows(state, name, record, a);
    OneWriteShows(After(Some(state), a), name, Over(record, a, name), b);
    hide After, Shows, Over;
    TwoWrites(Some(state), a, b);
  }

  /** What the ending attempt leaves of a phase that was marked as running. */
  function Left(call: Call, attempt: Attempt, marked: Record): Record {
    Record(
      StatusLeft(attempt), call.startedAt,
      if StatusLeft(attempt) == Running then marked.completedAt else if attempt.Dies? then None else Some(attempt.at),
      if LeavesReason(attempt) then Some("agent_timeout") else marked.reason,
      Some(StageLeft(call.name, attempt)))
  }

  lemma RejectionLeaves(state: TopState, call: Call, attempt: Attempt, marked: Record)
    requires attempt.Rejects? && AllIsSeen(attempt) && Shows(state, call.name, marked)
    requires marked.status == Running && marked.startedAt == call.startedAt && marked.stage == Some(call.name + "_running")
    ensures var after := WriteAll(Some(state), OneAttempt(call, attempt).writes);
            after.Some? && Shows(after.value, call.name, Left(call, attempt, marked))
  {
    var f, reason := attempt.failing, if attempt.error.TimedOut? then Some("agent_timeout") else None;
    var failed := Write(FailedPatch(call, attempt.at, reason), false);
    var handled := Write(if attempt.error.TimedOut? then TIMEOUT_PATCH else PAUSE_PATCH, false);
    var writes := OneAttempt(call, attempt).writes;
    if f.mark.Refused? {
      assert writes == [];
      NothingWritten(Some(state));
    } else if attempt.error.OtherError? || f.handler.Refused? {
      assert writes == [failed];
      OneWriteShows(state, call.name, marked, failed);
    } else {
      assert writes == [failed] + [handled] == [failed, handled];
      TwoWritesShow(state, call.name, marked, failed, handled);
    }
    hide Shows, WriteAll, OneAttempt;
  }

  lemma ResolutionLeaves(state: TopState, call: Call, attempt: Attempt, marked: Record)
    requires attempt.Resolves? && AllIsSeen(attempt) && Shows(state, call.name, marked)
    requires marked.status == Running && marked.startedAt == call.startedAt && marked.stage == Some(call.name + "_running")
    ensures var after := WriteAll(Some(state), OneAttempt(call, attempt).writes);
            after.Some? && Shows(after.value, call.name, Left(call, attempt, marked))
  {
    var trouble := attempt.trouble;
    var completed := CompletedWrite(call, attempt.at, false);
    var failed := Write(FailedPatch(call, attempt.at, None), false);
    var writes := OneAttempt(call, attempt).writes;
    var fails := trouble.StepThrows? && !trouble.failing.mark.Refused?;
    if trouble.NoTrouble? || trouble.spot.AtRecord? {
      if fails {
        assert writes == [completed] + [failed] == [completed, failed];
        TwoWritesShow(state, call.name, marked, completed, failed);
      } else {
        assert writes == [completed];
        OneWriteShows(state, call.name, marked, completed);
      }
    } else if fails {
      assert writes == [failed];
      OneWriteShows(state, call.name, marked, failed);
    } else {
      assert writes == [];
      NothingWritten(Some(state));
    }
    hide Shows, WriteAll, OneAttempt;
  }

  /** What a phase shows once it is marked as running: a new start, and the end and reason of an earlier entry. */
  function Marked(state: Option<TopState>, call: Call): Record {
    var before := EntryOf(Persisted(state).phases, call.name);
    Record(
      Running, call.startedAt,
      if before.Some? then before.value.completedAt else None, if before.Some? then before.value.failureReason else None,
      Some(call.name + "_running"))
  }

  /**
   * What a call that is not skipped leaves in the state file, when every read of it succeeds: the phase's entry and the
   * workflow's stage, for every sequence of attempts and for whatever was persisted before.
   */
  lemma EntryAfterCall(state: Option<TopState>, legacy: set<string>, call: Call, k: nat)
    requires IsEnding(call.attempts, k) && call.runningMark == Sees && !CountsAsCompleted(state, legacy, call)
    requires k < |call.attempts| ==> AllIsSeen(call.attempts[k])
    ensures
      var after := WriteAll(state, CallEffect(state, legacy, call).writes);
      && after.Some?
      && Shows(after.value, call.name,
               if k == |call.attempts| then Marked(state, call) else Left(call, call.attempts[k], Marked(state, call)))
  {
    SkippedIff(state, legacy, call);
    EndingDecides(call, call.attempts, k);
    RunningFirst(state, legacy, call);
    var mark := Write(RunningPatch(call), false);
    var running := After(state, mark);
    assert Shows(running, call.name, Marked(state, call));
    hide Shows, Attempts, OneAttempt, AllIsSeen, CallEffect, WriteAll, After;
    if k == |call.attempts| {
      NothingWritten(Some(running));
    } else {
      var attempt := call.attempts[k];
      match attempt
      case Dies => DeathWritesNothing(call, attempt); NothingWritten(Some(running));
      case Rejects(_, _, _) => RejectionLeaves(running, call, attempt, Marked(state, call));
      case Resolves(_, _, _, _) => ResolutionLeaves(running, call, attempt, Marked(state, call));
    }
  }

  lemma DeathWritesNothing(call: Call, attempt: Attempt)
    requires attempt.Dies?
    ensures OneAttempt(call, attempt).writes == []
  {}

  // ---------------------------------------------------------------- what the trace shows

  function Called(trace: seq<Event>, name: string): nat {
    if trace == [] then 0 else (if trace[0] == Event.Called(name) then 1 else 0) + Called(trace[1..], name)
  }

  function Persists(trace: seq<Event>): seq<TopState> {
    if trace == [] then [] else (if trace[0].Wrote? then [trace[0].state] else []) + Persists(trace[1..])
  }

  lemma {:induction false} CalledOfConcat(a: seq<Event>, b: seq<Event>, name: string)
    ensures Called(a + b, name) == Called(a, name) + Called(b, name)
    ensures Persists(a + b) == Persists(a) + Persists(b)
    decreases |a|
  {
    if a == [] {
      assert a + b == b;
    } else {
      assert (a + b)[1..] == a[1..] + b;
      CalledOfConcat(a[1..], b, name);
    }
  }

  lemma {:induction false} CalledOfCalls(n: nat, name: string)
    ensures Called(Calls(name, n), name) == n && Persists(Calls(name, n)) == []
  {
    if n > 0 {
      assert Calls(name, n)[1..] == Calls(name, n - 1);
      CalledOfCalls(n - 1, name);
    }
  }

  lemma {:induction false} CalledOfWrites(states: seq<TopState>, name: string)
    ensures Called(Writes(states), name) == 0 && Persists(Writes(states)) == states
  {
    if states != [] {
      assert Writes(states)[1..] == Writes(states[1..]);
      CalledOfWrites(states[1..], name);
    }
  }

  /** A call's trace shows every state it persisted, in order, and its function as often as it was called. */
  lemma TraceShowsTheCall(state: Option<TopState>, legacy: set<string>, call: Call)
    ensures
      var e, trace := CallEffect(state, legacy, call), CallTrace(state, legacy, call);
      Persists(trace) == StatesOf(state, e.writes) && Called(trace, call.name) == e.calls
  {
    var e := CallEffect(state, legacy, call);
    var states := StatesOf(state, e.writes);
    SomethingIsWritten(state, legacy, call);
    hide CallEffect, Called, Persists, Calls, Writes;
    if states == [] {
      NothingShown(call.name);
    } else {
      var first, calls, rest := [Wrote(states[0])], Calls(call.name, e.calls), Writes(states[1..]);
      OneShown(states[0], call.name);
      CalledOfCalls(e.calls, call.name);
      CalledOfWrites(states[1..], call.name);
      CalledOfConcat(first + calls, rest, call.name);
      CalledOfConcat(first, calls, call.name);
      assert [states[0]] + [] + states[1..] == states;
    }
  }

  lemma NothingShown(name: string)
    ensures Called([], name) == 0 && Persists([]) == []
  {}

  lemma OneShown(state: TopState, name: string)
    ensures Called([Wrote(state)], name) == 0 && Persists([Wrote(state)]) == [state]
  {
    assert [Wrote(state)][1..] == [];
  }

  lemma SomethingIsWritten(state: Option<TopState>, legacy: set<string>, call: Call)
    ensures var e := CallEffect(state, legacy, call); StatesOf(state, e.writes) == [] <==> e.writes == []
    ensures CallEffect(state, legacy, call).calls > 0 ==> CallEffect(state, legacy, call).writes != []
  {
    hide Attempts, IsSkipped, After, RunningPatch;
  }
}
