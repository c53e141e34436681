/**
 * The phase runner over the persisted top-level state: skip what is completed, run, wait out rate limits, and mark every
 * ending. What the phase function does, whether a write goes through and where the process dies are answers from outside.
 */
module PhaseRunner {
  import opened JsStrings
  import opened RateLimitWait

  datatype Status = Running | Completed | Failed

  datatype Entry = Entry(status: Status, startedAt: int, completedAt: Option<int>, failureReason: Option<string>)

  /** The parts of the top-level state that matter here; the others pass through the same shallow merge as the stage. */
  datatype TopState = TopState(workflowStage: Option<string>, phases: map<string, Entry>)

  /** A partial state: what is `None` or not in the map is not mentioned by the write. */
  datatype Patch = Patch(workflowStage: Option<string>, phases: map<string, EntryPatch>)

  datatype EntryPatch = EntryPatch(status: Status, startedAt: int, completedAt: Option<int>, failureReason: Option<string>)

  function OrOld<T>(new_: Option<T>, old_: Option<T>): Option<T> {
    if new_.Some? then new_ else old_
  }

  /** The fields of the new entry laid over those of the old one, which keeps what the new one does not mention. */
  function MergeEntry(existing: Option<Entry>, patch: EntryPatch): Entry {
    var completedAt := if existing.Some? then existing.value.completedAt else None;
    var failureReason := if existing.Some? then existing.value.failureReason else None;
    Entry(patch.status, patch.startedAt, OrOld(patch.completedAt, completedAt), OrOld(patch.failureReason, failureReason))
  }

  function EntryOf(phases: map<string, Entry>, name: string): Option<Entry> {
    if name in phases then Some(phases[name]) else None
  }

  function Merge(state: TopState, patch: Patch): TopState {
    TopState(
      OrOld(patch.workflowStage, state.workflowStage),
      map name | name in state.phases.Keys + patch.phases.Keys ::
        if name in patch.phases then MergeEntry(EntryOf(state.phases, name), patch.phases[name]) else state.phases[name])
  }

  const NO_STATE := TopState(None, map[])

  /** The state file of one workflow; `None` when there is none. */
  class StateFile {
    var content: Option<TopState>
    /** Every state that has been persisted, in order. */
    var history: seq<TopState>

    constructor ()
      ensures content == None && history == []
    {
      content, history := None, [];
    }

    function Existing(): TopState
      reads this
    {
      if content.Some? then content.value else NO_STATE
    }

    /** A file that is there but cannot be read is taken for an empty one. */
    method WriteTopLevelState(patch: Patch, readable: bool)
      modifies this
      ensures content == Some(Merge(if readable then old(Existing()) else NO_STATE, patch))
      ensures history == old(history) + [Merge(if readable then old(Existing()) else NO_STATE, patch)]
    {
      var existing := if readable && content.Some? then content.value else NO_STATE;
      var mergedPhases := existing.phases;
      var names := patch.phases.Keys;
      while names != {}
        invariant names <= patch.phases.Keys
        invariant mergedPhases.Keys == existing.phases.Keys + (patch.phases.Keys - names)
        invariant forall n :: n in mergedPhases ==>
                    mergedPhases[n] == if n in patch.phases && n !in names
                                       then MergeEntry(EntryOf(existing.phases, n), patch.phases[n]) else existing.phases[n]
        decreases names
      {
        var name :| name in names;
        mergedPhases := mergedPhases[name := MergeEntry(EntryOf(existing.phases, name), patch.phases[name])];
        names := names - {name};
      }
      var merged := TopState(OrOld(patch.workflowStage, existing.workflowStage), mergedPhases);
      assert merged == Merge(existing, patch);
      content := Some(merged);
      history := history + [merged];
    }
  }

  // ---------------------------------------------------------------- what happens to an attempt

  datatype Error = RateLimited(limit: Limit) | TimedOut | OtherError

  /** After the function has resolved: persisting the totals, writing the completed entry, recording the phase for old readers. */
  datatype Spot = AtPersist | AtCompletedWrite | AtRecord

  /** How a write finds the state file: it can read it, it cannot and so starts from nothing, or it throws. */
  datatype Access = Sees | Blind | Refused

  /** A failure is marked, and a handler then writes its stage and exits, unless it throws before the write or behind it. */
  datatype Failing = Failing(mark: Access, handler: Access, throwsBehind: bool)

  /**
   * One attempt. The process may die while the function runs; the function may reject; or it resolves, after which a step
   * may throw, or the process may die in it. `blind` is whether the completed entry is written by a write that cannot read.
   */
  datatype Attempt =
    | Dies
    | Rejects(error: Error, at: int, failing: Failing)
    | Resolves(cost: real, at: int, blind: bool, trouble: Trouble)

  datatype Trouble = NoTrouble | StepThrows(spot: Spot, failing: Failing) | DiesAt(spot: Spot)

  datatype Outcome = Skipped | Returned(cost: real) | Threw | Exited | Died

  /**
   * One call of `runPhase` with a name: what it meets, attempt by attempt. When they run out, the process has died waiting.
   * `skipReadFails` is whether the test for a completed phase cannot read the state.
   */
  datatype Call = Call(name: string, startedAt: int, skipReadFails: bool, runningMark: Access, attempts: seq<Attempt>)

  datatype Write = Write(patch: Patch, blind: bool)

  function Put(patch: Patch, access: Access): seq<Write> {
    if access.Refused? then [] else [Write(patch, access.Blind?)]
  }

  function RunningPatch(call: Call): Patch {
    Patch(Some(call.name + "_running"), map[call.name := EntryPatch(Running, call.startedAt, None, None)])
  }

  function CompletedPatch(call: Call, at: int): Patch {
    Patch(Some(call.name + "_completed"), map[call.name := EntryPatch(Completed, call.startedAt, Some(at), None)])
  }

  function FailedPatch(call: Call, at: int, reason: Option<string>): Patch {
    Patch(None, map[call.name := EntryPatch(Failed, call.startedAt, Some(at), reason)])
  }

  const TIMEOUT_PATCH := Patch(Some("phase_timeout"), map[])
  const PAUSE_PATCH := Patch(Some("paused"), map[])

  /** What a failing attempt writes before it throws or exits. */
  function FailureWrites(call: Call, error: Error, at: int, f: Failing): seq<Write> {
    if f.mark.Refused? then []
    else match error
      case OtherError => Put(FailedPatch(call, at, None), f.mark)
      case TimedOut => Put(FailedPatch(call, at, Some("agent_timeout")), f.mark) + Put(TIMEOUT_PATCH, f.handler)
      case RateLimited(_) => Put(FailedPatch(call, at, None), f.mark) + Put(PAUSE_PATCH, f.handler)
  }

  /** `handlePhaseTimeout` and `handleRateLimitPause` end the process; any other error is thrown on. */
  function FailureOutcome(error: Error, f: Failing): Outcome {
    if error.OtherError? || f.mark.Refused? || f.handler.Refused? || f.throwsBehind then Threw else Exited
  }

  predicate WaitsInProcess(attempt: Attempt) {
    attempt.Rejects? && attempt.error.RateLimited? && CanWait(attempt.error.limit)
  }

  datatype Effect = Effect(writes: seq<Write>, costs: seq<real>, calls: nat, outcome: Outcome)

  function CompletedWrite(call: Call, at: int, blind: bool): Write {
    Write(CompletedPatch(call, at), blind)
  }

  function OneAttempt(call: Call, attempt: Attempt): Effect {
    match attempt
    case Dies => Effect([], [], 1, Died)
    case Rejects(error, at, f) => Effect(FailureWrites(call, error, at, f), [], 1, FailureOutcome(error, f))
    case Resolves(cost, at, blind, NoTrouble) => Effect([CompletedWrite(call, at, blind)], [cost], 1, Returned(cost))
    case Resolves(cost, at, blind, StepThrows(AtRecord, f)) =>
      Effect([CompletedWrite(call, at, blind)] + FailureWrites(call, OtherError, at, f), [cost], 1, Threw)
    case Resolves(cost, at, _, StepThrows(_, f)) => Effect(FailureWrites(call, OtherError, at, f), [cost], 1, Threw)
    case Resolves(cost, at, blind, DiesAt(AtRecord)) => Effect([CompletedWrite(call, at, blind)], [cost], 1, Died)
    case Resolves(cost, at, _, DiesAt(_)) => Effect([], [cost], 1, Died)
  }

  function Attempts(call: Call, attempts: seq<Attempt>): Effect {
    if attempts == [] then Effect([], [], 0, Died)
    else if WaitsInProcess(attempts[0]) then
      var rest := Attempts(call, attempts[1..]);
      rest.(calls := rest.calls + 1)
    else OneAttempt(call, attempts[0])
  }

  /** The persisted entry decides when there is one; the list an old run left behind only when there is none. */
  predicate IsCompleted(state: Option<TopState>, legacy: set<string>, name: string) {
    if state.Some? && name in state.value.phases then state.value.phases[name].status == Completed else name in legacy
  }

  function CallEffect(state: Option<TopState>, legacy: set<string>, call: Call): Effect {
    if IsSkipped(state, legacy, call) then Effect([], [], 0, Skipped)
    else if call.runningMark.Refused? then Effect([], [], 0, Threw)
    else
      var e := Attempts(call, call.attempts);
      e.(writes := Put(RunningPatch(call), call.runningMark) + e.writes)
  }

  predicate IsSkipped(state: Option<TopState>, legacy: set<string>, call: Call) {
    IsCompleted(if call.skipReadFails then None else state, legacy, call.name)
  }

  function After(state: Option<TopState>, w: Write): TopState {
    Merge(if w.blind then NO_STATE else Persisted(state), w.patch)
  }

  function Persisted(state: Option<TopState>): TopState {
    if state.Some? then state.value else NO_STATE
  }

  function WriteAll(state: Option<TopState>, writes: seq<Write>): Option<TopState>
    decreases |writes|
  {
    if writes == [] then state else WriteAll(Some(After(state, writes[0])), writes[1..])
  }

  /** Every state that is persisted on the way. */
  function StatesOf(state: Option<TopState>, writes: seq<Write>): seq<TopState>
    decreases |writes|
  {
    if writes == [] then [] else [After(state, writes[0])] + StatesOf(Some(After(state, writes[0])), writes[1..])
  }

  function Sum(costs: seq<real>): real {
    if costs == [] then 0.0 else Sum(costs[..|costs| - 1]) + Last(costs)
  }

  lemma WriteAllOfConcat(state: Option<TopState>, a: seq<Write>, b: seq<Write>)
    ensures WriteAll(state, a + b) == WriteAll(WriteAll(state, a), b)
    ensures StatesOf(state, a + b) == StatesOf(state, a) + StatesOf(WriteAll(state, a), b)
    decreases |a|
  {
    hide After;
    if a == [] {
      assert a + b == b;
    } else {
      assert (a + b)[1..] == a[1..] + b;
      WriteAllOfConcat(Some(After(state, a[0])), a[1..], b);
    }
  }

  class CostTracker {
    var totalCostUsd: real

    constructor ()
      ensures totalCostUsd == 0.0
    {
      totalCostUsd := 0.0;
    }

    method Accumulate(cost: real)
      modifies this
      ensures totalCostUsd == old(totalCostUsd) + cost
    {
      totalCostUsd := totalCostUsd + cost;
    }
  }

  lemma OneWrite(state: Option<TopState>, w: Write)
    ensures WriteAll(state, [w]) == Some(After(state, w))
    ensures StatesOf(state, [w]) == [After(state, w)]
  {
    hide After;
    assert [w][1..] == [];
  }

  /** The file has gone from one content to another by writing these. */
  twostate predicate Wrote(file: StateFile, writes: seq<Write>)
    reads file
  {
    && file.content == WriteAll(old(file.content), writes)
    && file.history == old(file.history) + StatesOf(old(file.content), writes)
  }

  /** A write as it finds the file; one that throws has written nothing. */
  method PutTopLevelState(file: StateFile, patch: Patch, access: Access) returns (threw: bool)
    modifies file
    ensures Wrote(file, Put(patch, access)) && (threw <==> access.Refused?)
  {
    NothingWritten(file.content);
    if access.Refused? { return true; }
    OneWrite(file.content, Write(patch, access.Blind?));
    hide Merge, WriteAll, StatesOf;
    file.WriteTopLevelState(patch, access.Sees?);
    threw := false;
  }

  method PutTwo(file: StateFile, first: Patch, a: Access, second: Patch, b: Access) returns (threw: bool)
    modifies file
    ensures a.Refused? ==> Wrote(file, []) && threw
    ensures !a.Refused? ==> Wrote(file, Put(first, a) + Put(second, b)) && (threw <==> b.Refused?)
  {
    NothingWritten(file.content);
    WriteAllOfConcat(file.content, Put(first, a), Put(second, b));
    hide WriteAll, StatesOf;
    threw := PutTopLevelState(file, first, a);
    if !threw { threw := PutTopLevelState(file, second, b); }
  }

  /** Marks the phase as failed, and ends the process for a timeout or a pause. */
  method FailPhase(file: StateFile, call: Call, error: Error, at: int, f: Failing) returns (outcome: Outcome)
    modifies file
    ensures Wrote(file, FailureWrites(call, error, at, f)) && outcome == FailureOutcome(error, f)
  {
    NothingWritten(file.content);
    hide WriteAll, StatesOf, FailedPatch, TIMEOUT_PATCH, PAUSE_PATCH, Put;
    var threw;
    match error {
      case TimedOut =>
        threw := PutTwo(file, FailedPatch(call, at, Some("agent_timeout")), f.mark, TIMEOUT_PATCH, f.handler);
      case RateLimited(_) =>
        threw := PutTwo(file, FailedPatch(call, at, None), f.mark, PAUSE_PATCH, f.handler);
      case OtherError =>
        NothingPut(FailedPatch(call, at, None));
        threw := PutTopLevelState(file, FailedPatch(call, at, None), f.mark);
        return Threw;
    }
    outcome := if threw || f.throwsBehind then Threw else Exited;
  }

  lemma NothingPut(patch: Patch)
    ensures Put(patch, Refused) == []
  {}

  /** The function resolves: the cost is counted, then persisted, then the phase is marked as completed, then recorded. */
  method CompletePhase(file: StateFile, tracker: CostTracker, call: Call, cost: real, at: int, blind: bool, trouble: Trouble)
      returns (outcome: Outcome)
    modifies file, tracker
    ensures var e := OneAttempt(call, Resolves(cost, at, blind, trouble)); Wrote(file, e.writes) && outcome == e.outcome
    ensures tracker.totalCostUsd == old(tracker.totalCostUsd) + cost
  {
    var before := file.content;
    NothingWritten(before);
    hide WriteAll, StatesOf, FailureWrites, CompletedPatch;
    tracker.Accumulate(cost);
    if trouble.DiesAt? && !trouble.spot.AtRecord? { return Died; }
    if trouble.StepThrows? && !trouble.spot.AtRecord? {
      outcome := FailPhase(file, call, OtherError, at, trouble.failing);
      return;
    }
    var _ := PutTopLevelState(file, CompletedPatch(call, at), if blind then Blind else Sees);
    if trouble.DiesAt? { return Died; }
    if trouble.StepThrows? {
      WriteAllOfConcat(before, [CompletedWrite(call, at, blind)], FailureWrites(call, OtherError, at, trouble.failing));
      outcome := FailPhase(file, call, OtherError, at, trouble.failing);
      return;
    }
    outcome := Returned(cost);
  }

  /** An attempt that is not waited out. */
  method MakeAttempt(file: StateFile, tracker: CostTracker, call: Call, attempt: Attempt) returns (outcome: Outcome)
    modifies file, tracker
    ensures var e := OneAttempt(call, attempt);
            && Wrote(file, e.writes) && outcome == e.outcome
            && tracker.totalCostUsd == old(tracker.totalCostUsd) + Sum(e.costs)
  {
    NothingWritten(file.content);
    NoCost();
    OneCostAtMost(call, attempt);
    hide WriteAll, StatesOf, FailureWrites, CompletedPatch, Sum;
    match attempt {
      case Dies => outcome := Died;
      case Rejects(error, at, f) => outcome := FailPhase(file, call, error, at, f);
      case Resolves(cost, at, blind, trouble) => outcome := CompletePhase(file, tracker, call, cost, at, blind, trouble);
    }
  }

  /** When each attempt began, and when each rejection was judged. */
  datatype Timing = Timing(begun: seq<int>, judged: seq<int>)

  /** The attempt at `k` began when the wait decided on after the one before it was over. */
  predicate WaitIsKept(attempts: seq<Attempt>, t: Timing, k: int)
    requires 0 < k < |t.begun| <= |attempts| && |t.judged| >= |t.begun| - 1
  {
    WaitsInProcess(attempts[k - 1]) && WaitedOut(attempts[k - 1].error.limit, t.judged[k - 1], t.begun[k])
  }

  predicate WaitsAreKept(attempts: seq<Attempt>, t: Timing) {
    && |t.begun| <= |attempts| && |t.judged| >= |t.begun| - 1
    && forall k :: 0 < k < |t.begun| ==> WaitIsKept(attempts, t, k)
  }

  /** `i` attempts have been waited out, the last of them by now. */
  predicate WaitedSoFar(attempts: seq<Attempt>, t: Timing, i: nat, now: int) {
    && i <= |attempts| && |t.begun| == |t.judged| == i
    && WaitsAreKept(attempts, t)
    && (i > 0 ==> WaitsInProcess(attempts[i - 1]) && WaitedOut(attempts[i - 1].error.limit, t.judged[i - 1], now))
  }

  lemma OneMoreWait(attempts: seq<Attempt>, t: Timing, i: nat, now: int, begun: int, judged: int, later: int)
    requires WaitedSoFar(attempts, t, i, now) && now <= begun
    requires i < |attempts| && WaitsInProcess(attempts[i]) && WaitedOut(attempts[i].error.limit, judged, later)
    ensures WaitedSoFar(attempts, Timing(t.begun + [begun], t.judged + [judged]), i + 1, later)
  {
    var t' := Timing(t.begun + [begun], t.judged + [judged]);
    forall k | 0 < k < i + 1 ensures WaitIsKept(attempts, t', k) {
      if k < i { assert WaitIsKept(attempts, t, k); }
    }
  }

  lemma LastBeginning(attempts: seq<Attempt>, t: Timing, i: nat, now: int, begun: int)
    requires WaitedSoFar(attempts, t, i, now) && now <= begun && i < |attempts|
    ensures WaitsAreKept(attempts, t.(begun := t.begun + [begun])) && |t.begun| == i
  {
    var t' := t.(begun := t.begun + [begun]);
    forall k | 0 < k < i + 1 ensures WaitIsKept(attempts, t', k) {
      if k < i { assert WaitIsKept(attempts, t, k); }
    }
  }

  lemma SkipWaits(call: Call, i: nat)
    requires i < |call.attempts| && WaitsInProcess(call.attempts[i])
    ensures Attempts(call, call.attempts[i..]) ==
            Attempts(call, call.attempts[i + 1..]).(calls := Attempts(call, call.attempts[i + 1..]).calls + 1)
  {
    assert call.attempts[i..][1..] == call.attempts[i + 1..];
  }

  lemma NoMoreWaits(call: Call, i: nat)
    requires i <= |call.attempts| && (i < |call.attempts| ==> !WaitsInProcess(call.attempts[i]))
    ensures Attempts(call, call.attempts[i..]) ==
            if i == |call.attempts| then Effect([], [], 0, Died) else OneAttempt(call, call.attempts[i])
  {
    hide OneAttempt;
  }

  /**
   * One call: what it persists, what it adds to the tracker and how it ends are its effect, and every attempt after the
   * first begins only when the wait for the one before it is over.
   */
  method RunPhase(file: StateFile, tracker: CostTracker, clock: Clock, legacy: set<string>, call: Call)
      returns (outcome: Outcome, timing: Timing)
    modifies file, tracker, clock
    ensures var e := CallEffect(old(file.content), legacy, call);
            && outcome == e.outcome && |timing.begun| == e.calls
            && file.content == WriteAll(old(file.content), e.writes)
            && file.history == old(file.history) + StatesOf(old(file.content), e.writes)
            && tracker.totalCostUsd == old(tracker.totalCostUsd) + Sum(e.costs)
    ensures WaitsAreKept(call.attempts, timing)
  {
    timing := Timing([], []);
    NothingWritten(file.content);
    NoCost();
    hide WriteAll, StatesOf, IsCompleted, RunningPatch, Attempts, Sum, Put;
    var seen := if call.skipReadFails then None else file.content;
    if IsCompleted(seen, legacy, call.name) { return Skipped, timing; }
    WriteAllOfConcat(file.content, Put(RunningPatch(call), call.runningMark), Attempts(call, call.attempts).writes);
    NothingPut(RunningPatch(call));
    var threw := PutTopLevelState(file, RunningPatch(call), call.runningMark);
    if threw { return Threw, timing; }
    ghost var running, past := file.content, file.history;
    outcome, timing := RunAttempts(file, tracker, clock, call);
    ghost var e := Attempts(call, call.attempts);
    assert past + StatesOf(running, e.writes) ==
           old(file.history) + (StatesOf(old(file.content), Put(RunningPatch(call), call.runningMark)) + StatesOf(running, e.writes));
  }

  /** The loop of a call: rate limits that can be waited out are, and whatever else happens ends it. */
  method RunAttempts(file: StateFile, tracker: CostTracker, clock: Clock, call: Call) returns (outcome: Outcome, timing: Timing)
    modifies file, tracker, clock
    ensures var e := Attempts(call, call.attempts);
            && outcome == e.outcome && |timing.begun| == e.calls
            && file.content == WriteAll(old(file.content), e.writes)
            && file.history == old(file.history) + StatesOf(old(file.content), e.writes)
            && tracker.totalCostUsd == old(tracker.totalCostUsd) + Sum(e.costs)
    ensures WaitsAreKept(call.attempts, timing)
  {
    timing := Timing([], []);
    assert WaitedSoFar(call.attempts, timing, 0, clock.time);
    hide WriteAll, StatesOf, OneAttempt, Attempts, WaitedSoFar, WaitsAreKept, WaitedOut, Sum;
    var i := 0;
    assert call.attempts[0..] == call.attempts;
    while i < |call.attempts| && WaitsInProcess(call.attempts[i])
      invariant i <= |call.attempts|
      invariant WaitedSoFar(call.attempts, timing, i, clock.time)
      invariant Attempts(call, call.attempts) == Attempts(call, call.attempts[i..]).(calls := Attempts(call, call.attempts[i..]).calls + i)
      invariant file.content == old(file.content) && file.history == old(file.history)
      invariant tracker.totalCostUsd == old(tracker.totalCostUsd)
    {
      ghost var now := clock.time;
      var begun := clock.Now();
      var _, judged := RideOut(clock, call.attempts[i].error.limit);
      OneMoreWait(call.attempts, timing, i, now, begun, judged, clock.time);
      SkipWaits(call, i);
      timing := Timing(timing.begun + [begun], timing.judged + [judged]);
      i := i + 1;
    }
    NoMoreWaits(call, i);
    if i == |call.attempts| {
      NothingWritten(file.content);
      NoCost();
      WaitedToTheEnd(call.attempts, timing, i, clock.time);
      return Died, timing;
    }
    ghost var now := clock.time;
    var begun := clock.Now();
    LastBeginning(call.attempts, timing, i, now, begun);
    timing := timing.(begun := timing.begun + [begun]);
    OneCostAtMost(call, call.attempts[i]);
    outcome := MakeAttempt(file, tracker, call, call.attempts[i]);
  }

  lemma NoCost()
    ensures Sum([]) == 0.0
  {}

  lemma WaitedToTheEnd(attempts: seq<Attempt>, t: Timing, i: nat, now: int)
    requires WaitedSoFar(attempts, t, i, now)
    ensures WaitsAreKept(attempts, t) && |t.begun| == i
  {}

  lemma NothingWritten(state: Option<TopState>)
    ensures WriteAll(state, []) == state && StatesOf(state, []) == []
  {}

  lemma OneCostAtMost(call: Call, attempt: Attempt)
    ensures var e := OneAttempt(call, attempt);
            e.calls == 1 && |e.costs| <= 1 && Sum(e.costs) == if e.costs == [] then 0.0 else e.costs[0]
  {
    var e := OneAttempt(call, attempt);
    hide FailureWrites, CompletedPatch, FailureOutcome;
    if e.costs != [] { assert e.costs[..0] == []; }
  }
}
