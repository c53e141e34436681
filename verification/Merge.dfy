/** One tick of the merge orchestrator over the persisted state, and any sequence of ticks. */
module Merge {
  import opened JsStrings

  const MAX_PR_RESOLUTION_ATTEMPTS := 3

  datatype Stage = AwaitingMerge | Completed | Discarded | Abandoned | MergeBlocked | HumanGated | OtherStage(name: string)

  datatype State = State(stage: Option<Stage>, branchName: Option<string>, mergeRetryCount: Option<int>, parkReason: Option<string>)

  datatype PrState = OpenPr | MergedPr | ClosedPr

  datatype Reply<+T> = Threw | Gave(value: T)

  /** `red`: the scenarios failed on the branch merged with its base, which is then not merged. */
  datatype MergeResult = MergeResult(success: bool, red: bool)

  /** What happens to the write of a tick, and to the comment or notice behind it. */
  datatype Ending = WriteThrows | NoticeThrows | AllHolds

  /**
   * `readable` is whether the state file can be read at the start, and `blind` whether the write cannot read it, and so starts
   * from nothing. `orchestrator` is the fallback: no state, or one that may name a branch.
   */
  datatype Answers = Answers(
    readable: bool, blind: bool, orchestrator: Reply<Option<Option<string>>>, pr: Reply<Option<PrState>>,
    hitl: Reply<bool>, approved: Reply<bool>, worktree: Reply<()>, prepared: bool, merge: Reply<MergeResult>, ending: Ending)

  datatype Reason =
    | NoStateFile | UnexpectedStage | NoOrchestratorState | NoBranchName | NoPrFound | NoPrFoundBlocked | AlreadyMerged
    | ClosedUnmerged | HitlUnapproved | WorktreeError | MergedNow | PostMergeRed | MergeFailed | Uncaught

  // ---------------------------------------------------------------- the specification of one tick

  predicate Named(branch: Option<string>) {
    branch.Some? && branch.value != ""
  }

  function AttemptCount(s: State): int {
    1 + if s.mergeRetryCount.Some? then s.mergeRetryCount.value else 0
  }

  /** The branch a tick works on, or why there is none. */
  datatype Branch = Found | Unknown(reason: Reason)

  function BranchOf(s: State, a: Answers): Branch {
    if Named(s.branchName) then Found
    else match a.orchestrator
      case Threw => Unknown(Uncaught)
      case Gave(None) => Unknown(NoOrchestratorState)
      case Gave(Some(branch)) => if Named(branch) then Found else Unknown(NoBranchName)
  }

  predicate MayMerge(a: Answers) {
    a.pr == Gave(Some(OpenPr)) && a.hitl.Gave? && a.approved.Gave? && (a.hitl.value ==> a.approved.value)
  }

  /** The merge itself is attempted. */
  predicate Attempts(s: Option<State>, a: Answers) {
    && s.Some? && a.readable && s.value.stage == Some(AwaitingMerge) && BranchOf(s.value, a).Found?
    && MayMerge(a) && a.worktree.Gave? && a.prepared
  }

  function ReasonForPr(s: State, a: Answers): Reason {
    match a.pr
    case Threw => Uncaught
    case Gave(None) => if AttemptCount(s) >= MAX_PR_RESOLUTION_ATTEMPTS then NoPrFoundBlocked else NoPrFound
    case Gave(Some(MergedPr)) => AlreadyMerged
    case Gave(Some(ClosedPr)) => ClosedUnmerged
    case Gave(Some(OpenPr)) =>
      if a.hitl.Threw? || a.approved.Threw? then Uncaught
      else if !MayMerge(a) then HitlUnapproved
      else if a.worktree.Threw? then WorktreeError
      else if !a.prepared || a.merge.Threw? then Uncaught
      else if a.merge.value.success then MergedNow
      else if a.merge.value.red then PostMergeRed
      else MergeFailed
  }

  function ReasonOf(s: Option<State>, a: Answers): Reason {
    if s.None? || !a.readable then NoStateFile
    else if s.value.stage != Some(AwaitingMerge) then UnexpectedStage
    else if BranchOf(s.value, a).Unknown? then BranchOf(s.value, a).reason
    else ReasonForPr(s.value, a)
  }

  const NO_STATE := State(None, None, None, None)

  /** What is written for a reason onto the state that the write finds; the other fields stay. `count` is the attempt's number. */
  function StateFor(found: State, count: int, reason: Reason): State {
    match reason
    case NoStateFile | HitlUnapproved | Uncaught => found
    case UnexpectedStage | NoOrchestratorState | NoBranchName | WorktreeError => found.(stage := Some(Abandoned))
    case NoPrFound => found.(stage := Some(AwaitingMerge), mergeRetryCount := Some(count))
    case NoPrFoundBlocked => found.(stage := Some(MergeBlocked), mergeRetryCount := Some(count))
    case AlreadyMerged | MergedNow => found.(stage := Some(Completed), mergeRetryCount := Some(0))
    case ClosedUnmerged => found.(stage := Some(Discarded))
    case PostMergeRed => found.(stage := Some(HumanGated), parkReason := Some("post_merge_bdd_red"))
    case MergeFailed => found.(stage := Some(MergeBlocked))
  }

  /** A comment or notice follows the write, and what it throws ends the tick. */
  predicate Notifies(reason: Reason) {
    reason in {NoPrFoundBlocked, AlreadyMerged, ClosedUnmerged, MergedNow, MergeFailed}
  }

  predicate Writes(reason: Reason) {
    reason !in {NoStateFile, HitlUnapproved, Uncaught}
  }

  /** How the tick is seen to end: with its reason, unless the write or the notice throws. */
  function Reported(reason: Reason, ending: Ending): Reason {
    if (Writes(reason) && ending.WriteThrows?) || (Notifies(reason) && ending.NoticeThrows?) then Uncaught else reason
  }

  function Tick(s: Option<State>, a: Answers): Option<State> {
    if s.None? || a.ending.WriteThrows? || !Writes(ReasonOf(s, a)) then s
    else Some(StateFor(if a.blind then NO_STATE else s.value, AttemptCount(s.value), ReasonOf(s, a)))
  }

  // ---------------------------------------------------------------- the tick itself

  /** `merges` are the answers under which the merge was attempted. */
  class Workflow {
    var state: Option<State>
    var merges: seq<Answers>

    constructor (state: Option<State>)
      ensures this.state == state && merges == []
    {
      this.state := state;
      merges := [];
    }

    /** Lays the fields over what the write finds, and sends the notice that goes with it. */
    method End(stage: Stage, mergeRetryCount: Option<int>, parkReason: Option<string>, reason: Reason, a: Answers)
        returns (reported: Reason)
      modifies this`state
      ensures
        var found := if a.blind || old(state).None? then NO_STATE else old(state).value;
        var retries, park := OrOld(mergeRetryCount, found.mergeRetryCount), OrOld(parkReason, found.parkReason);
        var next := State(Some(stage), found.branchName, retries, park);
        state == if a.ending.WriteThrows? then old(state) else Some(next)
      ensures Writes(reason) ==> reported == Reported(reason, a.ending)
    {
      if a.ending.WriteThrows? { return Uncaught; }
      var found := if a.blind || state.None? then NO_STATE else state.value;
      var retries, park := OrOld(mergeRetryCount, found.mergeRetryCount), OrOld(parkReason, found.parkReason);
      state := Some(State(Some(stage), found.branchName, retries, park));
      reported := if Notifies(reason) && a.ending.NoticeThrows? then Uncaught else reason;
    }

    method ExecuteMerge(a: Answers) returns (reported: Reason)
      modifies this
      ensures state == Tick(old(state), a)
      ensures reported == Reported(ReasonOf(old(state), a), a.ending)
      ensures merges == old(merges) + if Attempts(old(state), a) then [a] else []
    {
      if state.None? || !a.readable { return NoStateFile; }
      var s := state.value;
      if s.stage != Some(AwaitingMerge) {
        reported := End(Abandoned, None, None, UnexpectedStage, a);
        return;
      }
      var branchName := s.branchName;
      if !Named(branchName) {
        if a.orchestrator.Threw? { return Uncaught; }
        if a.orchestrator.value.None? {
          reported := End(Abandoned, None, None, NoOrchestratorState, a);
          return;
        }
        branchName := a.orchestrator.value.value;
      }
      if !Named(branchName) {
        reported := End(Abandoned, None, None, NoBranchName, a);
        return;
      }
      if a.pr.Threw? { return Uncaught; }
      if a.pr.value.None? {
        var attemptCount := 1 + if s.mergeRetryCount.Some? then s.mergeRetryCount.value else 0;
        if attemptCount >= MAX_PR_RESOLUTION_ATTEMPTS {
          reported := End(MergeBlocked, Some(attemptCount), None, NoPrFoundBlocked, a);
        } else {
          reported := End(AwaitingMerge, Some(attemptCount), None, NoPrFound, a);
        }
        return;
      }
      if a.pr.value.value.MergedPr? {
        reported := End(Completed, Some(0), None, AlreadyMerged, a);
        return;
      }
      if a.pr.value.value.ClosedPr? {
        reported := End(Discarded, None, None, ClosedUnmerged, a);
        return;
      }
      if a.hitl.Threw? || a.approved.Threw? { return Uncaught; }
      if a.hitl.value && !a.approved.value { return HitlUnapproved; }
      if a.worktree.Threw? {
        reported := End(Abandoned, None, None, WorktreeError, a);
        return;
      }
      if !a.prepared { return Uncaught; }
      merges := merges + [a];
      if a.merge.Threw? { return Uncaught; }
      if a.merge.value.success {
        reported := End(Completed, Some(0), None, MergedNow, a);
      } else if a.merge.value.red {
        reported := End(HumanGated, None, Some("post_merge_bdd_red"), PostMergeRed, a);
      } else {
        reported := End(MergeBlocked, None, None, MergeFailed, a);
      }
    }
  }

  function OrOld<T>(new_: Option<T>, old_: Option<T>): Option<T> {
    if new_.Some? then new_ else old_
  }

  // ---------------------------------------------------------------- any sequence of ticks

  function Run(s: Option<State>, ticks: seq<Answers>): Option<State>
    decreases |ticks|
  {
    if ticks == [] then s else Run(Tick(s, ticks[0]), ticks[1..])
  }

  /** The merges attempted on the way. */
  function MergesOf(s: Option<State>, ticks: seq<Answers>): seq<Answers>
    decreases |ticks|
  {
    if ticks == [] then []
    else (if Attempts(s, ticks[0]) then [ticks[0]] else []) + MergesOf(Tick(s, ticks[0]), ticks[1..])
  }

  predicate IsAwaiting(s: Option<State>) {
    s.Some? && s.value.stage == Some(AwaitingMerge)
  }

  predicate IsCompleted(s: Option<State>) {
    s.Some? && s.value.stage == Some(Completed)
  }

  /**
   * A merge is attempted only on an open pull request, and when the issue's labels read as holding `hitl`, only on an
   * approved one. The read answers no labels when it fails, so this says nothing of labels that were not read.
   */
  lemma {:induction false} MergesAreGuarded(s: Option<State>, ticks: seq<Answers>)
    ensures forall a :: a in MergesOf(s, ticks) ==>
              a in ticks && a.pr == Gave(Some(OpenPr)) && (a.hitl == Gave(false) || a.approved == Gave(true))
    decreases |ticks|
  {
    if ticks != [] {
      hide Tick;
      MergesAreGuarded(Tick(s, ticks[0]), ticks[1..]);
    }
  }

  predicate SawTheMerge(a: Answers) {
    a.pr == Gave(Some(MergedPr)) || (MayMerge(a) && a.merge.Gave? && a.merge.value.success)
  }

  /** A tick completes the workflow only when the pull request is merged, before it or by it. */
  lemma CompletedIsMerged(s: Option<State>, a: Answers)
    requires !IsCompleted(s) && IsCompleted(Tick(s, a))
    ensures IsAwaiting(s) && SawTheMerge(a) && Tick(s, a).value.mergeRetryCount == Some(0)
  {}

  /** So in any run that ends completed and did not start so, one of the ticks saw the merge. */
  lemma {:induction false} CompletedRunsSawTheMerge(s: Option<State>, ticks: seq<Answers>)
    requires !IsCompleted(s) && IsCompleted(Run(s, ticks))
    ensures exists i :: 0 <= i < |ticks| && SawTheMerge(ticks[i])
    decreases |ticks|
  {
    var next := Tick(s, ticks[0]);
    if IsCompleted(next) {
      CompletedIsMerged(s, ticks[0]);
      assert SawTheMerge(ticks[0]);
    } else {
      hide Tick, SawTheMerge;
      CompletedRunsSawTheMerge(next, ticks[1..]);
      var i :| 0 <= i < |ticks[1..]| && SawTheMerge(ticks[1..][i]);
      assert SawTheMerge(ticks[i + 1]);
    }
  }

  /**
   * A tick keeps a waiting workflow waiting if and only if it defers, counts a missing pull request, or writes nothing, for an
   * unreadable state or for something that throws.
   */
  lemma StaysAwaitingIff(s: Option<State>, a: Answers)
    requires IsAwaiting(s)
    ensures IsAwaiting(Tick(s, a)) <==>
            a.ending.WriteThrows? || ReasonOf(s, a) in {NoStateFile, HitlUnapproved, NoPrFound, Uncaught}
    ensures IsAwaiting(Tick(s, a)) && ReasonOf(s, a) != NoPrFound ==> Tick(s, a) == s
  {}

  /** A tick that has left the state file as it was: it could not read it, or not write it. */
  predicate IsSilent(a: Answers) {
    !a.readable || a.ending.WriteThrows?
  }

  predicate IsAbandoned(s: Option<State>) {
    s.Some? && s.value.stage == Some(Abandoned)
  }

  /** Abandoned is where a workflow stays. */
  lemma {:induction false} AbandonedIsForGood(s: Option<State>, ticks: seq<Answers>)
    requires IsAbandoned(s)
    ensures IsAbandoned(Run(s, ticks))
    decreases |ticks|
  {
    if ticks != [] {
      assert IsAbandoned(Tick(s, ticks[0]));
      hide Tick;
      AbandonedIsForGood(Tick(s, ticks[0]), ticks[1..]);
    }
  }

  /**
   * A workflow that has left the waiting stage, completed or any other way, keeps its stage over a run of further ticks if
   * and only if it was abandoned already or none of them both reads and writes: the first that does abandons it, for good.
   */
  lemma {:induction false} LeftStageIsKeptIff(s: Option<State>, ticks: seq<Answers>)
    requires s.Some? && !IsAwaiting(s)
    ensures Run(s, ticks).Some?
    ensures Run(s, ticks).value.stage == s.value.stage <==> IsAbandoned(s) || forall i :: 0 <= i < |ticks| ==> IsSilent(ticks[i])
    ensures Run(s, ticks).value.stage in {s.value.stage, Some(Abandoned)}
    decreases |ticks|
  {
    if IsAbandoned(s) {
      AbandonedIsForGood(s, ticks);
    } else if ticks != [] {
      var next, rest := Tick(s, ticks[0]), ticks[1..];
      if IsSilent(ticks[0]) {
        assert next == s;
        hide Tick, IsSilent;
        assert forall i :: 0 < i < |ticks| ==> ticks[i] == rest[i - 1];
        LeftStageIsKeptIff(s, rest);
      } else {
        assert IsAbandoned(next);
        hide Tick;
        AbandonedIsForGood(next, rest);
      }
    }
  }

  /** So a completed workflow stays completed over a run if and only if no tick of it both reads and writes the state. */
  lemma CompletedStaysIff(s: Option<State>, ticks: seq<Answers>)
    requires IsCompleted(s)
    ensures IsCompleted(Run(s, ticks)) <==> forall i :: 0 <= i < |ticks| ==> IsSilent(ticks[i])
  {
    LeftStageIsKeptIff(s, ticks);
  }

  // ---------------------------------------------------------------- missing pull requests

  /** A tick that looks for the pull request, finds none and persists that. */
  predicate Misses(s: Option<State>, a: Answers) {
    IsAwaiting(s) && a.readable && BranchOf(s.value, a).Found? && a.pr == Gave(None) && !a.ending.WriteThrows?
  }

  function MissCount(s: Option<State>, ticks: seq<Answers>): nat
    decreases |ticks|
  {
    if ticks == [] then 0 else (if Misses(s, ticks[0]) then 1 else 0) + MissCount(Tick(s, ticks[0]), ticks[1..])
  }

  function RetryCount(s: Option<State>): int {
    if s.Some? && s.value.mergeRetryCount.Some? then s.value.mergeRetryCount.value else 0
  }

  lemma MissIsCounted(s: Option<State>, a: Answers)
    requires Misses(s, a)
    ensures RetryCount(Tick(s, a)) == RetryCount(s) + 1
    ensures Tick(s, a).Some? && Tick(s, a).value.stage ==
            Some(if RetryCount(s) + 1 >= MAX_PR_RESOLUTION_ATTEMPTS then MergeBlocked else AwaitingMerge)
  {}

  lemma NothingElseIsCounted(s: Option<State>, a: Answers)
    requires !Misses(s, a) && IsAwaiting(s) && IsAwaiting(Tick(s, a))
    ensures Tick(s, a) == s
  {}

  lemma LeftForGood(s: Option<State>, a: Answers)
    requires !IsAwaiting(s)
    ensures !IsAwaiting(Tick(s, a)) && !Misses(s, a)
  {}

  lemma {:induction false} RunLeftForGood(s: Option<State>, ticks: seq<Answers>)
    requires !IsAwaiting(s)
    ensures !IsAwaiting(Run(s, ticks)) && MissCount(s, ticks) == 0
    decreases |ticks|
  {
    if ticks != [] {
      LeftForGood(s, ticks[0]);
      hide Tick, Misses, IsAwaiting;
      RunLeftForGood(Tick(s, ticks[0]), ticks[1..]);
    }
  }

  /**
   * Misses add up over the whole run, whatever lies between them: a workflow still waiting has counted every one and has
   * room for another, so no run counts more than the maximum, and one that has counted that many waits no longer.
   */
  lemma {:induction false} MissesAddUp(s: Option<State>, ticks: seq<Answers>)
    requires IsAwaiting(s) && RetryCount(s) < MAX_PR_RESOLUTION_ATTEMPTS
    ensures RetryCount(s) + MissCount(s, ticks) <= MAX_PR_RESOLUTION_ATTEMPTS
    ensures IsAwaiting(Run(s, ticks)) ==>
              && RetryCount(Run(s, ticks)) == RetryCount(s) + MissCount(s, ticks)
              && RetryCount(s) + MissCount(s, ticks) < MAX_PR_RESOLUTION_ATTEMPTS
    decreases |ticks|
  {
    if ticks != [] {
      var next := Tick(s, ticks[0]);
      if Misses(s, ticks[0]) {
        MissIsCounted(s, ticks[0]);
      } else if IsAwaiting(next) {
        NothingElseIsCounted(s, ticks[0]);
      }
      if IsAwaiting(next) {
        hide Tick, Misses;
        MissesAddUp(next, ticks[1..]);
      } else {
        hide Tick, Misses;
        RunLeftForGood(next, ticks[1..]);
      }
    }
  }

  predicate Defers(s: Option<State>, a: Answers) {
    IsAwaiting(s) && ReasonOf(s, a) == HitlUnapproved
  }

  /** Every tick of the run defers or misses, as long as the workflow waits for it. */
  predicate OnlyDefersOrMisses(s: Option<State>, ticks: seq<Answers>)
    decreases |ticks|
  {
    ticks != [] && IsAwaiting(s) ==>
      (Defers(s, ticks[0]) || Misses(s, ticks[0])) && OnlyDefersOrMisses(Tick(s, ticks[0]), ticks[1..])
  }

  /** The run up to the tick that ends the waiting: a workflow that no longer waits is given no further tick. */
  function RunWhileAwaiting(s: Option<State>, ticks: seq<Answers>): Option<State>
    decreases |ticks|
  {
    if ticks == [] || !IsAwaiting(s) then s else RunWhileAwaiting(Tick(s, ticks[0]), ticks[1..])
  }

  /**
   * In such a run the workflow is blocked exactly when the misses reach the maximum, and waits unchanged but for their
   * count until then.
   */
  lemma {:induction false} LastMissBlocks(s: Option<State>, ticks: seq<Answers>)
    requires IsAwaiting(s) && RetryCount(s) < MAX_PR_RESOLUTION_ATTEMPTS && OnlyDefersOrMisses(s, ticks)
    ensures
      var end := RunWhileAwaiting(s, ticks);
      && end.Some? && RetryCount(end) == RetryCount(s) + MissCount(s, ticks)
      && end.value.stage == Some(if RetryCount(end) >= MAX_PR_RESOLUTION_ATTEMPTS then MergeBlocked else AwaitingMerge)
    decreases |ticks|
  {
    if ticks != [] {
      var next := Tick(s, ticks[0]);
      if Misses(s, ticks[0]) {
        MissIsCounted(s, ticks[0]);
      } else {
        StaysAwaitingIff(s, ticks[0]);
      }
      if IsAwaiting(next) {
        hide Tick, Misses, Defers;
        LastMissBlocks(next, ticks[1..]);
      } else {
        hide Tick, Misses, Defers;
        RunLeftForGood(next, ticks[1..]);
      }
    }
  }
}
