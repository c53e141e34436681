/** The stage of a workflow as its remote branch and pull request tell it, believed only when two reads in a row agree. */
module RemoteReconcile {
  import opened JsStrings

  const MAX_RECONCILE_VERIFICATION_RETRIES := 3

  datatype PrState = OpenPr | MergedPr | ClosedPr | OtherPr

  /** Any stage a state file may name; the remote tells only four of them. */
  type Stage = string

  datatype State = State(workflowStage: Option<Stage>, branchName: Option<string>)

  datatype Remote = Remote(branchExists: bool, pr: Option<PrState>)

  function MapArtifactsToStage(r: Remote): Option<Stage> {
    if !r.branchExists then None
    else match r.pr
      case None => Some("branch_created")
      case Some(OpenPr) => Some("awaiting_merge")
      case Some(MergedPr) => Some("completed")
      case Some(ClosedPr) => Some("discarded")
      case Some(OtherPr) => None
  }

  /** The remote that a stage tells of: a branch without a pull request, or with one that is open, merged or closed. */
  function RemoteOf(stage: Stage): Option<Remote> {
    if stage == "branch_created" then Some(Remote(true, None))
    else if stage == "awaiting_merge" then Some(Remote(true, Some(OpenPr)))
    else if stage == "completed" then Some(Remote(true, Some(MergedPr)))
    else if stage == "discarded" then Some(Remote(true, Some(ClosedPr)))
    else None
  }

  /** A stage tells exactly one remote, and a remote without the branch or with an unknown state of its pull request tells none. */
  lemma StageTellsTheRemote(r: Remote, stage: Stage)
    ensures MapArtifactsToStage(r) == Some(stage) <==> RemoteOf(stage) == Some(r)
    ensures MapArtifactsToStage(r) == None <==> !r.branchExists || r.pr == Some(OtherPr)
  {
    assert |"branch_created"| == 14 && |"awaiting_merge"| == 14 && |"completed"| == |"discarded"| == 9;
    assert "branch_created"[0] == 'b' && "awaiting_merge"[0] == 'a' && "completed"[0] == 'c' && "discarded"[0] == 'd';
  }

  function Fallback(state: Option<State>): Stage {
    if state.Some? && state.value.workflowStage.Some? then state.value.workflowStage.value else "starting"
  }

  predicate HasBranch(state: Option<State>) {
    state.Some? && state.value.branchName.Some? && state.value.branchName.value != ""
  }

  /** Without an answer from the remote it is the stage that the state names, and `starting` when it names none. */
  lemma FallbackIs(state: Option<State>, stage: Stage)
    ensures Fallback(state) == stage <==>
            || (state.Some? && state.value.workflowStage == Some(stage))
            || ((state.None? || state.value.workflowStage.None?) && stage == "starting")
    ensures HasBranch(state) <==> exists name :: name != "" && state.Some? && state.value.branchName == Some(name)
  {
    if HasBranch(state) { assert state.value.branchName == Some(state.value.branchName.value); }
  }

  function ReadAt(remote: nat -> Remote, i: nat): Option<Stage> {
    MapArtifactsToStage(remote(i))
  }

  /** The reads up to `k` all tell a stage, and each another than the one before it. */
  predicate Diverges(remote: nat -> Remote, k: nat) {
    && (forall i: nat | i < k :: ReadAt(remote, i).Some?)
    && (forall i: nat | 0 < i < k :: ReadAt(remote, i) != ReadAt(remote, i - 1))
  }

  /** The read at `k` is the first to confirm the one before it. */
  predicate ConfirmsAt(remote: nat -> Remote, k: nat) {
    k > 0 && Diverges(remote, k) && ReadAt(remote, k) == ReadAt(remote, k - 1)
  }

  /** The read at `k` is the first that tells nothing, and no two before it agree. */
  predicate IsLostAt(remote: nat -> Remote, k: nat) {
    Diverges(remote, k) && ReadAt(remote, k).None?
  }

  const LAST_READ := MAX_RECONCILE_VERIFICATION_RETRIES + 1

  method DeriveStageFromRemote(state: Option<State>, remote: nat -> Remote) returns (stage: Stage, readCount: nat)
    ensures readCount <= MAX_RECONCILE_VERIFICATION_RETRIES + 2
    ensures !HasBranch(state) ==> stage == Fallback(state) && readCount == 0
    ensures HasBranch(state) <==> readCount > 0
    ensures HasBranch(state) ==>
              && readCount > 0
              && if ConfirmsAt(remote, readCount - 1) then Some(stage) == ReadAt(remote, readCount - 1)
                 else
                   && stage == Fallback(state)
                   && (IsLostAt(remote, readCount - 1) || (readCount - 1 == LAST_READ && Diverges(remote, readCount)))
  {
    var stateFallback := Fallback(state);
    readCount := 0;
    if !HasBranch(state) { return stateFallback, readCount; }
    var prev := ReadAt(remote, 0);
    readCount := 1;
    if prev.None? { return stateFallback, readCount; }
    for i := 0 to MAX_RECONCILE_VERIFICATION_RETRIES + 1
      invariant readCount == i + 1
      invariant Diverges(remote, readCount) && prev.Some? && prev == ReadAt(remote, readCount - 1)
    {
      var next := ReadAt(remote, readCount);
      readCount := readCount + 1;
      if next == prev { return prev.value, readCount; }
      prev := next;
      if prev.None? { return stateFallback, readCount; }
    }
    stage := stateFallback;
  }

  /** The remote is believed in at most one place, and not after a read that told nothing. */
  lemma OnePlace(remote: nat -> Remote, j: nat, k: nat)
    requires ConfirmsAt(remote, j) || IsLostAt(remote, j)
    requires ConfirmsAt(remote, k) || IsLostAt(remote, k)
    ensures j == k
  {}

  lemma {:induction false} FirstAgreement(remote: nat -> Remote, from: nat, i: nat) returns (k: nat)
    requires Diverges(remote, from) && 0 < from <= i + 1
    requires forall j: nat :: j <= i ==> ReadAt(remote, j).Some?
    requires ReadAt(remote, i + 1) == ReadAt(remote, i)
    ensures from <= k <= i + 1 && ConfirmsAt(remote, k)
    decreases i + 1 - from
  {
    if ReadAt(remote, from) == ReadAt(remote, from - 1) {
      k := from;
    } else {
      k := FirstAgreement(remote, from + 1, i);
    }
  }

  /**
   * A remote that always tells a stage and stays on one from some read on is believed within the budget: at that stage,
   * or at the one two earlier reads agreed on.
   */
  lemma SettledRemoteIsBelieved(remote: nat -> Remote, i: nat, stage: Stage) returns (k: nat)
    requires i <= MAX_RECONCILE_VERIFICATION_RETRIES
    requires forall j: nat :: j <= i ==> ReadAt(remote, j).Some?
    requires ReadAt(remote, i) == ReadAt(remote, i + 1) == Some(stage)
    ensures 0 < k <= i + 1 <= LAST_READ && ConfirmsAt(remote, k)
    ensures (forall j: nat :: 0 < j <= i ==> ReadAt(remote, j) != ReadAt(remote, j - 1)) ==> ReadAt(remote, k) == Some(stage)
  {
    k := FirstAgreement(remote, 1, i);
  }

  /** A remote that keeps changing its stage is not believed, however often it is read: no budget would do. */
  lemma RestlessRemoteIsNot(remote: nat -> Remote, k: nat)
    requires forall j: nat :: j <= k ==> ReadAt(remote, j).Some?
    ensures (exists j: nat :: j <= k && ConfirmsAt(remote, j)) <==> !Diverges(remote, k + 1)
  {
    if !Diverges(remote, k + 1) {
      var i: nat :| 0 < i < k + 1 && ReadAt(remote, i) == ReadAt(remote, i - 1);
      var j := FirstAgreement(remote, 1, i - 1);
      assert ConfirmsAt(remote, j);
    } else {
      forall j: nat | j <= k ensures !ConfirmsAt(remote, j) {
        if 0 < j { assert ReadAt(remote, j) != ReadAt(remote, j - 1); }
      }
    }
  }

  /** And the loop returns it: a remote that settles on a stage within the budget, and not on another before, is reported. */
  method ReportSettled(state: Option<State>, remote: nat -> Remote, ghost i: nat, ghost settled: Stage) returns (stage: Stage)
    requires HasBranch(state) && i <= MAX_RECONCILE_VERIFICATION_RETRIES
    requires forall j: nat :: j <= i ==> ReadAt(remote, j).Some?
    requires forall j: nat :: 0 < j <= i ==> ReadAt(remote, j) != ReadAt(remote, j - 1)
    requires ReadAt(remote, i) == ReadAt(remote, i + 1) == Some(settled)
    ensures stage == settled
  {
    var readCount;
    stage, readCount := DeriveStageFromRemote(state, remote);
    ghost var k := SettledRemoteIsBelieved(remote, i, settled);
    if ConfirmsAt(remote, readCount - 1) { OnePlace(remote, readCount - 1, k); }
  }
}
