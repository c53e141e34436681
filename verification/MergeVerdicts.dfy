/** Where a merge tick leaves the workflow, told from the answers it was given. */
module MergeVerdicts {
  import opened JsStrings
  import opened Merge

  /** The workflow waits for its merge, and the tick can read its state and write it. */
  predicate IsWaiting(s: Option<State>, a: Answers) {
    s.Some? && s.value.stage == Some(AwaitingMerge) && a.readable && !a.ending.WriteThrows?
  }

  /** The state names the branch, or else the orchestrator's does. */
  predicate KnowsBranch(s: State, a: Answers) {
    || (s.branchName.Some? && s.branchName.value != "")
    || (a.orchestrator.Gave? && a.orchestrator.value.Some? && a.orchestrator.value.value.Some? && a.orchestrator.value.value.value != "")
  }

  /** Nothing stands in the way of a merge: the pull request is open, approved when the labels ask for it, and checked out. */
  predicate IsMergeable(a: Answers) {
    && a.pr == Gave(Some(OpenPr)) && a.hitl.Gave? && a.approved.Gave? && (!a.hitl.value || a.approved.value)
    && a.worktree.Gave? && a.prepared
  }

  /** The merge was attempted and answered like this. */
  predicate MergeAnswers(a: Answers, success: bool, red: bool) {
    IsMergeable(a) && a.merge.Gave? && a.merge.value.success == success && (!success ==> a.merge.value.red == red)
  }

  /** No pull request is found, for the third time. */
  predicate IsLastMiss(s: State, a: Answers) {
    a.pr == Gave(None) && (if s.mergeRetryCount.Some? then s.mergeRetryCount.value else 0) >= 2
  }

  predicate HasStage(s: Option<State>, stage: Stage) {
    s.Some? && s.value.stage == Some(stage)
  }

  /** What leads a workflow that waits out of its waiting: a stage is reached by these answers and by no others. */
  predicate LeadsTo(s: State, a: Answers, stage: Stage) {
    match stage
    case Completed => KnowsBranch(s, a) && (a.pr == Gave(Some(MergedPr)) || MergeAnswers(a, true, false))
    case Discarded => KnowsBranch(s, a) && a.pr == Gave(Some(ClosedPr))
    case HumanGated => KnowsBranch(s, a) && MergeAnswers(a, false, true)
    case MergeBlocked => KnowsBranch(s, a) && (MergeAnswers(a, false, false) || IsLastMiss(s, a))
    case Abandoned => if KnowsBranch(s, a) then HasNoWorktree(a) else a.orchestrator.Gave?
    case _ => false
  }

  predicate HasNoWorktree(a: Answers) {
    a.pr == Gave(Some(OpenPr)) && a.hitl.Gave? && a.approved.Gave? && (!a.hitl.value || a.approved.value) && a.worktree.Threw?
  }

  const FINAL_STAGES := {Completed, Discarded, HumanGated, MergeBlocked, Abandoned}

  lemma BranchIsKnownIff(s: State, a: Answers)
    ensures BranchOf(s, a).Found? <==> KnowsBranch(s, a)
    ensures BranchOf(s, a).Unknown? ==>
              BranchOf(s, a).reason in {Uncaught, NoOrchestratorState, NoBranchName}
              && (BranchOf(s, a).reason == Uncaught <==> a.orchestrator.Threw?)
  {}

  lemma ReasonLeads(s: State, a: Answers, stage: Stage)
    requires stage in FINAL_STAGES && BranchOf(s, a).Found? && KnowsBranch(s, a) && s.stage == Some(AwaitingMerge)
    ensures var reason := ReasonForPr(s, a);
            Writes(reason) && StateFor(s, AttemptCount(s), reason).stage == Some(stage) <==> LeadsTo(s, a, stage)
  {
    hide KnowsBranch, BranchOf;
  }

  lemma StageIsWritten(found: State, s: State, count: int, reason: Reason)
    requires Writes(reason)
    ensures StateFor(found, count, reason).stage == StateFor(s, count, reason).stage
  {}

  /**
   * A tick takes a workflow that waits to a stage if and only if its answers lead there; when they lead nowhere, it goes on
   * waiting.
   */
  lemma StageOfTick(s: Option<State>, a: Answers, stage: Stage)
    requires IsWaiting(s, a) && stage in FINAL_STAGES
    ensures HasStage(Tick(s, a), stage) <==> LeadsTo(s.value, a, stage)
  {
    BranchIsKnownIff(s.value, a);
    if BranchOf(s.value, a).Found? {
      ReasonLeads(s.value, a, stage);
      hide ReasonForPr, KnowsBranch, BranchOf, LeadsTo;
      if Writes(ReasonForPr(s.value, a)) {
        StageIsWritten(if a.blind then NO_STATE else s.value, s.value, AttemptCount(s.value), ReasonForPr(s.value, a));
      }
      hide StateFor;
    } else {
      hide KnowsBranch, BranchOf;
    }
  }

  lemma WaitsOtherwise(s: Option<State>, a: Answers)
    requires IsWaiting(s, a)
    ensures HasStage(Tick(s, a), AwaitingMerge) <==> forall stage :: stage in FINAL_STAGES ==> !LeadsTo(s.value, a, stage)
  {
    forall stage | stage in FINAL_STAGES ensures HasStage(Tick(s, a), stage) <==> LeadsTo(s.value, a, stage) { StageOfTick(s, a, stage); }
    StagesOfTick(s, a);
    hide Tick, LeadsTo, IsWaiting;
  }

  lemma StagesOfTick(s: Option<State>, a: Answers)
    requires IsWaiting(s, a)
    ensures exists stage :: stage in FINAL_STAGES + {AwaitingMerge} && HasStage(Tick(s, a), stage)
  {
    hide ReasonOf, Writes;
    var reason := ReasonOf(s, a);
    if Writes(reason) { StageOfReason(if a.blind then NO_STATE else s.value, AttemptCount(s.value), reason); }
    assert HasStage(Tick(s, a), Tick(s, a).value.stage.value);
  }

  lemma StageOfReason(found: State, count: int, reason: Reason)
    requires Writes(reason)
    ensures var stage := StateFor(found, count, reason).stage; stage.Some? && stage.value in FINAL_STAGES + {AwaitingMerge}
  {}

  /**
   * What a tick does to the other fields. A missing pull request is counted and a completion resets the count; red scenarios
   * leave the reason for the park; everything else keeps what the write finds, which is nothing when it cannot read.
   */
  lemma FieldsOfTick(s: Option<State>, a: Answers)
    requires IsWaiting(s, a) && Tick(s, a) != s
    ensures
      var before, after := if a.blind then NO_STATE else s.value, Tick(s, a).value;
      && after.branchName == before.branchName
      && after.parkReason ==
           (if KnowsBranch(s.value, a) && MergeAnswers(a, false, true) then Some("post_merge_bdd_red") else before.parkReason)
      && after.mergeRetryCount ==
           if !KnowsBranch(s.value, a) then before.mergeRetryCount
           else if a.pr == Gave(None) then Some(1 + if s.value.mergeRetryCount.Some? then s.value.mergeRetryCount.value else 0)
           else if a.pr == Gave(Some(MergedPr)) || MergeAnswers(a, true, false) then Some(0)
           else before.mergeRetryCount
  {
    BranchIsKnownIff(s.value, a);
    hide KnowsBranch, BranchOf;
    if BranchOf(s.value, a).Found? {
      FieldsOfReason(s.value, if a.blind then NO_STATE else s.value, a);
      hide StateFor, ReasonForPr, IsMergeable;
    }
  }

  lemma FieldsOfReason(s: State, before: State, a: Answers)
    requires Writes(ReasonForPr(s, a))
    ensures
      var after := StateFor(before, AttemptCount(s), ReasonForPr(s, a));
      && after.branchName == before.branchName
      && after.parkReason == (if MergeAnswers(a, false, true) then Some("post_merge_bdd_red") else before.parkReason)
      && after.mergeRetryCount ==
           if a.pr == Gave(None) then Some(1 + if s.mergeRetryCount.Some? then s.mergeRetryCount.value else 0)
           else if a.pr == Gave(Some(MergedPr)) || MergeAnswers(a, true, false) then Some(0)
           else before.mergeRetryCount
  {}

  // ---------------------------------------------------------------- any run

  /** Some tick of the run found the workflow waiting and was given answers that lead to the stage. */
  predicate WasLedTo(s: Option<State>, ticks: seq<Answers>, stage: Stage)
    decreases |ticks|
  {
    ticks != [] && ((IsWaiting(s, ticks[0]) && LeadsTo(s.value, ticks[0], stage)) || WasLedTo(Tick(s, ticks[0]), ticks[1..], stage))
  }

  /**
   * A run ends at a stage only if it began there or some tick saw what leads to it: `discarded` only after a closed pull request,
   * `human_gated` only after red scenarios, `merge_blocked` only after a failed merge or the last miss, `completed` only after a
   * merge.
   */
  lemma {:induction false} RunWasLedToItsStage(s: Option<State>, ticks: seq<Answers>, stage: Stage)
    requires stage in FINAL_STAGES && stage != Abandoned
    requires HasStage(Run(s, ticks), stage) && !HasStage(s, stage)
    ensures WasLedTo(s, ticks, stage)
    decreases |ticks|
  {
    hide Tick, LeadsTo, HasStage;
    if ticks != [] {
      if HasStage(Tick(s, ticks[0]), stage) {
        LedByThisTick(s, ticks[0], stage);
      } else {
        RunWasLedToItsStage(Tick(s, ticks[0]), ticks[1..], stage);
      }
    }
  }

  lemma LedByThisTick(s: Option<State>, a: Answers, stage: Stage)
    requires stage in FINAL_STAGES && stage != Abandoned
    requires HasStage(Tick(s, a), stage) && !HasStage(s, stage)
    ensures IsWaiting(s, a) && LeadsTo(s.value, a, stage)
  {
    if IsWaiting(s, a) {
      StageOfTick(s, a, stage);
    } else {
      OutOfTurn(s, a);
    }
    hide LeadsTo;
  }

  /** A tick that finds no waiting workflow, or cannot read or write it, abandons it or leaves it alone. */
  lemma OutOfTurn(s: Option<State>, a: Answers)
    requires !IsWaiting(s, a)
    ensures Tick(s, a) == s || HasStage(Tick(s, a), Abandoned)
  {
    hide ReasonForPr, BranchOf;
  }

  /** The merge itself is attempted if and only if a workflow that waits has a branch and nothing stands in the way. */
  lemma MergeIsAttemptedIff(s: Option<State>, a: Answers)
    ensures Attempts(s, a) <==>
            s.Some? && s.value.stage == Some(AwaitingMerge) && a.readable && KnowsBranch(s.value, a) && IsMergeable(a)
  {
    if s.Some? { BranchIsKnownIff(s.value, a); }
    hide KnowsBranch, BranchOf;
  }

  // ---------------------------------------------------------------- what is reported

  /** What is reported of a tick that waits and holds: a reason for each way to end, and the same stage for the same reason. */
  predicate Tells(s: State, a: Answers, reported: Reason) {
    match reported
    case MergedNow => MergeAnswers(a, true, false)
    case PostMergeRed => MergeAnswers(a, false, true)
    case MergeFailed => MergeAnswers(a, false, false)
    case AlreadyMerged => a.pr == Gave(Some(MergedPr))
    case ClosedUnmerged => a.pr == Gave(Some(ClosedPr))
    case NoPrFoundBlocked => IsLastMiss(s, a)
    case NoPrFound => a.pr == Gave(None) && !IsLastMiss(s, a)
    case HitlUnapproved => a.pr == Gave(Some(OpenPr)) && a.hitl == Gave(true) && a.approved == Gave(false)
    case WorktreeError => HasNoWorktree(a)
    case Uncaught => true
    case _ => false
  }

  /** Something asked for on the way throws. */
  predicate ThrowsOnTheWay(a: Answers) {
    || a.pr.Threw?
    || (a.pr == Gave(Some(OpenPr)) && (a.hitl.Threw? || a.approved.Threw?))
    || (IsMergeable(a.(prepared := true)) && !a.prepared)
    || (IsMergeable(a) && a.merge.Threw?)
  }

  /** A comment or a notice goes with the end: it does not with a first miss, a deferral, a missing worktree or red scenarios. */
  predicate SendsNotice(s: State, a: Answers) {
    || IsLastMiss(s, a) || a.pr == Gave(Some(MergedPr)) || a.pr == Gave(Some(ClosedPr))
    || MergeAnswers(a, true, false) || MergeAnswers(a, false, false)
  }

  predicate Defers(a: Answers) {
    a.pr == Gave(Some(OpenPr)) && a.hitl == Gave(true) && a.approved == Gave(false)
  }

  /** A tick whose branch is known reports how it ended, unless something throws: on the way, in the write or in the notice. */
  lemma ReportTells(s: Option<State>, a: Answers)
    requires s.Some? && s.value.stage == Some(AwaitingMerge) && a.readable && KnowsBranch(s.value, a)
    ensures Tells(s.value, a, Reported(ReasonOf(s, a), a.ending))
    ensures Reported(ReasonOf(s, a), a.ending) == Uncaught <==>
            || ThrowsOnTheWay(a)
            || (a.ending.WriteThrows? && !Defers(a))
            || (a.ending.NoticeThrows? && SendsNotice(s.value, a))
  {
    BranchIsKnownIff(s.value, a);
    hide BranchOf, KnowsBranch;
    ReasonTells(s.value, a);
    hide ReasonForPr;
  }

  lemma ReasonTells(s: State, a: Answers)
    ensures
      var reason := ReasonForPr(s, a);
      && Tells(s, a, reason) && (reason == Uncaught <==> ThrowsOnTheWay(a))
      && (Writes(reason) <==> !ThrowsOnTheWay(a) && !Defers(a)) && (Notifies(reason) <==> SendsNotice(s, a))
  {}
}
