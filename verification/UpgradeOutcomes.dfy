/** How an upgrade run ends and what it leaves on the forge, told from what it was answered. */
module UpgradeOutcomes {
  import opened JsStrings
  import opened Upgrade
  import opened UpgradeRuns
  import opened UpgradeBounds

  // ---------------------------------------------------------------- the steps behind the guards

  predicate IsPrepared(a: Answers) {
    a.baseRead && a.worktreeError.None? && a.prepared
  }

  /** The agent has succeeded, nothing is missing of what it had to make, and the scenario project is in place. */
  predicate IsRegenerated(a: Answers) {
    IsPrepared(a) && a.agent == Gave(None) && a.regen.Gave? && a.regen.value.ok && a.scenarioError.None?
  }

  predicate IsCommitted(a: Answers) {
    IsRegenerated(a) && a.stamped && a.commitError.None?
  }

  predicate IsOpened(a: Answers) {
    IsCommitted(a) && a.push == Pushed && a.newPr.Some?
  }

  /** What the first step that fails, rather than throws, has to say. */
  function Problem(a: Answers): Option<string> {
    if !a.baseRead then None
    else if a.worktreeError.Some? then a.worktreeError
    else if !a.prepared || a.agent.Threw? then None
    else if a.agent.value.Some? then a.agent.value
    else if a.regen.Threw? then None
    else if !a.regen.value.ok then
      Some(".adw/ regeneration incomplete: " +
           if Join(a.regen.value.missing, ", ") != "" then Join(a.regen.value.missing, ", ") else "no .adw/ files produced")
    else if a.scenarioError.Some? then a.scenarioError
    else if !a.stamped then None
    else if a.commitError.Some? then a.commitError
    else if a.push.PushThrew? then Some(a.push.error)
    else None
  }

  // ---------------------------------------------------------------- the gates, by the steps

  lemma RebuildIff(s: Setup, r: Record, a: Answers)
    ensures var g := FirstStop(s, r, a, BaseUnread);
            && Rank(g) >= Rank(BaseUnread)
            && (Rank(g) >= Rank(AgentThrew) <==> IsPrepared(a)) && (IsPrepared(a) ==> g == FirstStop(s, r, a, AgentThrew))
            && (!IsPrepared(a) ==> (OutcomeAt(g) == Failed <==> Problem(a).Some?))
            && (!IsPrepared(a) && Problem(a).Some? ==> FailureReason(a, g) == Problem(a).value)
            && (!IsPrepared(a) ==> g in {BaseUnread, NoWorktree, NotPrepared})
  {
    RebuildGates(s, r, a);
    StopIsLater(s, r, a, AgentThrew);
    hide FirstStop, Join;
  }

  lemma AgentIff(s: Setup, r: Record, a: Answers)
    requires IsPrepared(a)
    ensures var g := FirstStop(s, r, a, AgentThrew);
            && Rank(g) >= Rank(AgentThrew)
            && (Rank(g) >= Rank(NotStamped) <==> IsRegenerated(a)) && (IsRegenerated(a) ==> g == FirstStop(s, r, a, NotStamped))
            && (!IsRegenerated(a) ==> (OutcomeAt(g) == Failed <==> Problem(a).Some?))
            && (!IsRegenerated(a) && Problem(a).Some? ==> FailureReason(a, g) == Problem(a).value)
            && (!IsRegenerated(a) ==> g in {AgentThrew, AgentFailed, RegenThrew, RegenIncomplete, NoScenarioProject})
            && RunsAgent(g) && (!IsRegenerated(a) ==> !OpensPr(g) && Rank(BaseUnread) <= Rank(g))
  {
    AgentGates(s, r, a);
    StopIsLater(s, r, a, NotStamped);
    hide FirstStop, Join;
  }

  lemma CommitIff(s: Setup, r: Record, a: Answers)
    requires IsRegenerated(a)
    ensures var g := FirstStop(s, r, a, NotStamped);
            && Rank(g) >= Rank(NotStamped)
            && (g == ClaimLost <==> IsCommitted(a) && a.push == Rejected)
            && (Rank(g) >= Rank(NotOpened) <==> IsCommitted(a) && a.push == Pushed)
            && (IsCommitted(a) && a.push == Pushed ==> g == FirstStop(s, r, a, NotOpened))
            && (Rank(g) < Rank(NotOpened) ==> (OutcomeAt(g) == Failed <==> Problem(a).Some?))
            && (Rank(g) < Rank(NotOpened) && Problem(a).Some? ==> FailureReason(a, g) == Problem(a).value)
            && (Rank(g) >= Rank(NotOpened) ==> Problem(a).None?)
            && RunsAgent(g)
            && (!(IsCommitted(a) && a.push == Pushed) ==> !OpensPr(g) && g in {NotStamped, NotCommitted, ClaimLost, NotPushed})
  {
    CommitGates(s, r, a);
    StopIsLater(s, r, a, NotOpened);
    hide FirstStop, Join;
  }

  lemma OpenIff(s: Setup, r: Record, a: Answers)
    ensures var g := FirstStop(s, r, a, NotOpened);
            && Rank(g) >= Rank(NotOpened) && OutcomeAt(g) != Failed && OutcomeAt(g) != Escalated
            && (Rank(g) >= Rank(ConfigUnread) <==> a.newPr.Some?)
            && (g == OpenedForReview <==> a.newPr.Some? && a.hitl == Some(true))
            && (g == Merged <==> a.newPr.Some? && a.hitl == Some(false) && a.merge == Gave(None))
            && (g == MergeFailed <==> a.newPr.Some? && a.hitl == Some(false) && a.merge.Gave? && a.merge.value.Some?)
            && g in {NotOpened, ConfigUnread, OpenedForReview, MergeThrew, Merged, MergeFailed}
  {
    PrGate(s, r, a);
    ReviewGates(s, r, a);
    MergeGates(s, r, a);
    hide FirstStop;
  }

  /** What the gate a run ends at behind the guards says of the steps. */
  predicate GateTells(a: Answers, g: Gate) {
    && Rank(g) >= Rank(BaseUnread)
    && (RunsAgent(g) <==> IsPrepared(a)) && (OpensPr(g) <==> IsOpened(a))
    && (g == ClaimLost <==> IsCommitted(a) && a.push == Rejected)
    && (g == OpenedForReview <==> IsOpened(a) && a.hitl == Some(true))
    && (g == Merged <==> IsOpened(a) && a.hitl == Some(false) && a.merge == Gave(None))
    && (g == MergeFailed <==> IsOpened(a) && a.hitl == Some(false) && a.merge.Gave? && a.merge.value.Some?)
    && (OutcomeAt(g) == Failed <==> Problem(a).Some?) && (Problem(a).Some? ==> FailureReason(a, g) == Problem(a).value)
    && g !in {Blocked, AtCap, HasPr, NoHash}
  }

  lemma BehindTheGuardsTells(s: Setup, r: Record, a: Answers)
    ensures GateTells(a, FirstStop(s, r, a, BaseUnread))
  {
    RebuildIff(s, r, a);
    if !IsPrepared(a) {
      UnpreparedTells(s, r, a);
    } else if !IsRegenerated(a) {
      UnregeneratedTells(s, r, a);
    } else {
      RegeneratedTells(s, r, a);
      AgentIff(s, r, a);
    }
    hide FirstStop, Problem, FailureReason, GateTells, IsPrepared, IsRegenerated, OutcomeAt, Rank;
  }

  lemma UnpreparedTells(s: Setup, r: Record, a: Answers)
    requires !IsPrepared(a)
    ensures GateTells(a, FirstStop(s, r, a, BaseUnread))
  {
    RebuildIff(s, r, a);
    hide FirstStop, Problem, FailureReason, IsPrepared, OutcomeAt;
  }

  lemma UnregeneratedTells(s: Setup, r: Record, a: Answers)
    requires IsPrepared(a) && !IsRegenerated(a)
    ensures GateTells(a, FirstStop(s, r, a, AgentThrew))
  {
    AgentIff(s, r, a);
    hide FirstStop, Problem, FailureReason, IsPrepared, IsRegenerated, OutcomeAt, Rank, RunsAgent, OpensPr;
  }

  lemma RegeneratedTells(s: Setup, r: Record, a: Answers)
    requires IsPrepared(a) && IsRegenerated(a)
    ensures GateTells(a, FirstStop(s, r, a, NotStamped))
  {
    CommitIff(s, r, a);
    if IsCommitted(a) && a.push == Pushed {
      PushedTells(s, r, a);
    } else {
      UnpushedTells(s, r, a);
    }
    hide FirstStop, Problem, FailureReason, GateTells, IsPrepared, IsRegenerated, IsCommitted, OutcomeAt;
  }

  lemma UnpushedTells(s: Setup, r: Record, a: Answers)
    requires IsPrepared(a) && IsRegenerated(a) && !(IsCommitted(a) && a.push == Pushed)
    ensures GateTells(a, FirstStop(s, r, a, NotStamped))
  {
    CommitIff(s, r, a);
    UnpushedGate(FirstStop(s, r, a, NotStamped));
    hide FirstStop, Problem, FailureReason, IsPrepared, IsRegenerated, IsCommitted, OutcomeAt, Rank, RunsAgent, OpensPr;
  }

  lemma UnpushedGate(g: Gate)
    requires g in {NotStamped, NotCommitted, ClaimLost, NotPushed}
    ensures Rank(BaseUnread) <= Rank(g) < Rank(NotOpened)
  {}

  lemma PushedTells(s: Setup, r: Record, a: Answers)
    requires IsPrepared(a) && IsRegenerated(a) && IsCommitted(a) && a.push == Pushed
    ensures GateTells(a, FirstStop(s, r, a, NotOpened))
  {
    CommitIff(s, r, a);
    OpenIff(s, r, a);
    hide FirstStop, Problem, FailureReason, IsPrepared, IsRegenerated, IsCommitted, OutcomeAt;
  }

  /** As far as the run could read them, a pull request stands in its way; or none does, and the failures have reached the cap. */
  predicate FindsPr(r: Record, a: Answers) {
    LabelsPass(r, a) && !IsBlank(HashOf(a)) && a.prReading.Seen? && HasStandingPr(r, ClaimBranch(HashOf(a)))
  }

  predicate IsCapped(s: Setup, r: Record, a: Answers) {
    LabelsPass(r, a) && !IsBlank(HashOf(a)) && PrPasses(r, a) && !a.commentsReading.ReadThrows? && SeenFailures(r, a) >= s.maxFailures
  }

  predicate IsBlocked(r: Record, a: Answers) {
    a.labelsReading.Seen? && TERMINAL_LABEL in r.labels
  }

  predicate CannotTellHash(r: Record, a: Answers) {
    LabelsPass(r, a) && IsBlank(HashOf(a))
  }

  lemma GuardsTell(s: Setup, r: Record, a: Answers)
    ensures
      var g := FirstStop(s, r, a, LabelsUnread);
      && (g == Blocked <==> IsBlocked(r, a)) && (g == NoHash <==> CannotTellHash(r, a))
      && (g == HasPr <==> FindsPr(r, a)) && (g == AtCap <==> IsCapped(s, r, a))
      && (Rank(g) >= Rank(BaseUnread) <==> PassesTheGuards(s, r, a))
      && (PassesTheGuards(s, r, a) ==> g == FirstStop(s, r, a, BaseUnread))
      && (!PassesTheGuards(s, r, a) ==> (OutcomeAt(g) == Failed <==> g == NoHash))
      && (!PassesTheGuards(s, r, a) ==> g in {LabelsUnread, Blocked, NoHash, PrUnread, HasPr, CommentsUnread, AtCap})
      && (!PassesTheGuards(s, r, a) ==> !RunsAgent(g) && !OpensPr(g))
  {
    GuardGates(s, r, a);
    GuardsIff(s, r, a);
    StopIsLater(s, r, a, BaseUnread);
    hide FirstStop, IsBlank, HashOf, HasStandingPr, ClaimBranch, SeenFailures, TERMINAL_LABEL;
  }

  // ---------------------------------------------------------------- outcomes

  /** The run has nothing left to do, or leaves it to somebody else; a comment it owes for that has been posted. */
  predicate Completes(s: Setup, r: Record, a: Answers) {
    || FindsPr(r, a)
    || (PassesTheGuards(s, r, a) && IsCommitted(a) && a.push == Rejected)
    || (PassesTheGuards(s, r, a) && IsOpened(a) && a.hitl == Some(false) && a.merge == Gave(None))
    || (a.posting == Posted && PassesTheGuards(s, r, a) && IsOpened(a)
        && (a.hitl == Some(true) || (a.hitl == Some(false) && a.merge.Gave? && a.merge.value.Some?)))
  }

  predicate Fails(s: Setup, r: Record, a: Answers) {
    a.posting == Posted && (CannotTellHash(r, a) || (PassesTheGuards(s, r, a) && Problem(a).Some?))
  }

  predicate HandsOver(s: Setup, r: Record, a: Answers) {
    IsBlocked(r, a) || (IsCapped(s, r, a) && a.escalation == Escalates && a.posting == Posted)
  }

  /** The outcome of a run, for all answers: a run that does not complete, fail or escalate has crashed. */
  lemma OutcomeIff(s: Setup, r: Record, a: Answers)
    ensures
      var outcome := Tick(s, r, a).outcome;
      && (outcome == Completed <==> Completes(s, r, a))
      && (outcome == Failed <==> Fails(s, r, a))
      && (outcome == Escalated <==> HandsOver(s, r, a))
  {
    GuardsTell(s, r, a);
    BehindTheGuardsTells(s, r, a);
    OutcomeOfGate(s, r, a);
    hide FirstStop, Tick, OutcomeAt, Problem, FailureReason, PassesTheGuards, IsCapped, FindsPr, IsBlocked, CannotTellHash, Rank;
  }

  /** A gate's own outcome stands, unless its comment could not be posted, or the run died at it. */
  lemma OutcomeOfGate(s: Setup, r: Record, a: Answers)
    ensures
      var g, outcome := FirstStop(s, r, a, LabelsUnread), Tick(s, r, a).outcome;
      && (outcome == Failed <==> OutcomeAt(g) == Failed && a.posting == Posted)
      && (outcome == Escalated <==> g == Blocked || (g == AtCap && a.escalation == Escalates && a.posting == Posted))
      && (outcome == Completed <==> g in {HasPr, ClaimLost, Merged} || (g in {OpenedForReview, MergeFailed} && a.posting == Posted))
  {
    hide FirstStop, FailureBody, HitlBody, MergeFailedBody, ESCALATION_BODY, FailureReason, Reach;
  }

  // ---------------------------------------------------------------- what a run leaves

  /** The comment a run owes at its end: the failure with its reason, the escalation, or the word that a person has to merge. */
  function Owed(s: Setup, r: Record, a: Answers): Option<string> {
    if CannotTellHash(r, a) then
      Some(FailureBody(if a.hash.Threw? then a.hash.error else "Error: computeFrameworkHash returned an empty hash"))
    else if IsCapped(s, r, a) then if a.escalation == Escalates then Some(ESCALATION_BODY) else None
    else if !PassesTheGuards(s, r, a) then None
    else if Problem(a).Some? then Some(FailureBody(Problem(a).value))
    else if IsOpened(a) && a.hitl == Some(true) then Some(HitlBody(a.newPr.value))
    else if IsOpened(a) && a.hitl == Some(false) && a.merge.Gave? && a.merge.value.Some? then
      Some(MergeFailedBody(a.newPr.value, a.merge.value.value))
    else None
  }

  /**
   * The agent has run once more behind the guards and a prepared worktree, a pull request stands for the claim when one was
   * opened, the terminal label is on when the cap was met and labelling did not throw, and the comment owed is there unless
   * posting it threw. Nothing else has changed.
   */
  lemma RecordIff(s: Setup, r: Record, a: Answers)
    ensures
      var t, passes := Tick(s, r, a), PassesTheGuards(s, r, a);
      && t.record.agentRuns == r.agentRuns + (if passes && IsPrepared(a) then 1 else 0)
      && t.record.prs == (if passes && IsOpened(a) then r.prs[ClaimBranch(HashOf(a)) := PullRequest([])] else r.prs)
      && t.record.labels == (if IsCapped(s, r, a) && a.escalation != NoLabel then r.labels + {TERMINAL_LABEL} else r.labels)
      && t.record.comments ==
           if Owed(s, r, a).Some? && a.posting != NotPosted then r.comments + [Comment(Owed(s, r, a).value, s.bot)] else r.comments
  {
    GuardsTell(s, r, a);
    BehindTheGuardsTells(s, r, a);
    RestOfOneRun(s, r, a);
    CommentOfGate(s, r, a);
    LabelsOfGate(s, r, a);
    OwedAtGate(s, r, a);
    hide FirstStop, Tick, OutcomeAt, Problem, FailureReason, PassesTheGuards, IsCapped, FindsPr, IsBlocked, CannotTellHash, Rank, Owed;
    hide TERMINAL_LABEL, ClaimBranch, IsPrepared, IsOpened, CommentAt;
  }

  lemma LabelsOfGate(s: Setup, r: Record, a: Answers)
    ensures
      var g := FirstStop(s, r, a, LabelsUnread);
      Tick(s, r, a).record.labels == if g == AtCap && a.escalation != NoLabel then r.labels + {TERMINAL_LABEL} else r.labels
  {
    hide FirstStop, CommentAt, OutcomeAt, ClaimBranch, OpensPr, RunsAgent;
  }

  lemma CommentOfGate(s: Setup, r: Record, a: Answers)
    ensures
      var g := FirstStop(s, r, a, LabelsUnread);
      var body := if g == AtCap && a.escalation != Escalates then None else CommentAt(a, g);
      Tick(s, r, a).record.comments ==
        if body.Some? && a.posting != NotPosted then r.comments + [Comment(body.value, s.bot)] else r.comments
  {
    hide FirstStop, CommentAt, OutcomeAt, ClaimBranch, OpensPr, RunsAgent;
  }

  lemma OwedAtGate(s: Setup, r: Record, a: Answers)
    ensures var g := FirstStop(s, r, a, LabelsUnread);
            Owed(s, r, a) == if g == AtCap && a.escalation != Escalates then None else CommentAt(a, g)
  {
    GuardsTell(s, r, a);
    BehindTheGuardsTells(s, r, a);
    hide FirstStop, PassesTheGuards, IsCapped, FindsPr, IsBlocked, CannotTellHash, Problem, FailureBody, HitlBody, MergeFailedBody;
    hide ESCALATION_BODY, IsPrepared, Rank, IsCommitted;
  }
}
