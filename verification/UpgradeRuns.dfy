/** What the upgrade orchestrator keeps over any sequence of runs, whatever others do to the forge in between. */
module UpgradeRuns {
  import opened JsStrings
  import opened Upgrade

  predicate IsBot(s: Setup) {
    EndsWith(s.bot, "[bot]")
  }

  function Failures(r: Record): nat {
    CountUpgradeFailureComments(r.comments)
  }

  // ---------------------------------------------------------------- one run

  lemma EveryGateBeforePassed(s: Setup, r: Record, a: Answers, from: Gate, g: Gate)
    requires Rank(from) <= Rank(g) < Rank(FirstStop(s, r, a, from))
    ensures !Stops(s, r, a, g)
    decreases 24 - Rank(from)
  {
    hide Stops;
    if Rank(from) < Rank(g) {
      EveryGateBeforePassed(s, r, a, Next(from), g);
    } else {
      SameRank(from, g);
    }
  }

  lemma SameRank(g: Gate, h: Gate)
    requires Rank(g) == Rank(h)
    ensures g == h
  {}

  lemma StopIsLater(s: Setup, r: Record, a: Answers, from: Gate)
    ensures Rank(FirstStop(s, r, a, from)) >= Rank(from)
    ensures var g := FirstStop(s, r, a, from); g == MergeFailed || Stops(s, r, a, g)
    decreases 24 - Rank(from)
  {
    hide Stops;
    if from != MergeFailed && !Stops(s, r, a, from) { StopIsLater(s, r, a, Next(from)); }
  }

  lemma CommentAtGate(a: Answers, g: Gate)
    ensures OutcomeAt(g) == Failed ==>
              CommentAt(a, g).Some? && StartsWith(CommentAt(a, g).value, UPGRADE_FAILURE_SIGNATURE)
    ensures OutcomeAt(g) != Failed && CommentAt(a, g).Some? ==> !StartsWith(CommentAt(a, g).value, UPGRADE_FAILURE_SIGNATURE)
  {
    OnlyFailuresCarryTheSignature(OrElse(a.newPr, ""), FailureReason(a, g));
    OnlyFailuresCarryTheSignature(OrElse(a.newPr, ""), if a.merge.Gave? then OrElse(a.merge.value, "") else "");
    hide StartsWith, HitlBody, MergeFailedBody, FailureBody, ESCALATION_BODY, FailureReason;
  }

  lemma OneMoreComment(r: Record, body: string, author: string)
    ensures Failures(WithComment(r, body, author)) == Failures(r) + if IsUpgradeFailureComment(body, author) then 1 else 0
  {
    assert (r.comments + [Comment(body, author)])[..|r.comments|] == r.comments;
  }

  /** The comment a run may leave: at most one, and counted exactly when the run ends as failed, or dies right after posting it. */
  lemma CommentsOfOneRun(s: Setup, r: Record, a: Answers)
    ensures
      var t := Tick(s, r, a);
      var dies := OutcomeAt(t.gate) == Failed && t.outcome == Crashed && a.posting == PostedThenDied;
      && r.comments <= t.record.comments && |t.record.comments| <= |r.comments| + 1
      && (t.outcome == Failed ==> OutcomeAt(t.gate) == Failed)
      && Failures(t.record) == Failures(r) + if IsBot(s) && (t.outcome == Failed || dies) then 1 else 0
  {
    var g := FirstStop(s, r, a, LabelsUnread);
    CommentAtGate(a, g);
    hide FirstStop, CommentAt, StartsWith, Reach;
    ReachKeepsComments(r, a, g);
    var body := CommentAt(a, g);
    if body.Some? {
      OneMoreComment(Reach(r, a, g), body.value, s.bot);
      OneMoreComment(r.(labels := r.labels + {TERMINAL_LABEL}), body.value, s.bot);
    }
  }

  lemma ReachKeepsComments(r: Record, a: Answers, g: Gate)
    ensures Reach(r, a, g).comments == r.comments && Reach(r, a, g).labels == r.labels
  {}

  /** What a run does to the rest of the forge follows from the gate it ends at. */
  lemma RestOfOneRun(s: Setup, r: Record, a: Answers)
    ensures
      var t := Tick(s, r, a);
      && t.gate == FirstStop(s, r, a, LabelsUnread)
      && t.record.agentRuns == r.agentRuns + (if RunsAgent(t.gate) then 1 else 0)
      && t.record.prs == (if OpensPr(t.gate) then r.prs[ClaimBranch(HashOf(a)) := PullRequest([])] else r.prs)
      && (t.record.labels == r.labels || (t.gate == AtCap && t.record.labels == r.labels + {TERMINAL_LABEL}))
      && t.outcome in {OutcomeAt(t.gate), Crashed}
  {
    hide FirstStop, CommentAt, OutcomeAt, ClaimBranch;
  }

  /** What a run has to see to get past the guards: no terminal label, a hash, no standing pull request, and room below the cap. */
  predicate PassesTheGuards(s: Setup, r: Record, a: Answers) {
    && !a.labelsReading.ReadThrows? && (a.labelsReading.Seen? ==> TERMINAL_LABEL !in r.labels)
    && !IsBlank(HashOf(a))
    && !a.prReading.ReadThrows? && (a.prReading.Seen? ==> !HasStandingPr(r, ClaimBranch(HashOf(a))))
    && !a.commentsReading.ReadThrows? && SeenFailures(r, a) < s.maxFailures
  }

  lemma GuardsIff(s: Setup, r: Record, a: Answers)
    ensures PassesTheGuards(s, r, a) <==> Rank(FirstStop(s, r, a, LabelsUnread)) >= Rank(BaseUnread)
    ensures PassesTheGuards(s, r, a) ==> FirstStop(s, r, a, LabelsUnread) == FirstStop(s, r, a, BaseUnread)
  {
    GuardGates(s, r, a);
    StopIsLater(s, r, a, BaseUnread);
    hide FirstStop, IsBlank, HashOf, HasStandingPr, ClaimBranch, SeenFailures, TERMINAL_LABEL;
  }

  lemma PreparedIff(s: Setup, r: Record, a: Answers)
    ensures Rank(FirstStop(s, r, a, BaseUnread)) >= Rank(AgentThrew) <==> a.baseRead && a.worktreeError.None? && a.prepared
  {
    RebuildGates(s, r, a);
    StopIsLater(s, r, a, AgentThrew);
    hide FirstStop;
  }

  /**
   * The agent is started if and only if the run passes the guards and the worktree is prepared. So it is started only
   * without the terminal label, below the cap and with no standing pull request, as far as the run could see them.
   */
  lemma AgentRunsIff(s: Setup, r: Record, a: Answers)
    ensures RunsAgent(Tick(s, r, a).gate) <==>
            PassesTheGuards(s, r, a) && a.baseRead && a.worktreeError.None? && a.prepared
  {
    RestOfOneRun(s, r, a);
    GuardsIff(s, r, a);
    PreparedIff(s, r, a);
    hide FirstStop, Tick, PassesTheGuards;
  }

  /** A failure behind the cap check, as opposed to one to compute the hash. */
  predicate FailsPastCap(t: Turn) {
    t.outcome == Failed && t.gate != NoHash
  }

  lemma FailedGates(g: Gate)
    requires OutcomeAt(g) == Failed && g != NoHash
    ensures Rank(g) > Rank(AtCap) && !OpensPr(g)
  {}

  /** A failure behind the cap check happens only below the cap as the run counts it, and opens no pull request. */
  lemma CapStandsBefore(s: Setup, r: Record, a: Answers)
    requires FailsPastCap(Tick(s, r, a))
    ensures PassesTheGuards(s, r, a)
    ensures !OpensPr(Tick(s, r, a).gate)
  {
    RestOfOneRun(s, r, a);
    hide FirstStop, Tick, OutcomeAt, OpensPr, PassesTheGuards;
    FailedGates(FirstStop(s, r, a, LabelsUnread));
    GuardsIff(s, r, a);
  }

  /** An issue with the terminal label is left exactly as it is by every run that sees the label, or cannot go on without it. */
  lemma BlockedIssueIsLeftAlone(s: Setup, r: Record, a: Answers)
    requires TERMINAL_LABEL in r.labels && !a.labelsReading.Missed?
    ensures Tick(s, r, a).record == r
    ensures Tick(s, r, a).outcome == if a.labelsReading.Seen? then Escalated else Crashed
  {
    GuardGates(s, r, a);
    hide FirstStop;
  }

  predicate EverythingIsRead(a: Answers) {
    && a.labelsReading == a.prReading == a.commentsReading == Seen && !IsBlank(HashOf(a))
    && a.escalation == Escalates && a.posting == Posted
  }

  lemma CapGateIff(s: Setup, r: Record, a: Answers)
    requires EverythingIsRead(a) && TERMINAL_LABEL !in r.labels
    ensures FirstStop(s, r, a, LabelsUnread) == AtCap <==>
            !HasStandingPr(r, ClaimBranch(HashOf(a))) && Failures(r) >= s.maxFailures
    ensures FirstStop(s, r, a, LabelsUnread) != Blocked
  {
    GuardGates(s, r, a);
    StopIsLater(s, r, a, BaseUnread);
    hide FirstStop, HasStandingPr, ClaimBranch, CountUpgradeFailureComments, IsBlank;
  }

  /** When everything can be read, a run escalates if and only if the cap is reached and no pull request stands. */
  lemma EscalatesIff(s: Setup, r: Record, a: Answers)
    requires EverythingIsRead(a) && TERMINAL_LABEL !in r.labels
    ensures Tick(s, r, a).outcome == Escalated <==>
            !HasStandingPr(r, ClaimBranch(HashOf(a))) && Failures(r) >= s.maxFailures
    ensures Tick(s, r, a).outcome == Escalated ==> TERMINAL_LABEL in Tick(s, r, a).record.labels
  {
    CapGateIff(s, r, a);
    RestOfOneRun(s, r, a);
    var g := FirstStop(s, r, a, LabelsUnread);
    EscalatedGates(g);
    AtCapEscalates(s, r, a);
    assert Tick(s, r, a) == TurnAt(s, r, a, g);
    hide FirstStop, Tick, TurnAt, OutcomeAt, HasStandingPr, ClaimBranch, CountUpgradeFailureComments, IsBlank;
  }

  lemma EscalatedGates(g: Gate)
    ensures OutcomeAt(g) == Escalated <==> g in {Blocked, AtCap}
  {}

  lemma AtCapEscalates(s: Setup, r: Record, a: Answers)
    requires a.escalation == Escalates && a.posting == Posted
    ensures var t := TurnAt(s, r, a, AtCap); t.outcome == Escalated && TERMINAL_LABEL in t.record.labels
  {
    hide TERMINAL_LABEL, ESCALATION_BODY;
  }

  // ---------------------------------------------------------------- any sequence of runs

  /** A run of the orchestrator, or the forge as others leave it. */
  datatype Event = OneRun(a: Answers) | Elsewhere(after: Record)

  function Apply(s: Setup, r: Record, e: Event): Record {
    match e
    case OneRun(a) => Tick(s, r, a).record
    case Elsewhere(after) => after
  }

  function Run(s: Setup, r: Record, events: seq<Event>): Record
    decreases |events|
  {
    if events == [] then r else Run(s, Apply(s, r, events[0]), events[1..])
  }

  /** Others add comments but remove none, and do not run the agent. */
  predicate OthersKeepComments(s: Setup, r: Record, events: seq<Event>)
    decreases |events|
  {
    events != [] ==>
      && (events[0].Elsewhere? ==> r.comments <= events[0].after.comments && r.agentRuns == events[0].after.agentRuns)
      && OthersKeepComments(s, Apply(s, r, events[0]), events[1..])
  }

  /** How many runs of the sequence, with these answers, end in a way. */
  function HowMany(s: Setup, r: Record, events: seq<Event>, p: (Answers, Turn) -> bool): nat
    decreases |events|
  {
    if events == [] then 0
    else
      (if events[0].OneRun? && p(events[0].a, Tick(s, r, events[0].a)) then 1 else 0)
      + HowMany(s, Apply(s, r, events[0]), events[1..], p)
  }

  lemma CommentsOnlyGrow(before: Record, after: Record)
    requires before.comments <= after.comments
    ensures Failures(before) <= Failures(after)
  {
    assert after.comments == before.comments + after.comments[|before.comments|..];
    CountOfConcat(before.comments, after.comments[|before.comments|..]);
  }

  const FAILS: (Answers, Turn) -> bool := (a: Answers, t: Turn) => t.outcome == Failed
  const FAILS_BEHIND_THE_CAP: (Answers, Turn) -> bool := (a: Answers, t: Turn) => FailsPastCap(t)
  const FAILS_HAVING_COUNTED: (Answers, Turn) -> bool := (a: Answers, t: Turn) => FailsPastCap(t) && a.commentsReading.Seen?

  lemma OneEvent(s: Setup, r: Record, e: Event)
    requires IsBot(s)
    requires e.Elsewhere? ==> r.comments <= e.after.comments
    ensures Failures(Apply(s, r, e)) >= Failures(r) + if e.OneRun? && FAILS(e.a, Tick(s, r, e.a)) then 1 else 0
  {
    match e
    case OneRun(a) => CommentsOfOneRun(s, r, a);
    case Elsewhere(after) => CommentsOnlyGrow(r, after);
  }

  /**
   * Every failed run leaves its mark for good. So of the runs that could read the comments, at most as many fail behind the
   * cap check as the cap leaves room for at the start: in all of them together, however many runs there are, whatever lies
   * between, and however many others fail.
   */
  lemma {:induction false} FailuresAreCapped(s: Setup, r: Record, events: seq<Event>)
    requires IsBot(s) && OthersKeepComments(s, r, events)
    ensures Failures(Run(s, r, events)) >= Failures(r) + HowMany(s, r, events, FAILS)
    ensures HowMany(s, r, events, FAILS_HAVING_COUNTED) <= if Failures(r) < s.maxFailures then s.maxFailures - Failures(r) else 0
    decreases |events|
  {
    if events != [] {
      var next := Apply(s, r, events[0]);
      OneEvent(s, r, events[0]);
      if events[0].OneRun? && FAILS_HAVING_COUNTED(events[0].a, Tick(s, r, events[0].a)) { CapStandsBefore(s, r, events[0].a); }
      hide CountUpgradeFailureComments, Tick, Apply;
      FailuresAreCapped(s, next, events[1..]);
    }
  }

  predicate EveryRunCounts(events: seq<Event>) {
    forall i :: 0 <= i < |events| ==> events[i].OneRun? ==> !events[i].a.commentsReading.Missed?
  }

  /** When no read of the comments is missed, the runs that count them are all that fail behind the cap. */
  lemma {:induction false} EveryFailureHasCounted(s: Setup, r: Record, events: seq<Event>)
    requires EveryRunCounts(events)
    ensures HowMany(s, r, events, FAILS_BEHIND_THE_CAP) == HowMany(s, r, events, FAILS_HAVING_COUNTED)
    decreases |events|
  {
    if events != [] {
      assert !events[0].OneRun? || !events[0].a.commentsReading.Missed?;
      if events[0].OneRun? && FailsPastCap(Tick(s, r, events[0].a)) { CapStandsBefore(s, r, events[0].a); }
      hide Tick, Apply, FailsPastCap;
      EveryFailureHasCounted(s, Apply(s, r, events[0]), events[1..]);
    }
  }

  // ---------------------------------------------------------------- the label is terminal

  predicate OthersKeepTheLabel(events: seq<Event>) {
    forall i :: 0 <= i < |events| ==> events[i].Elsewhere? ==> TERMINAL_LABEL in events[i].after.labels
  }

  /** What is left of a sequence once every run in it is taken out. */
  function WithoutRuns(r: Record, events: seq<Event>): Record
    decreases |events|
  {
    if events == [] then r else WithoutRuns(if events[0].Elsewhere? then events[0].after else r, events[1..])
  }

  predicate EveryRunSeesLabels(events: seq<Event>) {
    forall i :: 0 <= i < |events| ==> events[i].OneRun? ==> !events[i].a.labelsReading.Missed?
  }

  /** Once the terminal label is on, and as long as nobody takes it off and no read misses it, all runs together change nothing. */
  lemma {:induction false} LabelIsTerminal(s: Setup, r: Record, events: seq<Event>)
    requires TERMINAL_LABEL in r.labels && OthersKeepTheLabel(events) && EveryRunSeesLabels(events)
    ensures Run(s, r, events) == WithoutRuns(r, events)
    ensures HowMany(s, r, events, (a: Answers, t: Turn) => t.outcome != Escalated && t.outcome != Crashed) == 0
    decreases |events|
  {
    if events != [] {
      if events[0].OneRun? { BlockedIssueIsLeftAlone(s, r, events[0].a); }
      hide Tick;
      LabelIsTerminal(s, Apply(s, r, events[0]), events[1..]);
    }
  }

  /** A run that misses everything it reads and cannot compute the hash. */
  const BLIND_RUN := Answers(Missed, Threw("x"), Missed, Missed, Escalates, true, None, true, Gave(None), Gave(Regen(true, [])), None, true,
                             None, Pushed, Some("1"), Some(false), Gave(None), Posted)

  lemma BlindRunComments(s: Setup, r: Record)
    ensures |Tick(s, r, BLIND_RUN).record.comments| == |r.comments| + 1
  {
    GuardGates(s, r, BLIND_RUN);
    hide FirstStop, FailureBody, FailureReason;
    assert IsBlank(HashOf(BLIND_RUN));
  }

  /** The label is terminal if and only if no read of the labels is missed: one that is does not see it, and the run goes on. */
  lemma LabelIsTerminalIff(s: Setup, r: Record, mayMiss: bool)
    requires TERMINAL_LABEL in r.labels
    ensures !mayMiss <==>
            forall events :: OthersKeepTheLabel(events) && (mayMiss || EveryRunSeesLabels(events)) ==>
              Run(s, r, events) == WithoutRuns(r, events)
  {
    if mayMiss {
      var events := [OneRun(BLIND_RUN)];
      BlindRunComments(s, r);
      assert events[1..] == [];
      hide Tick, BLIND_RUN;
      assert Run(s, r, events) == Run(s, Tick(s, r, BLIND_RUN).record, []) == Tick(s, r, BLIND_RUN).record;
      assert WithoutRuns(r, events) == WithoutRuns(r, []) == r;
      assert OthersKeepTheLabel(events);
    } else {
      forall events | OthersKeepTheLabel(events) && EveryRunSeesLabels(events) ensures Run(s, r, events) == WithoutRuns(r, events) {
        LabelIsTerminal(s, r, events);
      }
    }
  }

  // ---------------------------------------------------------------- one pull request for a claim

  predicate OthersKeepThePr(events: seq<Event>, branch: string) {
    forall i :: 0 <= i < |events| ==> events[i].Elsewhere? ==> HasStandingPr(events[i].after, branch)
  }

  predicate IsClaim(a: Answers, branch: string) {
    !IsBlank(HashOf(a)) && ClaimBranch(HashOf(a)) == branch
  }

  /** How many runs of the sequence start the agent for a claim branch. */
  function RunsForClaim(s: Setup, r: Record, events: seq<Event>, branch: string): nat
    decreases |events|
  {
    if events == [] then 0
    else
      (if events[0].OneRun? && IsClaim(events[0].a, branch) && RunsAgent(Tick(s, r, events[0].a).gate) then 1 else 0) +
      RunsForClaim(s, Apply(s, r, events[0]), events[1..], branch)
  }

  lemma NewPrStands(s: Setup, r: Record, a: Answers, branch: string)
    requires HasStandingPr(r, branch) || (OpensPr(Tick(s, r, a).gate) && ClaimBranch(HashOf(a)) == branch)
    ensures HasStandingPr(Tick(s, r, a).record, branch)
  {
    RestOfOneRun(s, r, a);
    hide Tick, ClaimBranch;
    assert !HasWontFixLabelName([]);
  }

  predicate EveryRunSeesPrs(events: seq<Event>) {
    forall i :: 0 <= i < |events| ==> events[i].OneRun? ==> !events[i].a.prReading.Missed?
  }

  /** While a pull request stands for a claim branch and no read misses it, no run starts the agent for it, let alone opens another. */
  lemma {:induction false} ClaimIsBuiltOnce(s: Setup, r: Record, events: seq<Event>, branch: string)
    requires HasStandingPr(r, branch) && OthersKeepThePr(events, branch) && EveryRunSeesPrs(events)
    ensures RunsForClaim(s, r, events, branch) == 0
    ensures HasStandingPr(Run(s, r, events), branch)
    decreases |events|
  {
    if events != [] {
      if events[0].OneRun? {
        var a := events[0].a;
        NewPrStands(s, r, a, branch);
        if IsClaim(a, branch) && RunsAgent(Tick(s, r, a).gate) { AgentRunsIff(s, r, a); }
      }
      hide Tick, HasStandingPr, ClaimBranch;
      ClaimIsBuiltOnce(s, Apply(s, r, events[0]), events[1..], branch);
    }
  }

  // ---------------------------------------------------------------- one claim and another

  /** The claim branch tells the hash: different hashes never claim the same branch. */
  lemma ClaimBranchTellsTheHash(hash: string, other: string)
    ensures ClaimBranch(hash) == ClaimBranch(other) <==> hash == other
  {
    var head := "adw-upgrade-";
    assert ClaimBranch(hash)[|head|..] == hash && ClaimBranch(other)[|head|..] == other;
  }

  /** Everything but the pull request found for another claim. */
  ghost predicate DifferInOtherClaim(r: Record, r': Record, hash: string, other: string) {
    && r' == r.(prs := r'.prs) && hash != other
    && forall branch :: branch != ClaimBranch(other) ==>
         (branch in r'.prs <==> branch in r.prs) && (branch in r.prs ==> r'.prs[branch] == r.prs[branch])
  }

  lemma {:induction false} SameGateForOtherClaim(s: Setup, r: Record, r': Record, a: Answers, other: string, g: Gate)
    requires DifferInOtherClaim(r, r', HashOf(a), other)
    ensures FirstStop(s, r', a, g) == FirstStop(s, r, a, g)
    decreases 24 - Rank(g)
  {
    ClaimBranchTellsTheHash(HashOf(a), other);
    hide ClaimBranch, HasWontFixLabelName, CountUpgradeFailureComments, IsBlank, TERMINAL_LABEL;
    assert HasStandingPr(r', ClaimBranch(HashOf(a))) == HasStandingPr(r, ClaimBranch(HashOf(a)));
    hide HasStandingPr, HashOf, DifferInOtherClaim;
    assert Stops(s, r', a, g) == Stops(s, r, a, g);
    hide Stops;
    if g != MergeFailed && !Stops(s, r, a, g) { SameGateForOtherClaim(s, r, r', a, other, Next(g)); }
  }

  /** Whatever pull request another hash's claim has, a run for this hash ends at the same gate, in the same way. */
  lemma OtherClaimsDoNotMatter(s: Setup, r: Record, r': Record, a: Answers, other: string)
    requires DifferInOtherClaim(r, r', HashOf(a), other)
    ensures
      var t, t' := Tick(s, r, a), Tick(s, r', a);
      && t'.gate == t.gate && t'.outcome == t.outcome && t'.record == t.record.(prs := t'.record.prs)
      && DifferInOtherClaim(t.record, t'.record, HashOf(a), other)
  {
    SameGateForOtherClaim(s, r, r', a, other, LabelsUnread);
    var g := FirstStop(s, r, a, LabelsUnread);
    TurnWithPrs(s, r, r'.prs, a, g);
    hide FirstStop, TurnAt, OpensPr, HashOf;
    RestOfOneRun(s, r, a);
    RestOfOneRun(s, r', a);
    assert Tick(s, r, a) == TurnAt(s, r, a, g) && Tick(s, r', a) == TurnAt(s, r', a, g);
    hide Tick;
    OpensAlike(r, r', a, other, g);
    hide DifferInOtherClaim, ClaimBranch;
    DifferenceStays(r, r', Tick(s, r, a).record, Tick(s, r', a).record, HashOf(a), other);
  }

  lemma TurnWithPrs(s: Setup, r: Record, prs: map<string, PullRequest>, a: Answers, g: Gate)
    ensures
      var t, t' := TurnAt(s, r, a, g), TurnAt(s, r.(prs := prs), a, g);
      t'.gate == t.gate && t'.outcome == t.outcome && t'.record == t.record.(prs := t'.record.prs)
  {
    hide CommentAt, OutcomeAt;
    var r' := r.(prs := prs);
    PostWithPrs(s, Reach(r, a, g), Reach(r', a, g), g, CommentAt(a, g), a.posting) by { hide RunsAgent, OpensPr, ClaimBranch, HashOf; }
    var labelled, labelled' := r.(labels := r.labels + {TERMINAL_LABEL}), r'.(labels := r'.labels + {TERMINAL_LABEL});
    PostWithPrs(s, labelled, labelled', g, CommentAt(a, g), a.posting);
    hide Post, Reach, TERMINAL_LABEL;
  }

  lemma PostWithPrs(s: Setup, r: Record, r': Record, g: Gate, body: Option<string>, posting: Posting)
    requires r' == r.(prs := r'.prs)
    ensures
      var t, t' := Post(s, r, g, body, posting), Post(s, r', g, body, posting);
      t'.gate == t.gate && t'.outcome == t.outcome && t'.record == t.record.(prs := t'.record.prs)
  {
    hide OutcomeAt;
  }

  lemma OpensAlike(r: Record, r': Record, a: Answers, other: string, g: Gate)
    requires DifferInOtherClaim(r, r', HashOf(a), other)
    ensures
      var claim := ClaimBranch(HashOf(a));
      DifferInOtherClaim(r.(prs := r.prs[claim := PullRequest([])]), r'.(prs := r'.prs[claim := PullRequest([])]), HashOf(a), other)
  {
    ClaimBranchTellsTheHash(HashOf(a), other);
    hide ClaimBranch, HashOf;
  }

  lemma DifferenceStays(r: Record, r': Record, t: Record, t': Record, hash: string, other: string)
    requires t' == t.(prs := t'.prs) && hash != other
    requires var claim := ClaimBranch(hash);
             || (t.prs == r.prs && t'.prs == r'.prs)
             || (t.prs == r.prs[claim := PullRequest([])] && t'.prs == r'.prs[claim := PullRequest([])])
    requires DifferInOtherClaim(r, r', hash, other)
    ensures DifferInOtherClaim(t, t', hash, other)
  {
    hide ClaimBranch;
  }
}
