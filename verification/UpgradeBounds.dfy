/** What the upgrade's failure cap bounds, and exactly what it does not. */
module UpgradeBounds {
  import opened JsStrings
  import opened Upgrade
  import opened UpgradeRuns

  // ---------------------------------------------------------------- which runs fail

  /** The issue is open to the run, as far as it could read the labels. */
  predicate LabelsPass(r: Record, a: Answers) {
    !a.labelsReading.ReadThrows? && (a.labelsReading.Seen? ==> TERMINAL_LABEL !in r.labels)
  }

  predicate PrPasses(r: Record, a: Answers) {
    !a.prReading.ReadThrows? && (a.prReading.Seen? ==> !HasStandingPr(r, ClaimBranch(HashOf(a))))
  }

  /** Behind the guards, the first gate that stops the run is one that fails it. */
  predicate LaterGateFails(s: Setup, r: Record, a: Answers) {
    OutcomeAt(FirstStop(s, r, a, BaseUnread)) == Failed
  }

  lemma FailedGateIff(s: Setup, r: Record, a: Answers)
    ensures OutcomeAt(FirstStop(s, r, a, LabelsUnread)) == Failed <==>
            LabelsPass(r, a) && (IsBlank(HashOf(a)) || (PassesTheGuards(s, r, a) && LaterGateFails(s, r, a)))
  {
    GuardGates(s, r, a);
    GuardsIff(s, r, a);
    hide FirstStop, IsBlank, HashOf, HasStandingPr, ClaimBranch, SeenFailures, TERMINAL_LABEL;
  }

  lemma FailedIsPosted(s: Setup, r: Record, a: Answers)
    ensures Tick(s, r, a).outcome == Failed <==> OutcomeAt(FirstStop(s, r, a, LabelsUnread)) == Failed && a.posting == Posted
  {
    var g := FirstStop(s, r, a, LabelsUnread);
    FailedGateComments(a, g);
    hide FirstStop, CommentAt, Reach;
  }

  lemma FailedGateComments(a: Answers, g: Gate)
    ensures OutcomeAt(g) == Failed ==> CommentAt(a, g).Some? && g != AtCap
  {
    hide FailureBody, FailureReason;
  }

  /**
   * A run fails if and only if the issue is open to it, its comment is posted, and either the hash cannot be computed or the
   * run passes the guards and a later gate fails it.
   */
  lemma FailsIff(s: Setup, r: Record, a: Answers)
    ensures Tick(s, r, a).outcome == Failed <==>
            a.posting == Posted && LabelsPass(r, a)
            && (IsBlank(HashOf(a)) || (PassesTheGuards(s, r, a) && LaterGateFails(s, r, a)))
  {
    FailedIsPosted(s, r, a);
    FailedGateIff(s, r, a);
    hide FirstStop, Tick, PassesTheGuards, LaterGateFails, LabelsPass, IsBlank;
  }

  /**
   * At the cap and beyond it that leaves two ways to fail: the hash cannot be computed, which is tested before the cap; or the
   * comments could not be read and count as none, no pull request is seen to stand, and a later gate fails the run.
   */
  lemma FailsAtTheCapIff(s: Setup, r: Record, a: Answers)
    requires Failures(r) >= s.maxFailures
    ensures Tick(s, r, a).outcome == Failed <==>
            a.posting == Posted && LabelsPass(r, a)
            && (IsBlank(HashOf(a))
                || (a.commentsReading.Missed? && s.maxFailures > 0 && PrPasses(r, a) && LaterGateFails(s, r, a)))
  {
    FailsIff(s, r, a);
    hide FirstStop, Tick, LaterGateFails, IsBlank, HashOf, HasStandingPr, ClaimBranch, CountUpgradeFailureComments;
  }

  // ---------------------------------------------------------------- repetition

  function Repeat(a: Answers, n: nat): seq<Event> {
    seq(n, _ => OneRun(a))
  }

  lemma RepeatUnfolds(a: Answers, n: nat)
    requires n > 0
    ensures Repeat(a, n) != [] && Repeat(a, n)[0] == OneRun(a) && Repeat(a, n)[1..] == Repeat(a, n - 1)
  {}

  lemma RunOfMore(s: Setup, r: Record, a: Answers, n: nat)
    ensures Repeat(a, 0) == [] && Run(s, r, Repeat(a, 0)) == r
    ensures n > 0 ==> Run(s, r, Repeat(a, n)) == Run(s, Tick(s, r, a).record, Repeat(a, n - 1))
  {
    hide Tick;
    if n > 0 { RepeatUnfolds(a, n); }
  }

  lemma HowManyOfMore(s: Setup, r: Record, a: Answers, n: nat, p: (Answers, Turn) -> bool)
    ensures HowMany(s, r, Repeat(a, 0), p) == 0 && OthersKeepComments(s, r, Repeat(a, 0))
    ensures n > 0 ==>
              var t := Tick(s, r, a);
              && HowMany(s, r, Repeat(a, n), p) == (if p(a, t) then 1 else 0) + HowMany(s, t.record, Repeat(a, n - 1), p)
              && (OthersKeepComments(s, r, Repeat(a, n)) <==> OthersKeepComments(s, t.record, Repeat(a, n - 1)))
  {
    hide Tick;
    if n > 0 { RepeatUnfolds(a, n); }
  }

  /** Such a run fails for its hash and leaves everything but the comments as it is. */
  predicate CannotHash(r: Record, a: Answers) {
    LabelsPass(r, a) && IsBlank(HashOf(a)) && a.posting == Posted
  }

  lemma HashFails(s: Setup, r: Record, a: Answers)
    requires CannotHash(r, a)
    ensures Tick(s, r, a).outcome == Failed && CannotHash(Tick(s, r, a).record, a)
  {
    FailsIff(s, r, a);
    FailedGateIff(s, r, a);
    RestOfOneRun(s, r, a);
    GuardGates(s, r, a);
    hide FirstStop, Tick, PassesTheGuards, LaterGateFails, IsBlank, HashOf;
  }

  /** A hash that cannot be computed fails every run, at the cap and beyond it, and each is counted. */
  lemma {:induction false} HashErrorsAreNotCapped(s: Setup, r: Record, a: Answers, n: nat)
    requires IsBot(s) && CannotHash(r, a)
    ensures HowMany(s, r, Repeat(a, n), FAILS) == n
    ensures Failures(Run(s, r, Repeat(a, n))) == Failures(r) + n
    decreases n
  {
    hide Tick, Repeat, Run, HowMany, CountUpgradeFailureComments, CannotHash, IsBot;
    RunOfMore(s, r, a, n);
    HowManyOfMore(s, r, a, n, FAILS);
    if n > 0 {
      HashFails(s, r, a);
      CommentsOfOneRun(s, r, a);
      HashErrorsAreNotCapped(s, Tick(s, r, a).record, a, n - 1);
    }
  }

  // ---------------------------------------------------------------- agent runs that are not counted

  lemma GateOf(s: Setup, r: Record, a: Answers)
    ensures Tick(s, r, a).gate == FirstStop(s, r, a, LabelsUnread)
  {
    hide FirstStop, CommentAt, Reach;
  }

  /** What a run adds to the count: one, if a bot posts and the run ends as failed or dies right after posting that it did. */
  lemma CountedIff(s: Setup, r: Record, a: Answers)
    ensures Failures(Tick(s, r, a).record) == Failures(r) +
            if IsBot(s) && OutcomeAt(Tick(s, r, a).gate) == Failed && a.posting != NotPosted then 1 else 0
  {
    hide FirstStop, Tick, IsBot, CountUpgradeFailureComments, OutcomeAt;
    CommentsOfOneRun(s, r, a);
    FailedIsPosted(s, r, a);
    GateOf(s, r, a);
    if a.posting == PostedThenDied && OutcomeAt(Tick(s, r, a).gate) == Failed { DiedAfterPosting(s, r, a); }
  }

  /** A run of the agent is counted if and only if a bot posts, and the run ends as failed or dies right after posting that it did. */
  lemma AgentRunIsCountedIff(s: Setup, r: Record, a: Answers)
    requires RunsAgent(Tick(s, r, a).gate)
    ensures Failures(Tick(s, r, a).record) > Failures(r) <==>
            IsBot(s) && OutcomeAt(Tick(s, r, a).gate) == Failed && a.posting != NotPosted
    ensures Tick(s, r, a).record.agentRuns == r.agentRuns + 1
  {
    hide FirstStop, Tick, IsBot, CountUpgradeFailureComments, OutcomeAt;
    CountedIff(s, r, a);
    RestOfOneRun(s, r, a);
  }

  lemma DiedAfterPosting(s: Setup, r: Record, a: Answers)
    requires a.posting == PostedThenDied && OutcomeAt(Tick(s, r, a).gate) == Failed
    ensures Tick(s, r, a).outcome == Crashed
  {
    GateOf(s, r, a);
    FailedGateComments(a, FirstStop(s, r, a, LabelsUnread));
    hide FirstStop, CommentAt, Reach;
  }

  /** The run ends behind its agent, before a pull request, and without a comment: it threw, lost its claim, or could not comment. */
  predicate EndsSilently(t: Turn, a: Answers) {
    RunsAgent(t.gate) && !OpensPr(t.gate) && (OutcomeAt(t.gate) == Failed ==> a.posting == NotPosted)
  }

  lemma SilentRunOnlyCounts(s: Setup, r: Record, a: Answers)
    requires EndsSilently(Tick(s, r, a), a)
    ensures Tick(s, r, a).record == r.(agentRuns := r.agentRuns + 1)
  {
    GateOf(s, r, a);
    SilentGates(a, FirstStop(s, r, a, LabelsUnread));
    hide FirstStop, CommentAt, OutcomeAt, ClaimBranch, HashOf;
  }

  lemma SilentGates(a: Answers, g: Gate)
    requires RunsAgent(g) && !OpensPr(g)
    ensures CommentAt(a, g).Some? <==> OutcomeAt(g) == Failed
  {
    hide FailureBody, FailureReason;
  }

  lemma {:induction false} SameGate(s: Setup, r: Record, r': Record, a: Answers, g: Gate)
    requires r' == r.(agentRuns := r'.agentRuns)
    ensures FirstStop(s, r', a, g) == FirstStop(s, r, a, g)
    decreases 24 - Rank(g)
  {
    assert Stops(s, r', a, g) == Stops(s, r, a, g);
    hide Stops;
    if g != MergeFailed && !Stops(s, r, a, g) { SameGate(s, r, r', a, Next(g)); }
  }

  lemma SilentAgain(s: Setup, r: Record, a: Answers)
    requires EndsSilently(Tick(s, r, a), a)
    ensures var next := Tick(s, r, a).record;
            next == r.(agentRuns := r.agentRuns + 1) && EndsSilently(Tick(s, next, a), a)
  {
    hide Tick, FirstStop, OutcomeAt, OpensPr, RunsAgent;
    SilentRunOnlyCounts(s, r, a);
    var next := r.(agentRuns := r.agentRuns + 1);
    GateOf(s, r, a);
    GateOf(s, next, a);
    SameGate(s, r, next, a, LabelsUnread);
  }

  /** A run that ends like this leaves no mark: the next one starts the agent again, any number of times. */
  lemma {:induction false} SilentRunsAreNotCapped(s: Setup, r: Record, a: Answers, n: nat)
    requires EndsSilently(Tick(s, r, a), a)
    ensures Run(s, r, Repeat(a, n)) == r.(agentRuns := r.agentRuns + n)
    decreases n
  {
    hide Tick, Repeat, Run, EndsSilently;
    RunOfMore(s, r, a, n);
    if n > 0 {
      SilentAgain(s, r, a);
      SilentRunsAreNotCapped(s, Tick(s, r, a).record, a, n - 1);
    }
  }

  // ---------------------------------------------------------------- when the cap holds

  /** A run that sees what it is let see, computes the hash, and whose agent fails, which it reports. */
  function AgentFails(hash: string, comments: Reading): Answers {
    Answers(Seen, Gave(hash), Seen, comments, Escalates, true, None, true, Gave(Some("x")), Gave(Regen(true, [])), None, true,
            None, Pushed, Some("1"), Some(false), Gave(None), Posted)
  }

  /** The same, but the agent throws, or the claim is lost to another run. */
  function AgentThrows(hash: string): Answers {
    AgentFails(hash, Seen).(agent := Threw("x"))
  }

  function ClaimIsLost(hash: string): Answers {
    AgentFails(hash, Seen).(agent := Gave(None), push := Rejected)
  }

  /** The issue is open to the upgrade with this hash. */
  predicate IsOpenFor(r: Record, hash: string) {
    !IsBlank(hash) && TERMINAL_LABEL !in r.labels && !HasStandingPr(r, ClaimBranch(hash))
  }

  lemma BehindTheGuards(s: Setup, r: Record, a: Answers)
    requires PassesTheGuards(s, r, a) && a.baseRead && a.worktreeError.None? && a.prepared
    ensures Tick(s, r, a).gate == FirstStop(s, r, a, AgentThrew)
  {
    hide FirstStop, Tick, PassesTheGuards;
    GateOf(s, r, a);
    GuardsIff(s, r, a);
    RebuildGates(s, r, a);
  }

  lemma OpenPasses(s: Setup, r: Record, hash: string, a: Answers)
    requires IsOpenFor(r, hash) && a.hash == Gave(hash) && a.labelsReading == a.prReading == Seen
    requires !a.commentsReading.ReadThrows? && s.maxFailures > 0 && (a.commentsReading.Seen? ==> Failures(r) < s.maxFailures)
    ensures PassesTheGuards(s, r, a)
  {
    hide IsBlank, HasStandingPr, ClaimBranch, CountUpgradeFailureComments, TERMINAL_LABEL;
  }

  /** Both kinds of silent run do occur, whenever the issue is open and the cap leaves room: an agent that throws, and a lost claim. */
  lemma AnAgentMayThrow(s: Setup, r: Record, hash: string)
    requires IsOpenFor(r, hash) && Failures(r) < s.maxFailures
    ensures var t := Tick(s, r, AgentThrows(hash)); t.gate == AgentThrew && EndsSilently(t, AgentThrows(hash))
  {
    hide FirstStop, Tick, Stops, PassesTheGuards, IsOpenFor, Failures, ClaimBranch, IsBlank;
    var a := AgentThrows(hash);
    OpenPasses(s, r, hash, a);
    BehindTheGuards(s, r, a);
    AgentGates(s, r, a);
  }

  lemma AClaimMayBeLost(s: Setup, r: Record, hash: string)
    requires IsOpenFor(r, hash) && Failures(r) < s.maxFailures
    ensures var t := Tick(s, r, ClaimIsLost(hash)); t.gate == ClaimLost && EndsSilently(t, ClaimIsLost(hash))
  {
    hide FirstStop, Tick, Stops, PassesTheGuards, IsOpenFor, Failures, ClaimBranch, IsBlank;
    var a := ClaimIsLost(hash);
    OpenPasses(s, r, hash, a);
    BehindTheGuards(s, r, a);
    LostClaimGates(s, r, hash);
  }

  lemma LostClaimGates(s: Setup, r: Record, hash: string)
    ensures FirstStop(s, r, ClaimIsLost(hash), AgentThrew) == ClaimLost
  {
    hide FirstStop, Stops;
    var a := ClaimIsLost(hash);
    AgentGates(s, r, a);
    assert FirstStop(s, r, a, AgentThrew) == FirstStop(s, r, a, NotStamped);
    CommitGates(s, r, a);
  }

  lemma AgentFailsAt(s: Setup, r: Record, hash: string, comments: Reading)
    requires IsOpenFor(r, hash) && !comments.ReadThrows? && s.maxFailures > 0 && (comments.Seen? ==> Failures(r) < s.maxFailures)
    ensures Tick(s, r, AgentFails(hash, comments)).gate == AgentFailed
  {
    hide FirstStop, Tick, Stops, PassesTheGuards, IsOpenFor, Failures, ClaimBranch, IsBlank;
    var a := AgentFails(hash, comments);
    OpenPasses(s, r, hash, a);
    BehindTheGuards(s, r, a);
    AgentGates(s, r, a);
  }

  lemma AgentFailsOnce(s: Setup, r: Record, hash: string, comments: Reading)
    requires IsOpenFor(r, hash) && !comments.ReadThrows? && s.maxFailures > 0 && (comments.Seen? ==> Failures(r) < s.maxFailures)
    ensures var t := Tick(s, r, AgentFails(hash, comments));
            && FailsPastCap(t) && IsOpenFor(t.record, hash)
            && Failures(t.record) == Failures(r) + if IsBot(s) then 1 else 0
  {
    hide FirstStop, Tick, CountUpgradeFailureComments, HasWontFixLabelName, ClaimBranch, IsBlank, IsBot, PassesTheGuards;
    var a := AgentFails(hash, comments);
    AgentFailsAt(s, r, hash, comments);
    GateOf(s, r, a);
    FailedIsPosted(s, r, a);
    CountedIff(s, r, a);
    RestOfOneRun(s, r, a);
  }

  /** Nothing stops these: a bot's runs that miss the comments, or anybody else's. */
  lemma {:induction false} NothingStopsThem(s: Setup, r: Record, hash: string, comments: Reading, n: nat)
    requires IsOpenFor(r, hash) && !comments.ReadThrows? && s.maxFailures > 0
    requires comments.Seen? ==> Failures(r) < s.maxFailures && !IsBot(s)
    ensures HowMany(s, r, Repeat(AgentFails(hash, comments), n), FAILS_BEHIND_THE_CAP) == n
    ensures OthersKeepComments(s, r, Repeat(AgentFails(hash, comments), n))
    decreases n
  {
    hide Tick, Repeat, HowMany, OthersKeepComments, Failures, IsOpenFor, IsBot, AgentFails, FailsPastCap;
    var a := AgentFails(hash, comments);
    HowManyOfMore(s, r, a, n, FAILS_BEHIND_THE_CAP);
    if n > 0 {
      AgentFailsOnce(s, r, hash, comments);
      NothingStopsThem(s, Tick(s, r, a).record, hash, comments, n - 1);
    }
  }

  /**
   * For an issue that is open to the upgrade, the cap bounds the failures behind it if and only if a bot posts the comments
   * and no run misses them; `mayMiss` is whether one may.
   */
  lemma CapHoldsIff(s: Setup, r: Record, hash: string, mayMiss: bool)
    requires IsOpenFor(r, hash) && Failures(r) < s.maxFailures
    ensures IsBot(s) && !mayMiss <==>
            forall events :: OthersKeepComments(s, r, events) && (mayMiss || EveryRunCounts(events)) ==>
              HowMany(s, r, events, FAILS_BEHIND_THE_CAP) <= s.maxFailures - Failures(r)
  {
    if IsBot(s) && !mayMiss {
      forall events | OthersKeepComments(s, r, events) && EveryRunCounts(events)
        ensures HowMany(s, r, events, FAILS_BEHIND_THE_CAP) <= s.maxFailures - Failures(r)
      {
        FailuresAreCapped(s, r, events);
        EveryFailureHasCounted(s, r, events);
      }
    } else {
      var n := s.maxFailures - Failures(r) + 1;
      var a := AgentFails(hash, if mayMiss then Missed else Seen);
      NothingStopsThem(s, r, hash, a.commentsReading, n);
      assert mayMiss || EveryRunCounts(Repeat(a, n));
      hide HowMany, OthersKeepComments, Repeat, EveryRunCounts, CountUpgradeFailureComments, AgentFails;
      assert HowMany(s, r, Repeat(a, n), FAILS_BEHIND_THE_CAP) > s.maxFailures - Failures(r);
    }
  }

  /** The input: at the cap or beyond it, a run that misses the comments starts the agent, fails and is counted once more. */
  lemma MissedCommentsPassTheCap(s: Setup, r: Record, hash: string)
    requires IsBot(s) && IsOpenFor(r, hash) && Failures(r) >= s.maxFailures > 0
    ensures var t := Tick(s, r, AgentFails(hash, Missed));
            FailsPastCap(t) && RunsAgent(t.gate) && Failures(t.record) == Failures(r) + 1
  {
    var a := AgentFails(hash, Missed);
    AgentFailsOnce(s, r, hash, Missed);
    AgentRunsIff(s, r, a);
    hide Tick, CountUpgradeFailureComments, HasStandingPr, ClaimBranch, IsBlank, FailsPastCap;
  }

  /** An account that is not a bot's is never counted, so its failures never reach the cap. */
  lemma {:induction false} OnlyABotIsCapped(s: Setup, r: Record, events: seq<Event>)
    requires !IsBot(s) && (forall e :: e in events ==> e.OneRun?)
    ensures Failures(Run(s, r, events)) == Failures(r)
    decreases |events|
  {
    if events != [] {
      CommentsOfOneRun(s, r, events[0].a);
      hide Tick, CountUpgradeFailureComments, IsBot;
      OnlyABotIsCapped(s, Apply(s, r, events[0]), events[1..]);
    }
  }

  // ---------------------------------------------------------------- when a claim is built once

  /** A run that misses the labels, the pull requests and the comments, and whose agent throws. */
  function MissingAgentRun(hash: string): Answers {
    AgentThrows(hash).(labelsReading := Missed, prReading := Missed, commentsReading := Missed)
  }

  /** While a pull request stands for a claim branch no run starts the agent for it, if and only if no read misses the pull request. */
  lemma ClaimIsBuiltOnceIff(s: Setup, r: Record, hash: string, mayMiss: bool)
    requires !IsBlank(hash) && HasStandingPr(r, ClaimBranch(hash)) && s.maxFailures > 0
    ensures !mayMiss <==>
            forall events :: OthersKeepThePr(events, ClaimBranch(hash)) && (mayMiss || EveryRunSeesPrs(events)) ==>
              RunsForClaim(s, r, events, ClaimBranch(hash)) == 0
  {
    var branch := ClaimBranch(hash);
    if mayMiss {
      var a := MissingAgentRun(hash);
      AgentRunsIff(s, r, a);
      assert RunsAgent(Tick(s, r, a).gate) && IsClaim(a, branch);
      hide Tick, ClaimBranch, HasStandingPr, IsClaim;
      assert RunsForClaim(s, r, [OneRun(a)], branch) > 0;
      assert OthersKeepThePr([OneRun(a)], branch);
    } else {
      forall events | OthersKeepThePr(events, branch) && EveryRunSeesPrs(events) ensures RunsForClaim(s, r, events, branch) == 0 {
        ClaimIsBuiltOnce(s, r, events, branch);
      }
    }
  }
}
