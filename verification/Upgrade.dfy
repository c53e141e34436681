/**
 * One run of the upgrade orchestrator over the forge it finds, and any sequence of runs with other people's changes in
 * between. Everything the run asks for may answer or throw; a run that something throws out of has crashed.
 */
module Upgrade {
  import opened JsStrings

  const UPGRADE_FAILURE_SIGNATURE := "ADW upgrade regeneration failed."
  const TERMINAL_LABEL := "adw:blocked"

  datatype Comment = Comment(body: string, author: string)

  datatype PullRequest = PullRequest(labels: seq<string>)

  /** `prs` is the pull request that is found for a branch; `agentRuns` counts how often the regeneration agent was started. */
  datatype Record = Record(comments: seq<Comment>, labels: set<string>, prs: map<string, PullRequest>, agentRuns: nat)

  /** `bot` is the account the comments are posted with. */
  datatype Setup = Setup(bot: string, maxFailures: int)

  // ---------------------------------------------------------------- what is counted

  predicate IsUpgradeFailureComment(body: string, author: string) {
    EndsWith(author, "[bot]") && StartsWith(body, UPGRADE_FAILURE_SIGNATURE)
  }

  function CountUpgradeFailureComments(comments: seq<Comment>): (n: nat)
    ensures n <= |comments|
  {
    if comments == [] then 0
    else CountUpgradeFailureComments(comments[..|comments| - 1]) +
         if IsUpgradeFailureComment(Last(comments).body, Last(comments).author) then 1 else 0
  }

  lemma {:induction false} CountOfConcat(a: seq<Comment>, b: seq<Comment>)
    ensures CountUpgradeFailureComments(a + b) == CountUpgradeFailureComments(a) + CountUpgradeFailureComments(b)
  {
    hide IsUpgradeFailureComment;
    if b == [] {
      assert a + b == a;
    } else {
      assert (a + b)[..|a + b| - 1] == a + b[..|b| - 1];
      CountOfConcat(a, b[..|b| - 1]);
    }
  }

  function FailureBody(reason: string): string {
    UPGRADE_FAILURE_SIGNATURE + "\n\n**Reason:** " + reason
  }

  const HITL_HEAD := "This upgrade PR awaits human review"
  const MERGE_FAILED_HEAD := "ADW upgrade PR auto-merge failed (non-fatal). Merge PR #"
  const ESCALATION_BODY := "ADW upgrade escalated to human review."

  function HitlBody(pr: string): string {
    HITL_HEAD + (" per `.github/adw.yml` (`hitl: true`). Review and merge PR #" + pr + " to apply.")
  }

  function MergeFailedBody(pr: string, reason: string): string {
    MERGE_FAILED_HEAD +
    (pr + " manually to apply the upgrade.\n\n**Reason:** " + if |reason| > 200 then reason[..200] + "…" else reason)
  }

  lemma OtherHead(head: string, rest: string, signature: string, i: nat)
    requires i < |head| && i < |signature| && head[i] != signature[i]
    ensures !StartsWith(head + rest, signature)
  {
    var text := head + rest;
    assert |signature| <= |text| ==> text[..|signature|][i] == head[i];
  }

  lemma HeadsDiffer()
    ensures |HITL_HEAD| > 12 && |MERGE_FAILED_HEAD| > 12 && |ESCALATION_BODY| > 12 && |UPGRADE_FAILURE_SIGNATURE| > 12
    ensures HITL_HEAD[0] != UPGRADE_FAILURE_SIGNATURE[0]
    ensures MERGE_FAILED_HEAD[12] != UPGRADE_FAILURE_SIGNATURE[12]
    ensures ESCALATION_BODY[12] != UPGRADE_FAILURE_SIGNATURE[12]
  {
    assert HITL_HEAD[0] == 'T';
    assert MERGE_FAILED_HEAD[12] == 'P';
    assert ESCALATION_BODY[12] == 'e';
    assert UPGRADE_FAILURE_SIGNATURE[0] == 'A' && UPGRADE_FAILURE_SIGNATURE[12] == 'r';
  }

  /** Only the failure comment carries the counted first line, whatever is written into the others. */
  lemma OnlyFailuresCarryTheSignature(pr: string, reason: string)
    ensures StartsWith(FailureBody(reason), UPGRADE_FAILURE_SIGNATURE)
    ensures !StartsWith(HitlBody(pr), UPGRADE_FAILURE_SIGNATURE)
    ensures !StartsWith(MergeFailedBody(pr, reason), UPGRADE_FAILURE_SIGNATURE)
    ensures !StartsWith(ESCALATION_BODY, UPGRADE_FAILURE_SIGNATURE)
  {
    HeadsDiffer();
    hide HITL_HEAD, MERGE_FAILED_HEAD, ESCALATION_BODY, UPGRADE_FAILURE_SIGNATURE, StartsWith;
    Starts(UPGRADE_FAILURE_SIGNATURE, "\n\n**Reason:** ", reason);
    OtherHead(HITL_HEAD, " per `.github/adw.yml` (`hitl: true`). Review and merge PR #" + pr + " to apply.", UPGRADE_FAILURE_SIGNATURE, 0);
    OtherHead(MERGE_FAILED_HEAD,
              pr + " manually to apply the upgrade.\n\n**Reason:** " + if |reason| > 200 then reason[..200] + "…" else reason,
              UPGRADE_FAILURE_SIGNATURE, 12);
    OtherHead(ESCALATION_BODY, "", UPGRADE_FAILURE_SIGNATURE, 12);
    assert ESCALATION_BODY + "" == ESCALATION_BODY;
  }

  lemma Starts(head: string, middle: string, rest: string)
    ensures StartsWith(head + middle + rest, head)
  {}

  /** Case and punctuation do not matter. */
  function LettersAndDigits(name: string): string {
    if name == "" then ""
    else
      var c := Lower(name[0]);
      (if 'a' <= c <= 'z' || '0' <= c <= '9' then [c] else "") + LettersAndDigits(name[1..])
  }

  predicate HasWontFixLabelName(labels: seq<string>) {
    exists i :: 0 <= i < |labels| && LettersAndDigits(labels[i]) == "wontfix"
  }

  lemma LettersAndDigitsOfCons(c: char, s: string)
    ensures LettersAndDigits([c] + s) == LettersAndDigits([c]) + LettersAndDigits(s)
  {
    assert ([c] + s)[1..] == s && [c][1..] == "";
  }

  lemma {:induction false} LettersAndDigitsOfConcat(a: string, b: string)
    ensures LettersAndDigits(a + b) == LettersAndDigits(a) + LettersAndDigits(b)
    decreases |a|
  {
    if a == "" {
      assert a + b == b;
    } else {
      LettersAndDigitsOfCons(a[0], a[1..]);
      LettersAndDigitsOfCons(a[0], a[1..] + b);
      hide LettersAndDigits;
      assert a == [a[0]] + a[1..] && a + b == [a[0]] + (a[1..] + b);
      LettersAndDigitsOfConcat(a[1..], b);
    }
  }

  /** A label counts as `wontfix` whatever the case of its letters and whatever else stands between them. */
  lemma SpellingDoesNotMatter(a: string, c: char, b: string)
    ensures LettersAndDigits(a + [c] + b) == LettersAndDigits(a + [Lower(c)] + b)
    ensures LettersAndDigits([c]) == "" ==> LettersAndDigits(a + [c] + b) == LettersAndDigits(a + b)
    ensures LettersAndDigits([c]) == "" <==> !('a' <= c <= 'z' || 'A' <= c <= 'Z' || '0' <= c <= '9')
  {
    LettersAndDigitsOfConcat(a + [c], b);
    LettersAndDigitsOfConcat(a + [Lower(c)], b);
    LettersAndDigitsOfConcat(a, [c]);
    LettersAndDigitsOfConcat(a, [Lower(c)]);
    LettersAndDigitsOfConcat(a, b);
  }

  /** A pull request is retired by the label in any spelling: respelling one of its labels changes nothing. */
  lemma RetiredInAnySpelling(front: seq<string>, a: string, c: char, b: string, back: seq<string>)
    ensures HasWontFixLabelName(front + [a + [c] + b] + back) <==> HasWontFixLabelName(front + [a + [Lower(c)] + b] + back)
    ensures LettersAndDigits([c]) == "" ==>
              (HasWontFixLabelName(front + [a + [c] + b] + back) <==> HasWontFixLabelName(front + [a + b] + back))
    ensures HasWontFixLabelName(front + ["wontfix"] + back) && !HasWontFixLabelName([])
  {
    SpellingDoesNotMatter(a, c, b);
    LabelAmong(front, a + [c] + b, back);
    LabelAmong(front, a + [Lower(c)] + b, back);
    LabelAmong(front, a + b, back);
    LabelAmong(front, "wontfix", back);
    hide LettersAndDigits, HasWontFixLabelName;
    PlainWontFix();
    hide Lower;
    NoLabel();
  }

  lemma NoLabel()
    ensures !HasWontFixLabelName([])
  {}

  lemma PlainWontFix()
    ensures LettersAndDigits("wontfix") == "wontfix"
  {}

  lemma LabelAmong(front: seq<string>, name: string, back: seq<string>)
    ensures HasWontFixLabelName(front + [name] + back) <==>
            HasWontFixLabelName(front) || LettersAndDigits(name) == "wontfix" || HasWontFixLabelName(back)
  {
    hide LettersAndDigits;
    var labels := front + [name] + back;
    assert labels[|front|] == name;
    if i :| 0 <= i < |front| && LettersAndDigits(front[i]) == "wontfix" { assert labels[i] == front[i]; }
    if i :| 0 <= i < |back| && LettersAndDigits(back[i]) == "wontfix" { assert labels[|front| + 1 + i] == back[i]; }
    if i :| 0 <= i < |labels| && LettersAndDigits(labels[i]) == "wontfix" {
      assert i < |front| ==> labels[i] == front[i];
      assert i > |front| ==> labels[i] == back[i - |front| - 1];
    }
  }

  function ClaimBranch(hash: string): string {
    "adw-upgrade-" + hash
  }

  /** The pull request that stands in the way of another one for the branch. */
  predicate HasStandingPr(r: Record, branch: string) {
    branch in r.prs && !HasWontFixLabelName(r.prs[branch].labels)
  }

  // ---------------------------------------------------------------- the answers of one run

  datatype Reply<+T> = Threw(error: string) | Gave(value: T)

  datatype Regen = Regen(ok: bool, missing: seq<string>)

  datatype Push = Pushed | Rejected | PushThrew(error: string)

  datatype Posting = Posted | NotPosted | PostedThenDied

  datatype Escalation = NoLabel | LabelThenDied | Escalates

  /** What the forge holds is seen; or the read fails, and is answered as if there were nothing; or it throws. */
  datatype Reading = Seen | Missed | ReadThrows

  /** `None` for a step without a result that threw nothing, and for a reading that could not be made. */
  datatype Answers = Answers(
    labelsReading: Reading, hash: Reply<string>, prReading: Reading, commentsReading: Reading, escalation: Escalation,
    baseRead: bool, worktreeError: Option<string>, prepared: bool,
    agent: Reply<Option<string>>, regen: Reply<Regen>, scenarioError: Option<string>, stamped: bool,
    commitError: Option<string>, push: Push, newPr: Option<string>,
    hitl: Option<bool>, merge: Reply<Option<string>>, posting: Posting)

  datatype Outcome = Completed | Escalated | Failed | Crashed

  // ---------------------------------------------------------------- the specification: the first gate that stops the run

  /** The points a run can end at, in order. */
  datatype Gate =
    | LabelsUnread | Blocked | NoHash | PrUnread | HasPr | CommentsUnread | AtCap | BaseUnread | NoWorktree | NotPrepared
    | AgentThrew | AgentFailed | RegenThrew | RegenIncomplete | NoScenarioProject | NotStamped | NotCommitted
    | ClaimLost | NotPushed | NotOpened | ConfigUnread | OpenedForReview | MergeThrew | Merged | MergeFailed

  function Rank(g: Gate): (n: nat)
    ensures n <= 24
  {
    match g
    case LabelsUnread => 0 case Blocked => 1 case NoHash => 2 case PrUnread => 3 case HasPr => 4
    case CommentsUnread => 5 case AtCap => 6 case BaseUnread => 7 case NoWorktree => 8 case NotPrepared => 9
    case AgentThrew => 10 case AgentFailed => 11 case RegenThrew => 12 case RegenIncomplete => 13
    case NoScenarioProject => 14 case NotStamped => 15 case NotCommitted => 16 case ClaimLost => 17
    case NotPushed => 18 case NotOpened => 19 case ConfigUnread => 20 case OpenedForReview => 21
    case MergeThrew => 22 case Merged => 23 case MergeFailed => 24
  }

  function Next(g: Gate): (next: Gate)
    requires g != MergeFailed
    ensures Rank(next) == Rank(g) + 1
  {
    match g
    case LabelsUnread => Blocked case Blocked => NoHash case NoHash => PrUnread case PrUnread => HasPr
    case HasPr => CommentsUnread case CommentsUnread => AtCap case AtCap => BaseUnread case BaseUnread => NoWorktree
    case NoWorktree => NotPrepared case NotPrepared => AgentThrew case AgentThrew => AgentFailed
    case AgentFailed => RegenThrew case RegenThrew => RegenIncomplete case RegenIncomplete => NoScenarioProject
    case NoScenarioProject => NotStamped case NotStamped => NotCommitted case NotCommitted => ClaimLost
    case ClaimLost => NotPushed case NotPushed => NotOpened case NotOpened => ConfigUnread
    case ConfigUnread => OpenedForReview case OpenedForReview => MergeThrew case MergeThrew => Merged
    case Merged => MergeFailed
  }

  function HashOf(a: Answers): string {
    if a.hash.Gave? then a.hash.value else ""
  }

  /** The failures that a run counts: none when it could not read the comments. */
  function SeenFailures(r: Record, a: Answers): nat {
    if a.commentsReading.Seen? then CountUpgradeFailureComments(r.comments) else 0
  }

  predicate Stops(s: Setup, r: Record, a: Answers, g: Gate) {
    match g
    case LabelsUnread => a.labelsReading.ReadThrows?
    case Blocked => a.labelsReading.Seen? && TERMINAL_LABEL in r.labels
    case NoHash => IsBlank(HashOf(a))
    case PrUnread => a.prReading.ReadThrows?
    case HasPr => a.prReading.Seen? && HasStandingPr(r, ClaimBranch(HashOf(a)))
    case CommentsUnread => a.commentsReading.ReadThrows?
    case AtCap => SeenFailures(r, a) >= s.maxFailures
    case BaseUnread => !a.baseRead
    case NoWorktree => a.worktreeError.Some?
    case NotPrepared => !a.prepared
    case AgentThrew => a.agent.Threw?
    case AgentFailed => a.agent.Gave? && a.agent.value.Some?
    case RegenThrew => a.regen.Threw?
    case RegenIncomplete => a.regen.Gave? && !a.regen.value.ok
    case NoScenarioProject => a.scenarioError.Some?
    case NotStamped => !a.stamped
    case NotCommitted => a.commitError.Some?
    case ClaimLost => a.push == Rejected
    case NotPushed => a.push.PushThrew?
    case NotOpened => a.newPr.None?
    case ConfigUnread => a.hitl.None?
    case OpenedForReview => a.hitl == Some(true)
    case MergeThrew => a.merge.Threw?
    case Merged => a.merge == Gave(None)
    case MergeFailed => true
  }

  function FirstStop(s: Setup, r: Record, a: Answers, g: Gate): Gate
    decreases 24 - Rank(g)
  {
    if g == MergeFailed || Stops(s, r, a, g) then g else FirstStop(s, r, a, Next(g))
  }

  function OutcomeAt(g: Gate): Outcome {
    match g
    case NoHash | NoWorktree | AgentFailed | RegenIncomplete | NoScenarioProject | NotCommitted | NotPushed => Failed
    case Blocked | AtCap => Escalated
    case HasPr | ClaimLost | OpenedForReview | Merged | MergeFailed => Completed
    case _ => Crashed
  }

  function OrElse(o: Option<string>, fallback: string): string {
    if o.Some? then o.value else fallback
  }

  const EMPTY_HASH_ERROR := "Error: computeFrameworkHash returned an empty hash"

  function FailureReason(a: Answers, g: Gate): string {
    match g
    case NoHash => if a.hash.Threw? then a.hash.error else EMPTY_HASH_ERROR
    case NoWorktree => OrElse(a.worktreeError, "")
    case AgentFailed => if a.agent.Gave? then OrElse(a.agent.value, "") else ""
    case RegenIncomplete =>
      var missing := if a.regen.Gave? then Join(a.regen.value.missing, ", ") else "";
      ".adw/ regeneration incomplete: " + if missing != "" then missing else "no .adw/ files produced"
    case NoScenarioProject => OrElse(a.scenarioError, "")
    case NotCommitted => OrElse(a.commitError, "")
    case _ => if a.push.PushThrew? then a.push.error else ""
  }

  function CommentAt(a: Answers, g: Gate): Option<string> {
    if OutcomeAt(g) == Failed then Some(FailureBody(FailureReason(a, g)))
    else match g
      case AtCap => Some(ESCALATION_BODY)
      case OpenedForReview => Some(HitlBody(OrElse(a.newPr, "")))
      case MergeFailed => Some(MergeFailedBody(OrElse(a.newPr, ""), if a.merge.Gave? then OrElse(a.merge.value, "") else ""))
      case _ => None
  }

  predicate RunsAgent(g: Gate) {
    Rank(g) >= Rank(AgentThrew)
  }

  predicate OpensPr(g: Gate) {
    Rank(g) >= Rank(ConfigUnread)
  }

  function WithComment(r: Record, body: string, author: string): Record {
    r.(comments := r.comments + [Comment(body, author)])
  }

  datatype Turn = Turn(record: Record, gate: Gate, outcome: Outcome)

  function Post(s: Setup, r: Record, g: Gate, body: Option<string>, posting: Posting): Turn {
    if body.None? then Turn(r, g, OutcomeAt(g))
    else match posting
      case Posted => Turn(WithComment(r, body.value, s.bot), g, OutcomeAt(g))
      case NotPosted => Turn(r, g, Crashed)
      case PostedThenDied => Turn(WithComment(r, body.value, s.bot), g, Crashed)
  }

  function Reach(r: Record, a: Answers, g: Gate): Record {
    r.(agentRuns := if RunsAgent(g) then r.agentRuns + 1 else r.agentRuns,
       prs := if OpensPr(g) then r.prs[ClaimBranch(HashOf(a)) := PullRequest([])] else r.prs)
  }

  function TurnAt(s: Setup, r: Record, a: Answers, g: Gate): Turn {
    if g != AtCap then Post(s, Reach(r, a, g), g, CommentAt(a, g), a.posting)
    else if a.escalation.NoLabel? then Turn(r, g, Crashed)
    else
      var labelled := r.(labels := r.labels + {TERMINAL_LABEL});
      if a.escalation.LabelThenDied? then Turn(labelled, g, Crashed) else Post(s, labelled, g, CommentAt(a, g), a.posting)
  }

  function Tick(s: Setup, r: Record, a: Answers): Turn {
    TurnAt(s, r, a, FirstStop(s, r, a, LabelsUnread))
  }

  // ---------------------------------------------------------------- the run itself

  class Forge {
    var comments: seq<Comment>
    var labels: set<string>
    var prs: map<string, PullRequest>
    var agentRuns: nat

    constructor (r: Record)
      ensures State() == r
    {
      comments, labels, prs, agentRuns := r.comments, r.labels, r.prs, r.agentRuns;
    }

    function State(): Record
      reads this
    {
      Record(comments, labels, prs, agentRuns)
    }

    /** Posts the comment that ends the run at a gate, which does not end well when posting throws. */
    method EndWithComment(s: Setup, body: string, posting: Posting, g: Gate) returns (outcome: Outcome)
      modifies this
      ensures Turn(State(), g, outcome) == Post(s, old(State()), g, Some(body), posting)
    {
      if posting != NotPosted { comments := comments + [Comment(body, s.bot)]; }
      outcome := if posting == Posted then OutcomeAt(g) else Crashed;
    }

    /** A run reports the gate it ended at and the outcome. */
    method ExecuteUpgrade(s: Setup, a: Answers) returns (gate: Gate, outcome: Outcome)
      modifies this
      ensures Turn(State(), gate, outcome) == Tick(s, old(State()), a)
    {
      ghost var r := State();
      assert IsBlank("") && CountUpgradeFailureComments([]) == 0;
      hide Stops, FirstStop, IsBlank, LettersAndDigits, HasWontFixLabelName, CountUpgradeFailureComments, ClaimBranch;
      GuardGates(s, r, a);
      QuietGates(s, r, a);
      hide TurnAt;
      if a.labelsReading.ReadThrows? { return LabelsUnread, Crashed; }
      var seenLabels := if a.labelsReading.Seen? then labels else {};
      if TERMINAL_LABEL in seenLabels { return Blocked, Escalated; }
      if a.hash.Threw? || IsBlank(a.hash.value) {
        outcome := FailWithoutHash(s, a);
        return NoHash, outcome;
      }
      var branch := ClaimBranch(a.hash.value);
      if a.prReading.ReadThrows? { return PrUnread, Crashed; }
      if a.prReading.Seen? && branch in prs && !HasWontFixLabelName(prs[branch].labels) { return HasPr, Completed; }
      if a.commentsReading.ReadThrows? { return CommentsUnread, Crashed; }
      var seenComments := if a.commentsReading.Seen? then comments else [];
      if CountUpgradeFailureComments(seenComments) >= s.maxFailures {
        outcome := Escalate(s, a);
        return AtCap, outcome;
      }
      gate, outcome := Rebuild(s, a, branch);
    }

    method FailWithoutHash(s: Setup, a: Answers) returns (outcome: Outcome)
      modifies this
      ensures Turn(State(), NoHash, outcome) == TurnAt(s, old(State()), a, NoHash)
    {
      hide FailureBody, ClaimBranch, EMPTY_HASH_ERROR, Join, MergeFailedBody, HitlBody, ESCALATION_BODY;
      var reason := if a.hash.Threw? then a.hash.error else EMPTY_HASH_ERROR;
      outcome := EndWithComment(s, FailureBody(reason), a.posting, NoHash);
    }

    /** The label first, then the notices, then the comment. */
    method Escalate(s: Setup, a: Answers) returns (outcome: Outcome)
      modifies this
      ensures Turn(State(), AtCap, outcome) == TurnAt(s, old(State()), a, AtCap)
    {
      if a.escalation.NoLabel? { return Crashed; }
      labels := labels + {TERMINAL_LABEL};
      if a.escalation.LabelThenDied? { return Crashed; }
      outcome := EndWithComment(s, ESCALATION_BODY, a.posting, AtCap);
    }

    /** Everything behind the guards: prepare the worktree, run the agent and look at what it left. */
    method Rebuild(s: Setup, a: Answers, branch: string) returns (gate: Gate, outcome: Outcome)
      requires a.hash.Gave? && branch == ClaimBranch(a.hash.value)
      modifies this
      ensures gate == FirstStop(s, old(State()), a, BaseUnread)
      ensures Turn(State(), gate, outcome) == TurnAt(s, old(State()), a, gate)
    {
      ghost var r := State();
      hide Stops, FirstStop, ClaimBranch, FailureBody, HitlBody, MergeFailedBody, ESCALATION_BODY;
      RebuildGates(s, r, a);
      AgentGates(s, r, a);
      if !a.baseRead { return BaseUnread, Crashed; }
      if a.worktreeError.Some? {
        outcome := EndWithComment(s, FailureBody(a.worktreeError.value), a.posting, NoWorktree);
        return NoWorktree, outcome;
      }
      if !a.prepared { return NotPrepared, Crashed; }
      agentRuns := agentRuns + 1;
      if a.agent.Threw? { return AgentThrew, Crashed; }
      if a.agent.value.Some? {
        outcome := EndWithComment(s, FailureBody(a.agent.value.value), a.posting, AgentFailed);
        return AgentFailed, outcome;
      }
      if a.regen.Threw? { return RegenThrew, Crashed; }
      if !a.regen.value.ok {
        var missing := Join(a.regen.value.missing, ", ");
        var reason := ".adw/ regeneration incomplete: " + if missing != "" then missing else "no .adw/ files produced";
        outcome := EndWithComment(s, FailureBody(reason), a.posting, RegenIncomplete);
        return RegenIncomplete, outcome;
      }
      if a.scenarioError.Some? {
        outcome := EndWithComment(s, FailureBody(a.scenarioError.value), a.posting, NoScenarioProject);
        return NoScenarioProject, outcome;
      }
      gate, outcome := Deliver(s, r, a, branch);
    }

    /** Stamp, commit and push what the agent made. */
    method Deliver(s: Setup, ghost r: Record, a: Answers, branch: string) returns (gate: Gate, outcome: Outcome)
      requires a.hash.Gave? && branch == ClaimBranch(a.hash.value) && State() == r.(agentRuns := r.agentRuns + 1)
      modifies this
      ensures gate == FirstStop(s, r, a, NotStamped)
      ensures Turn(State(), gate, outcome) == TurnAt(s, r, a, gate)
    {
      hide Stops, FirstStop, ClaimBranch, FailureBody, HitlBody, MergeFailedBody, ESCALATION_BODY;
      CommitGates(s, r, a);
      if !a.stamped { return NotStamped, Crashed; }
      if a.commitError.Some? {
        outcome := EndWithComment(s, FailureBody(a.commitError.value), a.posting, NotCommitted);
        return NotCommitted, outcome;
      }
      if a.push == Rejected { return ClaimLost, Completed; }
      if a.push.PushThrew? {
        outcome := EndWithComment(s, FailureBody(a.push.error), a.posting, NotPushed);
        return NotPushed, outcome;
      }
      gate, outcome := OpenPr(s, r, a, branch);
    }

    /** Open the pull request. */
    method OpenPr(s: Setup, ghost r: Record, a: Answers, branch: string) returns (gate: Gate, outcome: Outcome)
      requires a.hash.Gave? && branch == ClaimBranch(a.hash.value) && State() == r.(agentRuns := r.agentRuns + 1)
      modifies this
      ensures gate == FirstStop(s, r, a, NotOpened)
      ensures Turn(State(), gate, outcome) == TurnAt(s, r, a, gate)
    {
      PrGate(s, r, a);
      PrTurns(s, r, a);
      hide FirstStop, ClaimBranch, TurnAt, OutcomeAt, CommentAt, Reach, Post, MergeFailedBody, HitlBody;
      if a.newPr.None? { return NotOpened, Crashed; }
      prs := prs[branch := PullRequest([])];
      gate, outcome := MergePr(s, r, a);
    }

    /** Merge the pull request that was opened, or leave it to a person. */
    method MergePr(s: Setup, ghost r: Record, a: Answers) returns (gate: Gate, outcome: Outcome)
      requires a.newPr.Some? && State() == Opened(r, a)
      modifies this
      ensures gate == FirstStop(s, r, a, ConfigUnread)
      ensures Turn(State(), gate, outcome) == TurnAt(s, r, a, gate)
    {
      ReviewGates(s, r, a);
      MergeGates(s, r, a);
      PrTurns(s, r, a);
      hide FirstStop, ClaimBranch, TurnAt, OutcomeAt, CommentAt, Reach, Post, MergeFailedBody, HitlBody, Opened;
      if a.hitl.None? { return ConfigUnread, Crashed; }
      if a.hitl.value {
        outcome := EndWithComment(s, HitlBody(a.newPr.value), a.posting, OpenedForReview);
        return OpenedForReview, outcome;
      }
      if a.merge.Threw? { return MergeThrew, Crashed; }
      if a.merge.value.None? { return Merged, Completed; }
      outcome := EndWithComment(s, MergeFailedBody(a.newPr.value, a.merge.value.value), a.posting, MergeFailed);
      gate := MergeFailed;
    }
  }

  lemma OneGate(s: Setup, r: Record, a: Answers, g: Gate)
    requires g != MergeFailed
    ensures FirstStop(s, r, a, g) == if Stops(s, r, a, g) then g else FirstStop(s, r, a, Next(g))
  {
    hide Stops;
  }

  /** The gates before the cap that end a run without a trace. */
  lemma QuietGates(s: Setup, r: Record, a: Answers)
    ensures TurnAt(s, r, a, LabelsUnread) == Turn(r, LabelsUnread, Crashed)
    ensures TurnAt(s, r, a, Blocked) == Turn(r, Blocked, Escalated)
    ensures TurnAt(s, r, a, PrUnread) == Turn(r, PrUnread, Crashed)
    ensures TurnAt(s, r, a, HasPr) == Turn(r, HasPr, Completed)
    ensures TurnAt(s, r, a, CommentsUnread) == Turn(r, CommentsUnread, Crashed)
  {
    hide TurnAt, CommentAt;
    QuietGate(s, r, a, LabelsUnread);
    QuietGate(s, r, a, Blocked);
    QuietGate(s, r, a, PrUnread);
    QuietGate(s, r, a, HasPr);
    QuietGate(s, r, a, CommentsUnread);
  }

  lemma QuietGate(s: Setup, r: Record, a: Answers, g: Gate)
    requires g in {LabelsUnread, Blocked, PrUnread, HasPr, CommentsUnread}
    ensures TurnAt(s, r, a, g) == Turn(r, g, OutcomeAt(g))
  {
    hide FailureBody, HitlBody, MergeFailedBody, ESCALATION_BODY, FailureReason, ClaimBranch, HashOf;
  }

  lemma GuardGates(s: Setup, r: Record, a: Answers)
    ensures FirstStop(s, r, a, LabelsUnread) ==
            if a.labelsReading.ReadThrows? then LabelsUnread
            else if a.labelsReading.Seen? && TERMINAL_LABEL in r.labels then Blocked
            else if IsBlank(HashOf(a)) then NoHash
            else if a.prReading.ReadThrows? then PrUnread
            else if a.prReading.Seen? && HasStandingPr(r, ClaimBranch(HashOf(a))) then HasPr
            else if a.commentsReading.ReadThrows? then CommentsUnread
            else if SeenFailures(r, a) >= s.maxFailures then AtCap
            else FirstStop(s, r, a, BaseUnread)
  {
    hide FirstStop, Rank, IsBlank, HasStandingPr, ClaimBranch, HashOf, SeenFailures, TERMINAL_LABEL;
    OneGate(s, r, a, LabelsUnread);
    OneGate(s, r, a, Blocked);
    OneGate(s, r, a, NoHash);
    OneGate(s, r, a, PrUnread);
    OneGate(s, r, a, HasPr);
    OneGate(s, r, a, CommentsUnread);
    OneGate(s, r, a, AtCap);
  }

  lemma RebuildGates(s: Setup, r: Record, a: Answers)
    ensures FirstStop(s, r, a, BaseUnread) ==
            if !a.baseRead then BaseUnread
            else if a.worktreeError.Some? then NoWorktree
            else if !a.prepared then NotPrepared
            else FirstStop(s, r, a, AgentThrew)
  {
    hide FirstStop, Rank, IsBlank, HasStandingPr, SeenFailures, TERMINAL_LABEL;
    OneGate(s, r, a, BaseUnread);
    OneGate(s, r, a, NoWorktree);
    OneGate(s, r, a, NotPrepared);
  }

  lemma AgentGates(s: Setup, r: Record, a: Answers)
    ensures FirstStop(s, r, a, AgentThrew) ==
            if a.agent.Threw? then AgentThrew
            else if a.agent.value.Some? then AgentFailed
            else if a.regen.Threw? then RegenThrew
            else if !a.regen.value.ok then RegenIncomplete
            else if a.scenarioError.Some? then NoScenarioProject
            else FirstStop(s, r, a, NotStamped)
  {
    hide FirstStop, Rank, IsBlank, HasStandingPr, SeenFailures, TERMINAL_LABEL;
    OneGate(s, r, a, AgentThrew);
    OneGate(s, r, a, AgentFailed);
    OneGate(s, r, a, RegenThrew);
    OneGate(s, r, a, RegenIncomplete);
    OneGate(s, r, a, NoScenarioProject);
  }

  lemma CommitGates(s: Setup, r: Record, a: Answers)
    ensures FirstStop(s, r, a, NotStamped) ==
            if !a.stamped then NotStamped
            else if a.commitError.Some? then NotCommitted
            else if a.push == Rejected then ClaimLost
            else if a.push.PushThrew? then NotPushed
            else FirstStop(s, r, a, NotOpened)
  {
    hide FirstStop, Rank, IsBlank, HasStandingPr, SeenFailures, TERMINAL_LABEL;
    OneGate(s, r, a, NotStamped);
    OneGate(s, r, a, NotCommitted);
    OneGate(s, r, a, ClaimLost);
    OneGate(s, r, a, NotPushed);
  }

  lemma PrGate(s: Setup, r: Record, a: Answers)
    ensures FirstStop(s, r, a, NotOpened) == if a.newPr.None? then NotOpened else FirstStop(s, r, a, ConfigUnread)
  {
    hide FirstStop, Rank, IsBlank, HasStandingPr, SeenFailures, TERMINAL_LABEL;
    OneGate(s, r, a, NotOpened);
  }

  lemma ReviewGates(s: Setup, r: Record, a: Answers)
    ensures FirstStop(s, r, a, ConfigUnread) ==
            if a.hitl.None? then ConfigUnread
            else if a.hitl.value then OpenedForReview
            else FirstStop(s, r, a, MergeThrew)
  {
    hide FirstStop, Rank, IsBlank, HasStandingPr, SeenFailures, TERMINAL_LABEL;
    OneGate(s, r, a, ConfigUnread);
    OneGate(s, r, a, OpenedForReview);
  }

  /** The record once the agent has run and the pull request for the claim is open. */
  function Opened(r: Record, a: Answers): Record {
    r.(agentRuns := r.agentRuns + 1, prs := r.prs[ClaimBranch(HashOf(a)) := PullRequest([])])
  }

  /** What the last gates leave, from the pull request on. */
  lemma PrTurns(s: Setup, r: Record, a: Answers)
    ensures TurnAt(s, r, a, NotOpened) == Turn(r.(agentRuns := r.agentRuns + 1), NotOpened, Crashed)
    ensures TurnAt(s, r, a, ConfigUnread) == Turn(Opened(r, a), ConfigUnread, Crashed)
    ensures TurnAt(s, r, a, MergeThrew) == Turn(Opened(r, a), MergeThrew, Crashed)
    ensures TurnAt(s, r, a, Merged) == Turn(Opened(r, a), Merged, Completed)
    ensures TurnAt(s, r, a, OpenedForReview) ==
            Post(s, Opened(r, a), OpenedForReview, Some(HitlBody(OrElse(a.newPr, ""))), a.posting)
    ensures TurnAt(s, r, a, MergeFailed) ==
            Post(s, Opened(r, a), MergeFailed,
                 Some(MergeFailedBody(OrElse(a.newPr, ""), if a.merge.Gave? then OrElse(a.merge.value, "") else "")), a.posting)
  {
    PrReach(r, a);
    PrComments(a);
    hide ClaimBranch, HitlBody, MergeFailedBody, CommentAt, Reach, RunsAgent, OpensPr, Opened;
  }

  lemma PrReach(r: Record, a: Answers)
    ensures Reach(r, a, NotOpened) == r.(agentRuns := r.agentRuns + 1)
    ensures forall g :: g in {ConfigUnread, MergeThrew, Merged, OpenedForReview, MergeFailed} ==> Reach(r, a, g) == Opened(r, a)
  {
    hide ClaimBranch, HashOf;
  }

  lemma PrComments(a: Answers)
    ensures forall g :: g in {NotOpened, ConfigUnread, MergeThrew, Merged} ==> CommentAt(a, g) == None
    ensures CommentAt(a, OpenedForReview) == Some(HitlBody(OrElse(a.newPr, "")))
    ensures CommentAt(a, MergeFailed) ==
            Some(MergeFailedBody(OrElse(a.newPr, ""), if a.merge.Gave? then OrElse(a.merge.value, "") else ""))
  {
    hide HitlBody, MergeFailedBody, FailureBody, FailureReason, ESCALATION_BODY;
  }

  lemma MergeGates(s: Setup, r: Record, a: Answers)
    ensures FirstStop(s, r, a, MergeThrew) ==
            if a.merge.Threw? then MergeThrew else if a.merge.value.None? then Merged else MergeFailed
  {
    hide FirstStop, Rank, IsBlank, HasStandingPr, SeenFailures, TERMINAL_LABEL;
    OneGate(s, r, a, MergeThrew);
    OneGate(s, r, a, Merged);
    LastGate(s, r, a);
  }

  lemma LastGate(s: Setup, r: Record, a: Answers)
    ensures FirstStop(s, r, a, MergeFailed) == MergeFailed
  {
    hide Stops;
  }
}
