/** When a device counts as booted, and what has been answered by the time the work begins or a boot has failed. */
module DeviceReadiness {
  import opened JsStrings
  import opened DeviceLifecycle

  // ---------------------------------------------------------------- one answer

  /** The emulator is found to have exited when this answer comes in. */
  predicate HasExitedBy(l: Lane, a: Answer) {
    l.emulator == Exited || (l.emulator == Running && a.emulatorExited)
  }

  predicate StillRuns(l: Lane, a: Answer) {
    l.emulator == Running && !a.emulatorExited
  }

  predicate AnswersInTime(l: Lane, a: Answer) {
    a.found && l.remainingMs > 0 && !HasExitedBy(l, a)
  }

  /** What a boot wait leads to. */
  function BehindWait(place: Place): Place {
    if place == AwaitingState then AwaitingBootFlag else Ready
  }

  /**
   * A boot wait is over successfully if and only if the device gave the expected answer while there was time and its
   * emulator had not exited, and unsuccessfully if and only if the time was up or the emulator had exited.
   */
  lemma BootWaitIff(l: Lane, a: Answer)
    requires l.place in {AwaitingState, AwaitingBootFlag}
    ensures
      var (l', events) := Advance(l, a);
      && events == []
      && (l'.place == BehindWait(l.place) <==> AnswersInTime(l, a))
      && (l'.place == Reporting <==> l.remainingMs <= 0 || HasExitedBy(l, a))
      && (l'.place == l.place <==> l.remainingMs > 0 && !HasExitedBy(l, a) && !a.found)
      && l'.attempt == l.attempt && l'.hasDevice == l.hasDevice && l'.toolMissing == l.toolMissing
      && (l'.place != Reporting ==> l'.remainingMs == l.remainingMs - a.elapsedMs - if a.found then 0 else BOOT_POLL_INTERVAL_MS)
  {
    PollNext(l, a);
    hide Advance;
    PollLeads(Noticing(l, a), a, BehindWait(l.place));
    PollKeeps(Noticing(l, a), a, BehindWait(l.place));
    hide Poll;
  }

  lemma PollNext(l: Lane, a: Answer)
    requires l.place in {AwaitingState, AwaitingBootFlag}
    ensures Advance(l, a) == (Poll(Noticing(l, a), a, BehindWait(l.place)), [])
  {
    hide Poll;
  }

  lemma PollLeads(l: Lane, a: Answer, next: Place)
    ensures Poll(l, a, next).place ==
            if l.remainingMs <= 0 || l.emulator == Exited then Reporting else if a.found then next else l.place
  {}

  lemma PollKeeps(l: Lane, a: Answer, next: Place)
    ensures
      var l' := Poll(l, a, next);
      && l'.attempt == l.attempt && l'.hasDevice == l.hasDevice && l'.toolMissing == l.toolMissing
      && (l.remainingMs > 0 && l.emulator != Exited ==>
            l'.remainingMs == l.remainingMs - a.elapsedMs - if a.found then 0 else BOOT_POLL_INTERVAL_MS)
  {}

  /**
   * An emulator is given up to its time to exit. If it is still running then, its process is killed, and it is given that
   * time once more; the device is deleted as soon as the emulator has exited, and at the latest behind the second wait.
   */
  lemma ExitWaitIff(l: Lane, a: Answer)
    requires l.place in {AwaitingExit, AwaitingKilled} && l.platform.Android?
    ensures
      var (l', events) := Advance(l, a);
      && events == []
      && (l'.place == Deleting <==> !StillRuns(l, a) || (l.place == AwaitingKilled && l.remainingMs <= 0))
      && (l'.place == l.place <==> StillRuns(l, a) && l.remainingMs > 0)
      && (l'.place == AwaitingKilled && l.place == AwaitingExit <==> l.place == AwaitingExit && StillRuns(l, a) && l.remainingMs <= 0)
      && l'.attempt == l.attempt && l'.final == l.final && l'.toolMissing == l.toolMissing
  {
    ShutDownNext(l, a);
    hide Advance;
    ShutDownKeepsItsRecord(Noticing(l, a), a);
  }

  /** The process is killed exactly when the first wait is over, and each wait has the same time. */
  lemma KilledWhenTheWaitIsOver(l: Lane, a: Answer)
    requires l.place in {AwaitingExit, AwaitingKilled} && l.platform.Android?
    ensures
      var l' := Advance(l, a).0;
      && (l'.processKilled <==> l.processKilled || (l.place == AwaitingExit && StillRuns(l, a) && l.remainingMs <= 0))
      && (l'.place != Deleting ==>
            l'.remainingMs == if l'.place == l.place then l.remainingMs - BOOT_POLL_INTERVAL_MS - a.elapsedMs else EMULATOR_EXIT_TIMEOUT_MS)
  {
    ShutDownNext(l, a);
    hide Advance;
  }

  lemma ShutDownNext(l: Lane, a: Answer)
    requires l.place in {ShuttingDown, AwaitingExit, AwaitingKilled}
    ensures Advance(l, a) == (ShutDown(Noticing(l, a), a), [])
  {
    hide ShutDown;
  }

  /** A shutdown begins with a running emulator being asked to exit, and has nothing to do for any other device. */
  lemma ShutDownBegins(l: Lane, a: Answer)
    requires l.place == ShuttingDown
    ensures
      var (l', events) := Advance(l, a);
      && events == [] && l'.attempt == l.attempt && l'.final == l.final && l'.toolMissing == l.toolMissing
      && if l.platform.Android? && StillRuns(l, a)
         then l'.place == AwaitingExit && l'.remainingMs == EMULATOR_EXIT_TIMEOUT_MS
         else l'.place == Deleting
  {
    hide Fail, NextAttempt, Poll;
  }

  /** An attempt waits for one of its commands. */
  predicate AwaitsCommand(place: Place) {
    place in {Probing, Creating, StartingAdb, Booting, AwaitingBoot}
  }

  /** The answer that an attempt cannot go on with: a command failed, or creating a simulator printed no UDID. */
  predicate FailsAttempt(l: Lane, a: Answer) {
    l.place == Reporting || (AwaitsCommand(l.place) && (!a.ok || (l.place == Creating && l.platform.Ios? && !a.found)))
  }

  /** It failed because the host has no such program. No command is run to look for a port. */
  predicate ToolIsMissing(l: Lane, a: Answer) {
    a.programMissing && if l.place == Reporting then HasExitedBy(l, a) else l.place != Probing && !a.ok
  }

  /** What a command that succeeds leads to. */
  function BehindCommand(l: Lane): Place {
    match l.place
    case Probing => Creating
    case Creating => if l.platform.Android? then StartingAdb else Booting
    case StartingAdb => AwaitingState
    case Booting => AwaitingBoot
    case _ => Ready
  }

  /** A command that succeeds leads on to the next step, and a device exists from the success of its creation on. */
  lemma CommandSucceeds(l: Lane, a: Answer)
    requires AwaitsCommand(l.place) && !FailsAttempt(l, a)
    ensures
      var (l', events) := Advance(l, a);
      && l'.place == BehindCommand(l) && l'.attempt == l.attempt && l'.toolMissing == l.toolMissing
      && l'.hasDevice == (l.hasDevice || l.place == Creating)
      && events == (if l.place == Creating then [Made(l.platform, l.attempt)] else [])
  {
    hide Fail, Poll, ShutDown, NextAttempt;
    match l.place
    case Probing =>
    case Creating =>
    case StartingAdb =>
    case Booting =>
    case AwaitingBoot =>
  }

  lemma EmulatorStarts(l: Lane, a: Answer)
    requires l.place == StartingAdb && a.ok
    ensures var l' := Advance(l, a).0; l'.remainingMs == DEVICE_BOOT_TIMEOUT_MS && l'.emulator == Running
  {
    hide Fail, Poll, ShutDown, NextAttempt;
  }

  lemma FailingLane(l: Lane, a: Answer)
    requires FailsAttempt(l, a)
    ensures Advance(l, a) == Fail(Noticing(l, a), ToolIsMissing(l, a))
  {
    hide Fail, Poll, ShutDown;
  }

  /**
   * A failed attempt is torn down when it has created a device; otherwise the next one begins, unless this was the third or
   * the program is missing. A missing program is on record, and nothing else is.
   */
  lemma AttemptFails(l: Lane, a: Answer)
    requires FailsAttempt(l, a) && 1 <= l.attempt <= MAX_BOOT_ATTEMPTS
    ensures
      var (l', events) := Advance(l, a);
      var isLast := ToolIsMissing(l, a) || l.attempt == MAX_BOOT_ATTEMPTS;
      && (l'.toolMissing <==> ToolIsMissing(l, a)) && (ToolMissed(l.platform) in events <==> ToolIsMissing(l, a))
      && l'.place == (if l.hasDevice then ShuttingDown else if isLast then Failed else FirstPlace(l.platform))
      && l'.attempt == (if l.hasDevice || isLast then l.attempt else l.attempt + 1)
  {
    FailingLane(l, a);
    hide Advance, FailsAttempt, ToolIsMissing;
  }

  lemma DeletionLeads(l: Lane, a: Answer)
    requires l.place == Deleting && 1 <= l.attempt <= MAX_BOOT_ATTEMPTS
    ensures
      var l' := Advance(l, a).0;
      && l'.toolMissing == l.toolMissing
      && if l.final then l'.place == Gone && l'.attempt == l.attempt
         else if l.toolMissing || l.attempt == MAX_BOOT_ATTEMPTS then l'.place == Failed && l'.attempt == l.attempt
         else l'.place == FirstPlace(l.platform) && l'.attempt == l.attempt + 1
  {
    hide Fail, Poll, ShutDown;
  }

  // ---------------------------------------------------------------- what the answers so far say

  function Front<T>(s: seq<T>): seq<T>
    requires s != []
  {
    s[..|s| - 1]
  }

  lemma {:induction false} RunOfOneMore(w: World, actions: seq<Action>)
    requires actions != []
    ensures Run(w, actions) == Step(Run(w, Front(actions)), Last(actions))
    decreases |actions|
  {
    hide Step;
    if |actions| > 1 {
      assert Front(actions)[1..] == Front(actions[1..]);
      RunOfOneMore(Step(w, actions[0]), actions[1..]);
    } else {
      assert actions[1..] == [] && Front(actions) == [];
    }
  }

  /** How long the boot wait of the emulator that was started last has taken: its answers and the pauses between them. */
  function Waited(actions: seq<Action>): int {
    if actions == [] then 0
    else
      var place := Run(START, Front(actions)).android.place;
      match Last(actions)
      case Host(Android, a) =>
        if place == StartingAdb then 0
        else if place in {AwaitingState, AwaitingBootFlag}
        then Waited(Front(actions)) + a.elapsedMs + (if a.found then 0 else BOOT_POLL_INTERVAL_MS)
        else Waited(Front(actions))
      case _ => Waited(Front(actions))
  }

  /** The lane of the platform as it meets the action. */
  function LaneBefore(actions: seq<Action>, i: nat, p: Platform): Lane
    requires i <= |actions|
  {
    LaneOf(Run(START, actions[..i]), p)
  }

  predicate IsAnswered(actions: seq<Action>, i: nat, p: Platform, attempt: nat) {
    i < |actions| && actions[i].Host? && actions[i].platform == p && LaneBefore(actions, i, p).attempt == attempt
  }

  /** The answer is a success: of a boot wait, within 300 s of the start and from an emulator that has not exited. */
  predicate Succeeds(actions: seq<Action>, i: nat, p: Platform, attempt: nat, place: Place) {
    && IsAnswered(actions, i, p, attempt) && LaneBefore(actions, i, p).place == place
    && var a := actions[i].answer;
       if place in {AwaitingState, AwaitingBootFlag}
       then a.found && Waited(actions[..i]) < DEVICE_BOOT_TIMEOUT_MS && !HasExitedBy(LaneBefore(actions, i, p), a)
       else a.ok
  }

  /** The answer makes the attempt fail: a command failed, or a boot wait ran out of time or lost its emulator. */
  predicate Spoils(actions: seq<Action>, i: nat, p: Platform, attempt: nat) {
    && IsAnswered(actions, i, p, attempt)
    && var l, a := LaneBefore(actions, i, p), actions[i].answer;
       if l.place in {AwaitingState, AwaitingBootFlag} then Waited(actions[..i]) >= DEVICE_BOOT_TIMEOUT_MS || HasExitedBy(l, a)
       else AwaitsCommand(l.place) && FailsAttempt(l, a)
  }

  function FirstSign(p: Platform): Place {
    if p.Android? then AwaitingState else Booting
  }

  function LastSign(p: Platform): Place {
    if p.Android? then AwaitingBootFlag else AwaitingBoot
  }

  /**
   * The device has booted in this attempt: the emulator has answered that it is a device, and then that its boot is
   * completed, both in time; or the simulator's boot has succeeded, and then the wait for its boot.
   */
  predicate HasBooted(actions: seq<Action>, p: Platform, attempt: nat) {
    exists i, j :: 0 <= i < j < |actions| && Succeeds(actions, i, p, attempt, FirstSign(p)) && Succeeds(actions, j, p, attempt, LastSign(p))
  }

  predicate HasStarted(actions: seq<Action>, p: Platform, attempt: nat) {
    exists i :: 0 <= i < |actions| && Succeeds(actions, i, p, attempt, FirstSign(p))
  }

  /** Some answer failed an attempt of the platform because the host has no such program. */
  predicate HasMissedTool(actions: seq<Action>, p: Platform) {
    exists i :: 0 <= i < |actions| && MissesToolAt(actions, i, p)
  }

  predicate MissesToolAt(actions: seq<Action>, i: nat, p: Platform) {
    i < |actions| && actions[i].Host? && actions[i].platform == p && MissesTool(LaneBefore(actions, i, p), actions[i].answer)
  }

  predicate HasFailed(actions: seq<Action>, p: Platform, attempt: nat) {
    exists i :: 0 <= i < |actions| && Spoils(actions, i, p, attempt)
  }

  lemma OneActionMore(actions: seq<Action>, action: Action, i: nat)
    requires i <= |actions|
    ensures (actions + [action])[..i] == actions[..i]
    ensures i < |actions| ==> (actions + [action])[i] == actions[i]
  {}

  lemma SignsStay(actions: seq<Action>, action: Action, p: Platform, attempt: nat)
    ensures HasStarted(actions, p, attempt) ==> HasStarted(actions + [action], p, attempt)
    ensures HasBooted(actions, p, attempt) ==> HasBooted(actions + [action], p, attempt)
    ensures HasFailed(actions, p, attempt) ==> HasFailed(actions + [action], p, attempt)
    ensures HasMissedTool(actions, p) ==> HasMissedTool(actions + [action], p)
  {
    hide Run, Waited, HasExitedBy, FailsAttempt, AwaitsCommand, MissesTool;
    forall i: nat, place | Succeeds(actions, i, p, attempt, place) ensures Succeeds(actions + [action], i, p, attempt, place) {
      OneActionMore(actions, action, i);
    }
    forall i: nat | MissesToolAt(actions, i, p) ensures MissesToolAt(actions + [action], i, p) { OneActionMore(actions, action, i); }
    forall i: nat | Spoils(actions, i, p, attempt) ensures Spoils(actions + [action], i, p, attempt) {
      OneActionMore(actions, action, i);
    }
  }

  lemma LastAnswer(front: seq<Action>, p: Platform, a: Answer)
    ensures
      var actions, l := front + [Host(p, a)], LaneOf(Run(START, front), p);
      && actions[..|front|] == front == Front(actions) && Last(actions) == Host(p, a)
      && LaneBefore(actions, |front|, p) == l && IsAnswered(actions, |front|, p, l.attempt)
  {
    hide Run, LaneOf;
    var actions := front + [Host(p, a)];
    assert actions[..|front|] == front;
    assert Last(actions) == Host(p, a);
    assert LaneBefore(actions, |front|, p) == LaneOf(Run(START, front), p);
    assert actions[|front|] == Host(p, a);
  }

  /** The last sign completes the boot that has started. */
  lemma SignsComplete(front: seq<Action>, action: Action, p: Platform, attempt: nat)
    requires HasStarted(front, p, attempt) && Succeeds(front + [action], |front|, p, attempt, LastSign(p))
    ensures HasBooted(front + [action], p, attempt)
  {
    var actions := front + [action];
    hide Run, Waited, HasExitedBy;
    var i :| 0 <= i < |front| && Succeeds(front, i, p, attempt, FirstSign(p));
    OneActionMore(front, action, i);
    assert Succeeds(actions, i, p, attempt, FirstSign(p));
    hide Succeeds;
  }

  lemma HasJustStarted(actions: seq<Action>, i: nat, p: Platform, attempt: nat)
    requires i < |actions| && Succeeds(actions, i, p, attempt, FirstSign(p))
    ensures HasStarted(actions, p, attempt)
  {}

  lemma HasJustMissedTool(actions: seq<Action>, i: nat, p: Platform)
    requires i < |actions|
    ensures MissesToolAt(actions, i, p) ==> HasMissedTool(actions, p)
  {}

  lemma HasJustFailed(actions: seq<Action>, i: nat, p: Platform, attempt: nat)
    requires i < |actions| && Spoils(actions, i, p, attempt)
    ensures HasFailed(actions, p, attempt)
  {}

  /** What has been said of earlier attempts stays said. */
  lemma EarlierFailuresStay(front: seq<Action>, action: Action, p: Platform, attempt: nat)
    requires forall n :: 1 <= n < attempt ==> HasFailed(front, p, n)
    ensures forall n :: 1 <= n < attempt ==> HasFailed(front + [action], p, n)
  {
    hide HasFailed;
    forall n | 1 <= n < attempt ensures HasFailed(front + [action], p, n) { SignsStay(front, action, p, n); }
  }

  // ---------------------------------------------------------------- where a lane can come from

  predicate IsTeardown(place: Place) {
    place in {ShuttingDown, AwaitingExit, AwaitingKilled, Deleting}
  }

  predicate IsBootWait(place: Place) {
    place in {AwaitingState, AwaitingBootFlag}
  }

  /** The attempt has failed, and its device is about to be removed. */
  predicate IsFailed(l: Lane) {
    l.place == Reporting || l.place == Failed || (!l.final && IsTeardown(l.place))
  }

  predicate IsGood(l: Lane, a: Answer) {
    if IsBootWait(l.place) then AnswersInTime(l, a) else a.ok
  }

  predicate IsBad(l: Lane, a: Answer) {
    if IsBootWait(l.place) then l.remainingMs <= 0 || HasExitedBy(l, a) else AwaitsCommand(l.place) && FailsAttempt(l, a)
  }

  predicate MissesTool(l: Lane, a: Answer) {
    FailsAttempt(l, a) && ToolIsMissing(l, a)
  }

  /** What the invariant of the lanes says of one that waits for the host. */
  predicate IsMoving(l: Lane) {
    && !Rests(l) && 1 <= l.attempt <= MAX_BOOT_ATTEMPTS
    && (IsBootWait(l.place) || l.place in {Probing, StartingAdb, AwaitingExit, AwaitingKilled} ==> l.platform.Android?)
    && (l.place in {Booting, AwaitingBoot} ==> l.platform.Ios?)
  }

  /** What a lane has become by an answer, as far as its boot is concerned. */
  predicate Leads(l: Lane, a: Answer, l': Lane) {
    && (l'.place == Ready ==> l.place == LastSign(l.platform) && IsGood(l, a) && l'.attempt == l.attempt)
    && (l'.place == LastSign(l.platform) ==>
          l'.attempt == l.attempt && (l.place == LastSign(l.platform) || (l.place == FirstSign(l.platform) && IsGood(l, a))))
    && (IsFailed(l') ==> l'.attempt == l.attempt && (IsFailed(l) || IsBad(l, a)))
    && (l'.attempt == l.attempt || (l'.attempt == l.attempt + 1 && (IsFailed(l) || IsBad(l, a))))
    && (l'.toolMissing ==> l.toolMissing || MissesTool(l, a))
  }

  lemma AnswerLeads(l: Lane, a: Answer)
    requires IsMoving(l)
    ensures Leads(l, a, Advance(l, a).0)
  {
    if IsBootWait(l.place) {
      WaitLeads(l, a);
    } else if IsTeardown(l.place) {
      TeardownLeads(l, a);
    } else if FailsAttempt(l, a) {
      FailureLeads(l, a);
    } else {
      CommandLeads(l, a);
    }
    hide Advance, Leads, IsTeardown, IsBootWait, FailsAttempt;
  }

  lemma WaitLeads(l: Lane, a: Answer)
    requires IsMoving(l) && IsBootWait(l.place)
    ensures Leads(l, a, Advance(l, a).0)
  {
    BootWaitIff(l, a);
    hide Advance, HasExitedBy;
  }

  lemma CommandLeads(l: Lane, a: Answer)
    requires IsMoving(l) && AwaitsCommand(l.place) && !FailsAttempt(l, a)
    ensures Leads(l, a, Advance(l, a).0)
  {
    CommandSucceeds(l, a);
    hide Advance;
  }

  lemma FailureLeads(l: Lane, a: Answer)
    requires IsMoving(l) && !IsBootWait(l.place) && FailsAttempt(l, a)
    ensures Leads(l, a, Advance(l, a).0)
  {
    AttemptFails(l, a);
    hide Advance, ToolIsMissing;
  }

  lemma TeardownLeads(l: Lane, a: Answer)
    requires IsMoving(l) && IsTeardown(l.place)
    ensures Leads(l, a, Advance(l, a).0)
  {
    hide Advance, HasExitedBy, StillRuns;
    if l.place == ShuttingDown {
      ShutDownBegins(l, a);
    } else if l.place == Deleting {
      DeletionLeads(l, a);
    } else {
      ExitWaitIff(l, a);
    }
  }

  /** A lane comes to a boot wait from starting the emulator, with all of its time, or from a boot wait. */
  predicate KeepsTime(l: Lane, a: Answer, l': Lane) {
    IsBootWait(l'.place) ==>
      if l.place == StartingAdb then l'.remainingMs == DEVICE_BOOT_TIMEOUT_MS
      else IsBootWait(l.place) && l'.remainingMs == l.remainingMs - a.elapsedMs - if a.found then 0 else BOOT_POLL_INTERVAL_MS
  }

  lemma AnswerKeepsTime(l: Lane, a: Answer)
    requires IsMoving(l)
    ensures KeepsTime(l, a, Advance(l, a).0)
  {
    if IsBootWait(l.place) {
      BootWaitIff(l, a);
    } else if IsTeardown(l.place) {
      TeardownKeepsTime(l, a);
    } else if FailsAttempt(l, a) {
      AttemptFails(l, a);
    } else {
      CommandSucceeds(l, a);
      if l.place == StartingAdb { EmulatorStarts(l, a); }
    }
    hide Advance, HasExitedBy, ToolIsMissing;
  }

  lemma TeardownKeepsTime(l: Lane, a: Answer)
    requires IsMoving(l) && IsTeardown(l.place)
    ensures !IsBootWait(Advance(l, a).0.place)
  {
    hide Advance, HasExitedBy, StillRuns;
    if l.place == ShuttingDown {
      ShutDownBegins(l, a);
    } else if l.place == Deleting {
      DeletionLeads(l, a);
    } else {
      ExitWaitIff(l, a);
    }
  }

  // ---------------------------------------------------------------- every lane tells what has been answered

  /** The time that is left to a boot wait is what the answers so far have left of it. */
  predicate TellsTime(actions: seq<Action>, l: Lane) {
    IsBootWait(l.place) ==> l.remainingMs == DEVICE_BOOT_TIMEOUT_MS - Waited(actions)
  }

  /** A device that is ready has booted in this attempt, and one at its last boot step has answered the one before. */
  predicate TellsSigns(actions: seq<Action>, l: Lane) {
    && (l.place == LastSign(l.platform) ==> HasStarted(actions, l.platform, l.attempt))
    && (l.place == Ready ==> HasBooted(actions, l.platform, l.attempt))
  }

  /** An attempt that has failed was failed by an answer, and so was every attempt before the one that runs. */
  predicate TellsFailures(actions: seq<Action>, l: Lane) {
    && (IsFailed(l) ==> HasFailed(actions, l.platform, l.attempt))
    && (l.toolMissing ==> HasMissedTool(actions, l.platform))
    && forall n :: 1 <= n < l.attempt ==> HasFailed(actions, l.platform, n)
  }

  /** The lane as the answer meets it, and what of the platform's lane can be said then. */
  predicate Meets(front: seq<Action>, p: Platform, a: Answer, l: Lane) {
    && l == LaneOf(Run(START, front), p) && IsMoving(l) && l.platform == Advance(l, a).0.platform == p
    && (p.Android? ==> TellsTime(front, l))
  }

  lemma TimeIsTold(front: seq<Action>, a: Answer, l: Lane)
    requires Meets(front, Android, a, l)
    ensures TellsTime(front + [Host(Android, a)], Advance(l, a).0)
  {
    AnswerKeepsTime(l, a);
    LastAnswer(front, Android, a);
    WaitedOfAnswer(front, a);
    hide Run, Advance, IsMoving, Waited;
  }

  lemma WaitedOfAnswer(front: seq<Action>, a: Answer)
    ensures
      var place := Run(START, front).android.place;
      Waited(front + [Host(Android, a)]) ==
        if place == StartingAdb then 0
        else if IsBootWait(place) then Waited(front) + a.elapsedMs + (if a.found then 0 else BOOT_POLL_INTERVAL_MS)
        else Waited(front)
  {
    LastAnswer(front, Android, a);
    hide Run;
  }

  lemma WaitedOfOther(front: seq<Action>, action: Action)
    requires action.Resume? || action.platform.Ios?
    ensures Waited(front + [action]) == Waited(front)
  {
    assert (front + [action])[..|front|] == front;
    hide Run;
  }

  /** A good answer to one of the two boot steps is a success, and a bad one spoils the attempt. */
  lemma AnswerIsOnRecord(front: seq<Action>, p: Platform, a: Answer, l: Lane)
    requires Meets(front, p, a, l)
    ensures var actions := front + [Host(p, a)];
            && (IsGood(l, a) ==> Succeeds(actions, |front|, p, l.attempt, l.place))
            && (IsBad(l, a) ==> Spoils(actions, |front|, p, l.attempt))
            && (MissesTool(l, a) ==> MissesToolAt(actions, |front|, p))
  {
    LastAnswer(front, p, a);
    hide Run, Advance, Waited, HasExitedBy, FailsAttempt, LaneOf, MissesTool;
  }

  lemma SignsAreTold(front: seq<Action>, p: Platform, a: Answer, l: Lane)
    requires Meets(front, p, a, l) && TellsSigns(front, l)
    ensures TellsSigns(front + [Host(p, a)], Advance(l, a).0)
  {
    var actions, l' := front + [Host(p, a)], Advance(l, a).0;
    AnswerLeads(l, a);
    AnswerIsOnRecord(front, p, a, l);
    SignsStay(front, Host(p, a), p, l.attempt);
    hide Run, Advance, IsGood, IsBad, IsFailed, Succeeds, Spoils, HasBooted, HasStarted, HasFailed, IsMoving;
    if l'.place == Ready {
      SignsComplete(front, Host(p, a), p, l.attempt);
    } else if l'.place == LastSign(p) && l.place != LastSign(p) {
      HasJustStarted(actions, |front|, p, l.attempt);
    }
  }

  lemma FailuresAreTold(front: seq<Action>, p: Platform, a: Answer, l: Lane)
    requires Meets(front, p, a, l) && TellsFailures(front, l)
    ensures TellsFailures(front + [Host(p, a)], Advance(l, a).0)
  {
    AnswerLeads(l, a);
    AnswerIsOnRecord(front, p, a, l);
    hide Run, Advance, IsGood, IsBad, Succeeds, Spoils, IsMoving, Leads, TellsFailures, MissesTool;
    HasJustMissedTool(front + [Host(p, a)], |front|, p);
    if IsBad(l, a) { HasJustFailed(front + [Host(p, a)], |front|, p, l.attempt); }
    FailuresFollow(front, Host(p, a), l, a, Advance(l, a).0);
  }

  lemma FailuresFollow(front: seq<Action>, action: Action, l: Lane, a: Answer, l': Lane)
    requires Leads(l, a, l') && l'.platform == l.platform && TellsFailures(front, l)
    requires IsBad(l, a) ==> HasFailed(front + [action], l.platform, l.attempt)
    requires MissesTool(l, a) ==> HasMissedTool(front + [action], l.platform)
    ensures TellsFailures(front + [action], l')
  {
    hide IsGood, IsBad, IsFailed, HasFailed, FirstSign, LastSign, MissesTool, HasMissedTool;
    SignsStay(front, action, l.platform, l.attempt);
    EarlierFailuresStay(front, action, l.platform, l.attempt);
  }

  // ---------------------------------------------------------------- every run

  /** The work is due: in some attempt of each platform the device has booted. */
  predicate BothHaveBooted(actions: seq<Action>) {
    HasOnceBooted(actions, Android) && HasOnceBooted(actions, Ios)
  }

  predicate HasOnceBooted(actions: seq<Action>, p: Platform) {
    exists n :: 1 <= n <= MAX_BOOT_ATTEMPTS && HasBooted(actions, p, n)
  }

  predicate AllHaveFailed(actions: seq<Action>, p: Platform, attempts: nat) {
    forall n :: 1 <= n <= attempts ==> HasFailed(actions, p, n)
  }

  predicate LaneTells(actions: seq<Action>, l: Lane) {
    && (l.platform.Android? ==> TellsTime(actions, l)) && TellsSigns(actions, l) && TellsFailures(actions, l)
  }

  predicate StageTells(actions: seq<Action>, w: World) {
    && (WorkBegun in w.trace ==> BothHaveBooted(actions))
    && (w.stage.CleaningUp? || w.stage.Done? ==>
          && (w.stage.outcome.BootFailed? ==> AllHaveFailed(actions, w.stage.outcome.platform, w.stage.outcome.attempts))
          && (w.stage.outcome == BootFailed(Ios, MAX_BOOT_ATTEMPTS) ==> HasOnceBooted(actions, Android))
          && (w.stage.outcome.ToolMissing? ==> HasMissedTool(actions, w.stage.outcome.platform)))
  }

  predicate Tells(actions: seq<Action>, w: World) {
    LaneTells(actions, w.android) && LaneTells(actions, w.ios) && StageTells(actions, w)
  }

  /** What is told of a lane stays told while the action does not move it. */
  lemma UnmovedLaneTells(front: seq<Action>, action: Action, l: Lane)
    requires LaneTells(front, l) && (l.platform.Android? ==> Waited(front + [action]) == Waited(front))
    ensures LaneTells(front + [action], l)
  {
    SignsStay(front, action, l.platform, l.attempt);
    EarlierFailuresStay(front, action, l.platform, l.attempt);
    hide Waited, HasStarted, HasBooted, HasFailed, HasMissedTool, IsFailed;
  }

  lemma AnsweredLaneTells(front: seq<Action>, p: Platform, a: Answer, l: Lane)
    requires Meets(front, p, a, l) && LaneTells(front, l)
    ensures LaneTells(front + [Host(p, a)], Advance(l, a).0)
  {
    if p.Android? { TimeIsTold(front, a, l); }
    SignsAreTold(front, p, a, l);
    FailuresAreTold(front, p, a, l);
    hide Run, Advance, TellsTime, TellsSigns, TellsFailures, IsMoving;
  }

  lemma StageStaysTold(front: seq<Action>, action: Action, w: World)
    requires StageTells(front, w)
    ensures StageTells(front + [action], w)
  {
    hide HasBooted, HasFailed, HasMissedTool;
    forall p: Platform, n: nat
      ensures HasBooted(front, p, n) ==> HasBooted(front + [action], p, n)
      ensures HasFailed(front, p, n) ==> HasFailed(front + [action], p, n)
    {
      SignsStay(front, action, p, n);
    }
    forall p: Platform ensures HasMissedTool(front, p) ==> HasMissedTool(front + [action], p) { SignsStay(front, action, p, 0); }
  }

  lemma HeldLaneMoves(l: Lane, acc: Account, stage: Stage)
    requires LaneHolds(l, acc, stage) && !Rests(l)
    ensures IsMoving(l)
  {}

  function OtherThan(p: Platform): Platform {
    if p.Android? then Ios else Android
  }

  lemma HostTells(front: seq<Action>, p: Platform, a: Answer)
    requires var w := Run(START, front); Holds(w) && Tells(front, w) && !Rests(LaneOf(w, p))
    ensures Tells(front + [Host(p, a)], Step(Run(START, front), Host(p, a)))
  {
    var w, w' := Run(START, front), Step(Run(START, front), Host(p, a));
    HostMoves(w, p, a);
    LanesTell(front, w);
    hide Run, Step, Holds, Rests, Tells, Advance, IsMoving, LaneTells, StageTells, TellsTime;
    assert Meets(front, p, a, LaneOf(w, p));
    AnsweredLaneTells(front, p, a, LaneOf(w, p));
    if p.Ios? { WaitedOfOther(front, Host(p, a)); }
    UnmovedLaneTells(front, Host(p, a), LaneOf(w, OtherThan(p)));
    StageStaysTold(front, Host(p, a), w);
    StageTellsAfter(front + [Host(p, a)], w, w');
    AllTell(front + [Host(p, a)], w');
  }

  lemma LanesTell(actions: seq<Action>, w: World)
    requires Tells(actions, w)
    ensures StageTells(actions, w) && forall p: Platform :: LaneTells(actions, LaneOf(w, p))
    ensures w.android.platform.Android? ==> TellsTime(actions, w.android)
  {
    hide StageTells, TellsTime, TellsSigns, TellsFailures;
  }

  lemma AllTell(actions: seq<Action>, w: World)
    requires StageTells(actions, w) && forall p: Platform :: LaneTells(actions, LaneOf(w, p))
    ensures Tells(actions, w)
  {
    hide StageTells, LaneTells;
    assert LaneTells(actions, LaneOf(w, Android)) && LaneTells(actions, LaneOf(w, Ios));
  }

  lemma HostMoves(w: World, p: Platform, a: Answer)
    requires Holds(w) && !Rests(LaneOf(w, p))
    ensures
      var l, w', q := LaneOf(w, p), Step(w, Host(p, a)), OtherThan(p);
      && IsMoving(l) && l.platform == Advance(l, a).0.platform == p && LaneOf(w, q).platform == q
      && LaneOf(w', p) == Advance(l, a).0 && LaneOf(w', q) == LaneOf(w, q)
      && w'.stage == w.stage && (WorkBegun in w'.trace <==> WorkBegun in w.trace)
  {
    var l, acc := LaneOf(w, p), AccountOf(w.trace, p);
    HeldLaneMoves(l, acc, w.stage);
    AdvanceHolds(l, acc, w.stage, a);
    hide LaneHolds, AccountOf, Advance, IsMoving;
  }

  lemma StageTellsAfter(actions: seq<Action>, w: World, w': World)
    requires StageTells(actions, w) && w'.stage == w.stage && (WorkBegun in w'.trace <==> WorkBegun in w.trace)
    ensures StageTells(actions, w')
  {
    hide BothHaveBooted, AllHaveFailed;
  }

  lemma LastTeardownTells(actions: seq<Action>, l: Lane)
    requires LaneTells(actions, l)
    ensures LaneTells(actions, LastTeardown(l))
  {
    hide HasStarted, HasBooted, HasFailed, HasMissedTool, Waited;
  }

  lemma ReportTells(actions: seq<Action>, w: World)
    requires LaneTells(actions, w.android) && LaneTells(actions, w.ios)
    requires w.android.platform.Android? && w.ios.platform.Ios? && (w.android.place == Failed || w.ios.place == Failed)
    requires w.android.place in {Ready, Failed} && 1 <= w.android.attempt <= MAX_BOOT_ATTEMPTS
    ensures var outcome := ReportedFailure(w.android, w.ios);
            && (outcome == BootFailed(Ios, MAX_BOOT_ATTEMPTS) ==> HasOnceBooted(actions, Android))
            && (outcome.BootFailed? ==> AllHaveFailed(actions, outcome.platform, outcome.attempts))
            && (outcome.ToolMissing? ==> HasMissedTool(actions, outcome.platform))
  {
    hide HasStarted, HasBooted, HasFailed, HasMissedTool, Waited, TellsTime;
  }

  lemma ReadyTells(actions: seq<Action>, w: World)
    requires LaneTells(actions, w.android) && LaneTells(actions, w.ios)
    requires w.android.platform.Android? && w.ios.platform.Ios? && w.android.place == w.ios.place == Ready
    requires 1 <= w.android.attempt <= MAX_BOOT_ATTEMPTS && 1 <= w.ios.attempt <= MAX_BOOT_ATTEMPTS
    ensures BothHaveBooted(actions)
  {
    hide HasStarted, HasBooted, HasFailed, HasMissedTool, Waited, TellsTime, TellsFailures;
  }

  lemma HeldWorld(w: World)
    requires Holds(w)
    ensures w.android.platform.Android? && w.ios.platform.Ios?
    ensures 1 <= w.android.attempt <= MAX_BOOT_ATTEMPTS && 1 <= w.ios.attempt <= MAX_BOOT_ATTEMPTS
    ensures w.stage.BringingUp? ==> w.android.place != Gone && w.ios.place != Gone
  {
    hide AccountOf;
  }

  lemma ResumeTells(front: seq<Action>, workThrows: bool)
    requires var w := Run(START, front); Holds(w) && Tells(front, w) && Enabled(w, Resume(workThrows))
    ensures Tells(front + [Resume(workThrows)], Step(Run(START, front), Resume(workThrows)))
  {
    var w, action := Run(START, front), Resume(workThrows);
    var actions, w' := front + [action], Step(w, action);
    HeldWorld(w);
    RestingLanes(w, workThrows);
    LanesTell(front, w);
    ResumeMoves(w, workThrows);
    hide HasOnceBooted, Rests;
    hide Run, Step, Enabled, Holds, Tells, LaneTells, TellsTime, StageTells, LastTeardown, ReportedFailure, BothHaveBooted, AllHaveFailed;
    WaitedOfOther(front, action);
    forall p: Platform ensures LaneTells(actions, LaneOf(w, p)) && LaneTells(actions, LaneOf(w', p)) {
      UnmovedLaneTells(front, action, LaneOf(w, p));
      LastTeardownTells(actions, LaneOf(w, p));
    }
    StageStaysTold(front, action, w);
    assert LaneTells(actions, LaneOf(w, Android)) && LaneTells(actions, LaneOf(w, Ios));
    if w.stage.BringingUp? {
      if w.android.place == Failed || w.ios.place == Failed { ReportTells(actions, w); } else { ReadyTells(actions, w); }
    }
    ResumeStageTells(actions, w, workThrows);
    AllTell(actions, w');
  }

  lemma RestingLanes(w: World, workThrows: bool)
    requires Holds(w) && Enabled(w, Resume(workThrows))
    ensures w.stage.BringingUp? ==> w.android.place in {Ready, Failed} && w.ios.place in {Ready, Failed}
  {
    HeldWorld(w);
    hide Holds;
  }

  lemma ResumeMoves(w: World, workThrows: bool)
    ensures forall p: Platform ::
              LaneOf(Step(w, Resume(workThrows)), p) in {LaneOf(w, p), LastTeardown(LaneOf(w, p))}
  {
    hide LastTeardown, ReportedFailure;
  }

  lemma ResumeStageTells(actions: seq<Action>, w: World, workThrows: bool)
    requires Enabled(w, Resume(workThrows)) && StageTells(actions, w)
    requires w.stage.BringingUp? ==> w.android.place != Gone && w.ios.place != Gone
    requires w.stage.BringingUp? && w.android.place == w.ios.place == Ready ==> BothHaveBooted(actions)
    requires w.stage.BringingUp? && (w.android.place == Failed || w.ios.place == Failed) ==>
               var outcome := ReportedFailure(w.android, w.ios);
               && (outcome == BootFailed(Ios, MAX_BOOT_ATTEMPTS) ==> HasOnceBooted(actions, Android))
               && (outcome.BootFailed? ==> AllHaveFailed(actions, outcome.platform, outcome.attempts))
               && (outcome.ToolMissing? ==> HasMissedTool(actions, outcome.platform))
    ensures StageTells(actions, Step(w, Resume(workThrows)))
  {
    hide LastTeardown, ReportedFailure, BothHaveBooted, AllHaveFailed, HasMissedTool;
  }

  lemma StartTells()
    ensures Tells([], START)
  {}

  lemma {:induction false} EveryRunTells(actions: seq<Action>)
    ensures Tells(actions, Run(START, actions))
    decreases |actions|
  {
    if actions == [] {
      StartTells();
    } else {
      var front, action := Front(actions), Last(actions);
      assert actions == front + [action];
      EveryRunTells(front);
      RunOfOneMore(START, actions);
      StartHolds();
      EveryRunHolds(START, front);
      hide Run, Holds, Tells;
      if !Enabled(Run(START, front), action) {
        StillTells(front, action);
      } else {
        match action
        case Host(p, a) => HostTells(front, p, a);
        case Resume(workThrows) => ResumeTells(front, workThrows);
      }
    }
  }

  lemma StillTells(front: seq<Action>, action: Action)
    requires var w := Run(START, front); Holds(w) && Tells(front, w) && !Enabled(w, action)
    ensures Tells(front + [action], Run(START, front))
  {
    var w := Run(START, front);
    LanesTell(front, w);
    WaitedOfIdle(front, action);
    hide Run, Holds, Tells, LaneTells, TellsTime, StageTells, Waited;
    forall p: Platform ensures LaneTells(front + [action], LaneOf(w, p)) { UnmovedLaneTells(front, action, LaneOf(w, p)); }
    StageStaysTold(front, action, w);
    AllTell(front + [action], w);
  }

  lemma WaitedOfIdle(front: seq<Action>, action: Action)
    requires !Enabled(Run(START, front), action)
    ensures Waited(front + [action]) == Waited(front)
  {
    if action.Resume? || action.platform.Ios? { WaitedOfOther(front, action); } else { WaitedOfAnswer(front, action.answer); }
    hide Run, Waited;
  }

  /**
   * On every interleaving: the work begins only when in some attempt of each platform the device has booted, by the answers
   * of its host and within the time.
   */
  lemma WorkMeansBothHaveBooted(actions: seq<Action>)
    ensures WorkBegun in Run(START, actions).trace ==> BothHaveBooted(actions)
  {
    EveryRunTells(actions);
    hide Run, LaneTells, BothHaveBooted, AllHaveFailed;
  }

  /**
   * A failed boot is reported only when answers of the host have failed all three attempts, the simulator's only when the
   * emulator has booted, and a missing tool only when an answer missed it.
   */
  lemma FailureMeansBadAnswers(actions: seq<Action>)
    ensures
      var stage := Run(START, actions).stage;
      stage.Done? ==>
        && (stage.outcome.BootFailed? ==> AllHaveFailed(actions, stage.outcome.platform, MAX_BOOT_ATTEMPTS))
        && (stage.outcome.BootFailed? && stage.outcome.platform.Ios? ==> HasOnceBooted(actions, Android))
        && (stage.outcome.ToolMissing? ==> HasMissedTool(actions, stage.outcome.platform))
        && (stage.outcome in {Result, Threw} ==> BothHaveBooted(actions))
  {
    var w := Run(START, actions);
    EveryRunTells(actions);
    if w.stage.Done? {
      OutcomeIsReported(actions);
      BegunIsInTrace(w.trace);
    }
    hide Run, LaneTells, BothHaveBooted, AllHaveFailed, HasMissedTool, Times;
  }

  lemma BegunIsInTrace(trace: seq<Event>)
    ensures Times(trace, WorkBegun) == 1 ==> WorkBegun in trace
  {
    assert WorkBegun in multiset(trace) ==> WorkBegun in trace;
  }

  // ---------------------------------------------------------------- a good host

  /** Every command succeeds, every poll finds what it waits for, and nothing takes any time. */
  const GOOD := Answer(true, false, true, false, 0)

  function Answers(p: Platform, n: nat): seq<Action> {
    seq(n, _ => Host(p, GOOD))
  }

  function AfterGood(l: Lane, n: nat): Lane
    decreases n
  {
    if n == 0 then l else AfterGood(Advance(l, GOOD).0, n - 1)
  }

  predicate AllMove(l: Lane, n: nat)
    decreases n
  {
    n == 0 || (!Rests(l) && AllMove(Advance(l, GOOD).0, n - 1))
  }

  lemma {:induction false} RunOfAnswers(w: World, p: Platform, n: nat, rest: seq<Action>)
    requires AllMove(LaneOf(w, p), n)
    ensures
      var w' := Run(w, Answers(p, n));
      && Run(w, Answers(p, n) + rest) == Run(w', rest) && w'.stage == w.stage
      && LaneOf(w', p) == AfterGood(LaneOf(w, p), n) && LaneOf(w', OtherThan(p)) == LaneOf(w, OtherThan(p))
    decreases n
  {
    if n == 0 {
      assert Answers(p, 0) + rest == rest;
    } else {
      hide Advance;
      assert (Answers(p, n) + rest)[1..] == Answers(p, n - 1) + rest && Answers(p, n)[1..] == Answers(p, n - 1);
      RunOfAnswers(Step(w, Host(p, GOOD)), p, n - 1, rest);
    }
  }

  lemma GoodCommand(l: Lane)
    requires AwaitsCommand(l.place)
    ensures Advance(l, GOOD).0.platform == l.platform
    ensures var l' := Advance(l, GOOD).0;
            l'.place == BehindCommand(l) && l'.attempt == l.attempt
            && (l.place == StartingAdb ==> l'.emulator == Running && l'.remainingMs == DEVICE_BOOT_TIMEOUT_MS)
  {
    CommandSucceeds(l, GOOD);
    if l.place == StartingAdb { EmulatorStarts(l, GOOD); }
    hide Fail, Poll, ShutDown, NextAttempt;
  }

  lemma GoodPoll(l: Lane)
    requires l.place in {AwaitingState, AwaitingBootFlag} && l.emulator == Running && l.remainingMs > 0
    ensures var l' := Advance(l, GOOD).0;
            l'.place == BehindWait(l.place) && l'.attempt == l.attempt && l'.emulator == Running && l'.remainingMs == l.remainingMs
  {
    PollNext(l, GOOD);
    hide Advance;
  }

  lemma AndroidComesUp()
    ensures AllMove(StartOf(Android), 5)
    ensures var l := AfterGood(StartOf(Android), 5); l.place == Ready && l.attempt == 1
  {
    hide Advance;
    var l0 := StartOf(Android);
    GoodCommand(l0);
    var l1 := Advance(l0, GOOD).0;
    GoodCommand(l1);
    var l2 := Advance(l1, GOOD).0;
    GoodCommand(l2);
    var l3 := Advance(l2, GOOD).0;
    GoodPoll(l3);
    var l4 := Advance(l3, GOOD).0;
    GoodPoll(l4);
    assert AfterGood(l4, 1) == AfterGood(Advance(l4, GOOD).0, 0) == Advance(l4, GOOD).0;
    assert AfterGood(l2, 3) == AfterGood(l3, 2) == AfterGood(l4, 1);
    assert AfterGood(l0, 5) == AfterGood(l1, 4) == AfterGood(l2, 3);
    assert AllMove(l4, 1) && AllMove(l3, 2) && AllMove(l2, 3) && AllMove(l1, 4);
  }

  lemma SimulatorComesUp()
    ensures AllMove(StartOf(Ios), 3)
    ensures var l := AfterGood(StartOf(Ios), 3); l.place == Ready && l.attempt == 1
  {
    hide Advance;
    var l0 := StartOf(Ios);
    GoodCommand(l0);
    var l1 := Advance(l0, GOOD).0;
    GoodCommand(l1);
    var l2 := Advance(l1, GOOD).0;
    GoodCommand(l2);
    assert AfterGood(l0, 3) == AfterGood(l1, 2) == AfterGood(l2, 1) == AfterGood(Advance(l2, GOOD).0, 0);
    assert AllMove(l2, 1) && AllMove(l1, 2);
  }

  /** On a good host both devices come up in their first attempt, and the work begins. */
  lemma WorkBeginsOnAGoodHost()
    ensures var w := Run(START, Answers(Android, 5) + (Answers(Ios, 3) + [Resume(false)]));
            w.stage == Working && WorkBegun in w.trace && w.android.attempt == w.ios.attempt == 1
  {
    AndroidComesUp();
    SimulatorComesUp();
    RunOfAnswers(START, Android, 5, Answers(Ios, 3) + [Resume(false)]);
    var w := Run(START, Answers(Android, 5));
    RunOfAnswers(w, Ios, 3, [Resume(false)]);
    var ready := Run(w, Answers(Ios, 3));
    hide Advance, AfterGood, AllMove, Answers;
    assert Run(ready, [Resume(false)]) == Step(ready, Resume(false)) by {
      RunOfOneMore(ready, [Resume(false)]);
      assert Front([Resume(false)]) == [];
    }
    hide Run, LastTeardown, ReportedFailure;
  }
}
