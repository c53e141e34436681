/**
 * A workflow's emulator and simulator: two boot-in-attempts loops that run concurrently, the work, and the teardown, as
 * one machine that moves at each answer of the host. The order in which the answers arrive, and what they say, is free.
 */
module DeviceLifecycle {
  import opened JsStrings

  datatype Platform = Android | Ios

  const MAX_BOOT_ATTEMPTS := 3
  const DEVICE_BOOT_TIMEOUT_MS := 300_000
  const EMULATOR_EXIT_TIMEOUT_MS := 30_000
  const BOOT_POLL_INTERVAL_MS := 2_000

  /**
   * What the host says when a lane is waiting for it: whether the command succeeded, whether its program is missing,
   * whether the poll found what it waits for (or the output held a UDID), whether the emulator has exited by now, and how
   * long the answer took. A lane reads of it what it asked for.
   */
  datatype Answer = Answer(ok: bool, programMissing: bool, found: bool, emulatorExited: bool, elapsedMs: nat)

  /** A device counts as made when there is a handle to remove it by, and as removed when its deletion was ordered. */
  datatype Event =
    | AttemptBegun(platform: Platform, attempt: nat)
    | Made(platform: Platform, attempt: nat)
    | ToolMissed(platform: Platform)
    | Removed(platform: Platform, attempt: nat)
    | WorkBegun
    | WorkEnded(threw: bool)
    | Settled(outcome: Outcome)

  datatype Outcome =
    | Result
    | Threw
    | BootFailed(platform: Platform, attempts: nat)
    | ToolMissing(platform: Platform)

  // ---------------------------------------------------------------- one platform's lane

  datatype Emulator = NotStarted | Running | Exited

  /** Where a lane waits. `Ready`, `Failed` and `Gone` wait for the other lane or for the work, not for the host. */
  datatype Place =
    | Probing | Creating | StartingAdb | AwaitingState | AwaitingBootFlag | Reporting   // Android's attempt
    | Booting | AwaitingBoot                                                            // the simulator's, after Creating
    | ShuttingDown | AwaitingExit | AwaitingKilled | Deleting                           // a teardown
    | Ready | Failed | Gone

  /** `device` is what the attempt has created so far and the teardown has to remove. */
  datatype Lane = Lane(
    platform: Platform, place: Place, attempt: nat, hasDevice: bool, emulator: Emulator, processKilled: bool,
    booted: bool, remainingMs: int, toolMissing: bool, final: bool)

  function FirstPlace(platform: Platform): Place {
    if platform.Android? then Probing else Creating
  }

  function StartOf(platform: Platform): Lane {
    Lane(platform, FirstPlace(platform), 1, false, NotStarted, false, false, 0, false, false)
  }

  predicate Rests(l: Lane) {
    l.place in {Ready, Failed, Gone}
  }

  type Moved = (Lane, seq<Event>)

  /** The end of the attempt loop's body: a missing tool or a third failure ends the loop, anything else begins again. */
  function NextAttempt(l: Lane): Moved {
    if l.toolMissing || l.attempt >= MAX_BOOT_ATTEMPTS then (l.(place := Failed), [])
    else
      (l.(place := FirstPlace(l.platform), attempt := l.attempt + 1, emulator := NotStarted, processKilled := false, booted := false),
       [AttemptBegun(l.platform, l.attempt + 1)])
  }

  /** A failed attempt tears down what it has made, which is nothing when there is no device. */
  function Fail(l: Lane, toolMissing: bool): Moved {
    var l' := l.(toolMissing := toolMissing);
    var missed := if toolMissing then [ToolMissed(l.platform)] else [];
    if l.hasDevice then (l'.(place := ShuttingDown), missed)
    else var (next, events) := NextAttempt(l'); (next, missed + events)
  }

  /** One round of a poll: the deadline, then the emulator, then the answer, then the sleep. */
  function Poll(l: Lane, a: Answer, next: Place): Lane {
    if l.remainingMs <= 0 || l.emulator == Exited then l.(place := Reporting)
    else if a.found then l.(place := next, remainingMs := l.remainingMs - a.elapsedMs)
    else l.(remainingMs := l.remainingMs - a.elapsedMs - BOOT_POLL_INTERVAL_MS)
  }

  /** The emulator's exit is noticed between the answers. */
  function Noticing(l: Lane, a: Answer): Lane {
    if l.emulator == Running && a.emulatorExited then l.(emulator := Exited) else l
  }

  /** The shutdown of a device: a running emulator is asked to go, given time, killed, and given time again. */
  function ShutDown(l: Lane, a: Answer): Lane {
    if l.platform.Ios? || l.emulator != Running then l.(place := Deleting)
    else if l.place == ShuttingDown then l.(place := AwaitingExit, remainingMs := EMULATOR_EXIT_TIMEOUT_MS)
    else if l.remainingMs > 0 then l.(remainingMs := l.remainingMs - BOOT_POLL_INTERVAL_MS - a.elapsedMs)
    else if l.place == AwaitingExit then l.(place := AwaitingKilled, processKilled := true, remainingMs := EMULATOR_EXIT_TIMEOUT_MS)
    else l.(place := Deleting)
  }

  function Advance(before: Lane, a: Answer): Moved {
    var l := Noticing(before, a);
    match l.place
    case Probing => if a.ok then (l.(place := Creating), []) else Fail(l, false)
    case Creating =>
      if !a.ok then Fail(l, a.programMissing)
      else if l.platform.Android? then (l.(place := StartingAdb, hasDevice := true), [Made(Android, l.attempt)])
      else if a.found then (l.(place := Booting, hasDevice := true), [Made(Ios, l.attempt)])
      else Fail(l, false)
    case StartingAdb =>
      if !a.ok then Fail(l, a.programMissing)
      else (l.(place := AwaitingState, emulator := Running, remainingMs := DEVICE_BOOT_TIMEOUT_MS), [])
    case AwaitingState => (Poll(l, a, AwaitingBootFlag), [])
    case AwaitingBootFlag => (Poll(l, a, Ready), [])
    case Reporting => Fail(l, l.emulator == Exited && a.programMissing)
    case Booting => if a.ok then (l.(place := AwaitingBoot, booted := true), []) else Fail(l, a.programMissing)
    case AwaitingBoot => if a.ok then (l.(place := Ready), []) else Fail(l, a.programMissing)
    case ShuttingDown => (ShutDown(l, a), [])
    case AwaitingExit => (ShutDown(l, a), [])
    case AwaitingKilled => (ShutDown(l, a), [])
    case Deleting =>
      var removed := l.(hasDevice := false);
      if l.final then (removed.(place := Gone), [Removed(l.platform, l.attempt)])
      else var (next, events) := NextAttempt(removed); (next, [Removed(l.platform, l.attempt)] + events)
    case _ => (before, [])
  }

  // ---------------------------------------------------------------- both lanes and the work

  datatype Stage = BringingUp | Working | CleaningUp(outcome: Outcome) | Done(outcome: Outcome)

  datatype World = World(android: Lane, ios: Lane, stage: Stage, trace: seq<Event>)

  const START := World(StartOf(Android), StartOf(Ios), BringingUp, [AttemptBegun(Android, 1), AttemptBegun(Ios, 1)])

  /** Either the host answers one of the lanes, or `withDevices` itself goes on; `workThrows` matters while it works. */
  datatype Action = Host(platform: Platform, answer: Answer) | Resume(workThrows: bool)

  /** A missing tool first, then Android's failure, then the simulator's. */
  function ReportedFailure(android: Lane, ios: Lane): Outcome {
    if android.place == Failed && android.toolMissing then ToolMissing(Android)
    else if ios.place == Failed && ios.toolMissing then ToolMissing(Ios)
    else if android.place == Failed then BootFailed(Android, android.attempt)
    else BootFailed(Ios, ios.attempt)
  }

  /** The finally clause: a lane that is ready is torn down, one that failed has been already. */
  function LastTeardown(l: Lane): Lane {
    if l.place == Ready then l.(place := ShuttingDown, final := true) else l.(place := Gone)
  }

  function CleanUp(w: World, outcome: Outcome, events: seq<Event>): World {
    World(LastTeardown(w.android), LastTeardown(w.ios), CleaningUp(outcome), w.trace + events)
  }

  function LaneOf(w: World, p: Platform): Lane {
    if p.Android? then w.android else w.ios
  }

  predicate Enabled(w: World, action: Action) {
    match action
    case Host(p, _) => !Rests(LaneOf(w, p))
    case Resume(_) =>
      match w.stage
      case BringingUp => Rests(w.android) && Rests(w.ios)
      case Working => true
      case CleaningUp(_) => w.android.place == Gone && w.ios.place == Gone
      case Done(_) => false
  }

  function Step(w: World, action: Action): World {
    if !Enabled(w, action) then w
    else
      match action
      case Host(Android, a) => var (l, events) := Advance(w.android, a); w.(android := l, trace := w.trace + events)
      case Host(Ios, a) => var (l, events) := Advance(w.ios, a); w.(ios := l, trace := w.trace + events)
      case Resume(workThrows) =>
        match w.stage
        case BringingUp =>
          if w.android.place == Failed || w.ios.place == Failed then CleanUp(w, ReportedFailure(w.android, w.ios), [])
          else w.(stage := Working, trace := w.trace + [WorkBegun])
        case Working => CleanUp(w, if workThrows then Threw else Result, [WorkEnded(workThrows)])
        case CleaningUp(outcome) => w.(stage := Done(outcome), trace := w.trace + [Settled(outcome)])
        case Done(_) => w
  }

  function Run(w: World, actions: seq<Action>): World
    decreases |actions|
  {
    if actions == [] then w else Run(Step(w, actions[0]), actions[1..])
  }

  // ---------------------------------------------------------------- the rules of the house

  /**
   * The specification: an account of one platform, kept from the events alone. It breaks on an attempt begun while a
   * device is held, out of turn, past the limit or after a missing tool; on a second device, or one made
   * twice; on removing what is not held; on work begun twice or without the device; and on settling while the device is held.
   */
  datatype Account =
    | Broken
    | Account(attempts: nat, held: Option<nat>, made: set<nat>, removed: set<nat>, missed: bool, workBegun: bool, settled: bool)

  const NO_ACCOUNT := Account(0, None, {}, {}, false, false, false)

  function Enter(acc: Account, p: Platform, e: Event): Account {
    match acc
    case Broken => Broken
    case Account(attempts, held, made, removed, missed, workBegun, settled) =>
      if settled then Broken
      else
        match e
        case AttemptBegun(q, n) =>
          if q != p then acc
          else if held.None? && n == attempts + 1 <= MAX_BOOT_ATTEMPTS && !missed && !workBegun then acc.(attempts := n)
          else Broken
        case Made(q, n) =>
          if q != p then acc
          else if held.None? && n == attempts && n > 0 && n !in made then acc.(held := Some(n), made := made + {n})
          else Broken
        case ToolMissed(q) => if q != p then acc else acc.(missed := true)
        case Removed(q, n) =>
          if q != p then acc else if held == Some(n) && n !in removed then acc.(held := None, removed := removed + {n}) else Broken
        case WorkBegun => if held.Some? && !workBegun then acc.(workBegun := true) else Broken
        case WorkEnded(_) => if workBegun then acc else Broken
        case Settled(_) => if held.None? then acc.(settled := true) else Broken
  }

  function AccountOf(trace: seq<Event>, p: Platform): Account {
    if trace == [] then NO_ACCOUNT else Enter(AccountOf(trace[..|trace| - 1], p), p, Last(trace))
  }

  lemma {:induction false} AccountOfMore(trace: seq<Event>, e: Event, p: Platform)
    ensures AccountOf(trace + [e], p) == Enter(AccountOf(trace, p), p, e)
  {
    assert (trace + [e])[..|trace|] == trace;
  }

  function EnterAll(acc: Account, p: Platform, events: seq<Event>): Account
    decreases |events|
  {
    if events == [] then acc else EnterAll(Enter(acc, p, events[0]), p, events[1..])
  }

  lemma {:induction false} AccountOfAll(trace: seq<Event>, events: seq<Event>, p: Platform)
    ensures AccountOf(trace + events, p) == EnterAll(AccountOf(trace, p), p, events)
    decreases |events|
  {
    if events == [] {
      assert trace + events == trace;
    } else {
      AccountOfMore(trace, events[0], p);
      AccountOfAll(trace + [events[0]], events[1..], p);
      assert trace + events == trace + [events[0]] + events[1..];
    }
  }

  // ---------------------------------------------------------------- every run keeps them

  predicate BeforeTheDevice(place: Place) {
    place in {Probing, Creating, Failed, Gone}
  }

  predicate LaneHolds(l: Lane, acc: Account, stage: Stage) {
    && acc.Account?
    && acc.attempts == l.attempt && 1 <= l.attempt <= MAX_BOOT_ATTEMPTS
    && l.hasDevice == !BeforeTheDevice(l.place)
    && acc.held == (if l.hasDevice then Some(l.attempt) else None)
    && acc.made == acc.removed + (if l.hasDevice then {l.attempt} else {})
    && (forall n :: n in acc.made ==> 1 <= n <= l.attempt)
    && (l.place in {Probing, Creating} ==> l.attempt !in acc.made)
    && (l.hasDevice ==> l.attempt !in acc.removed)
    && acc.missed == l.toolMissing
    && (l.toolMissing ==> l.place in {ShuttingDown, AwaitingExit, AwaitingKilled, Deleting, Failed, Gone})
    && (l.place == Failed ==> l.toolMissing || l.attempt == MAX_BOOT_ATTEMPTS)
    && (l.final ==> l.place in {ShuttingDown, AwaitingExit, AwaitingKilled, Deleting, Gone})
    && (l.place == Gone ==> !stage.BringingUp? && !stage.Working?)
    && (l.final ==> !stage.BringingUp? && !stage.Working?)
    && (l.place == AwaitingKilled ==> l.processKilled)
    && (l.place == Deleting && l.platform.Android? && l.emulator == Running ==> l.processKilled)
    && (l.platform.Ios? ==> l.emulator == NotStarted)
    && (stage.BringingUp? ==> !acc.workBegun)
    && (stage.Working? ==> l.place == Ready && acc.workBegun)
    && (stage.CleaningUp? || stage.Done? ==> l.place == Gone || l.final)
    && (stage.Done? ==> l.place == Gone)
    && (acc.settled <==> stage.Done?)
    && (stage.CleaningUp? || stage.Done? ==> (acc.workBegun <==> stage.outcome in {Result, Threw}))
    && l.remainingMs <= DEVICE_BOOT_TIMEOUT_MS
    && (l.place in {AwaitingExit, AwaitingKilled} ==> l.remainingMs <= EMULATOR_EXIT_TIMEOUT_MS)
    && (l.place in {StartingAdb, AwaitingState, AwaitingBootFlag, Reporting, AwaitingExit, AwaitingKilled, Probing} ==> l.platform.Android?)
    && (l.place in {Booting, AwaitingBoot} ==> l.platform.Ios?)
  }

  predicate Holds(w: World) {
    && w.android.platform == Android && w.ios.platform == Ios
    && LaneHolds(w.android, AccountOf(w.trace, Android), w.stage)
    && LaneHolds(w.ios, AccountOf(w.trace, Ios), w.stage)
  }

  lemma StartHolds()
    ensures Holds(START)
  {
    var t := [AttemptBegun(Android, 1), AttemptBegun(Ios, 1)];
    assert t == [] + t;
    AccountOfAll([], t, Android);
    AccountOfAll([], t, Ios);
    assert t[1..][1..] == [];
    assert EnterAll(NO_ACCOUNT, Android, t) == Enter(Enter(NO_ACCOUNT, Android, t[0]), Android, t[1]);
    assert EnterAll(NO_ACCOUNT, Ios, t) == Enter(Enter(NO_ACCOUNT, Ios, t[0]), Ios, t[1]);
  }

  /** The events of one lane leave the other platform's account alone. */
  lemma {:induction false} OthersAreUntouched(acc: Account, p: Platform, events: seq<Event>)
    requires acc.Account? && !acc.settled
    requires forall i :: 0 <= i < |events| ==> IsAbout(events[i], p)
    ensures forall q: Platform :: q != p ==> EnterAll(acc, q, events) == acc
  {
    if events != [] { OthersAreUntouched(acc, p, events[1..]); }
  }

  predicate IsAbout(e: Event, p: Platform) {
    (e.AttemptBegun? || e.Made? || e.ToolMissed? || e.Removed?) && e.platform == p
  }

  lemma {:induction false} EnterAllOfTwo(acc: Account, p: Platform, a: seq<Event>, b: seq<Event>)
    ensures EnterAll(acc, p, a + b) == EnterAll(EnterAll(acc, p, a), p, b)
    decreases |a|
  {
    if a == [] {
      assert a + b == b;
    } else {
      assert (a + b)[1..] == a[1..] + b;
      EnterAllOfTwo(Enter(acc, p, a[0]), p, a[1..], b);
    }
  }

  lemma EnterOne(acc: Account, p: Platform, e: Event)
    ensures EnterAll(acc, p, [e]) == Enter(acc, p, e)
    ensures EnterAll(acc, p, []) == acc
  {}

  lemma NextAttemptHolds(l: Lane, acc: Account)
    requires acc.Account? && LaneHolds(l.(place := Failed, attempt := MAX_BOOT_ATTEMPTS), acc.(attempts := MAX_BOOT_ATTEMPTS), BringingUp)
    requires acc.attempts == l.attempt && 1 <= l.attempt <= MAX_BOOT_ATTEMPTS
    requires forall n :: n in acc.made ==> 1 <= n <= l.attempt
    ensures var (l', events) := NextAttempt(l);
            && LaneHolds(l', EnterAll(acc, l.platform, events), BringingUp)
            && l'.platform == l.platform
            && forall i :: 0 <= i < |events| ==> IsAbout(events[i], l.platform)
  {
    EnterOne(acc, l.platform, AttemptBegun(l.platform, l.attempt + 1));
  }

  lemma FailHolds(l: Lane, acc: Account, toolMissing: bool)
    requires LaneHolds(l, acc, BringingUp)
    requires l.place in {Probing, Creating, StartingAdb, Reporting, Booting, AwaitingBoot}
    ensures var (l', events) := Fail(l, toolMissing);
            && LaneHolds(l', EnterAll(acc, l.platform, events), BringingUp)
            && l'.platform == l.platform
            && forall i :: 0 <= i < |events| ==> IsAbout(events[i], l.platform)
  {
    var missed := if toolMissing then [ToolMissed(l.platform)] else [];
    var acc' := acc.(missed := toolMissing);
    EnterOne(acc, l.platform, ToolMissed(l.platform));
    assert EnterAll(acc, l.platform, missed) == acc';
    if !l.hasDevice {
      var l' := l.(toolMissing := toolMissing);
      NextAttemptHolds(l', acc');
      EnterAllOfTwo(acc, l.platform, missed, NextAttempt(l').1);
    }
  }

  lemma DeletingHolds(l: Lane, acc: Account, stage: Stage, a: Answer)
    requires LaneHolds(l, acc, stage) && l.place == Deleting
    requires Noticing(l, a) == l
    ensures MoveHolds(l, acc, stage, Advance(l, a))
  {
    var removal := Removed(l.platform, l.attempt);
    EnterOne(acc, l.platform, removal);
    var acc' := Enter(acc, l.platform, removal);
    assert acc.made == acc'.removed;
    if !l.final {
      var removed := l.(hasDevice := false);
      NextAttemptHolds(removed, acc');
      EnterAllOfTwo(acc, l.platform, [removal], NextAttempt(removed).1);
    }
    hide NextAttempt, Fail, Poll, ShutDown, EnterAll;
  }

  /** What a lane's move must keep. */
  predicate MoveHolds(l: Lane, acc: Account, stage: Stage, moved: Moved) {
    && LaneHolds(moved.0, EnterAll(acc, l.platform, moved.1), stage)
    && moved.0.platform == l.platform
    && forall i :: 0 <= i < |moved.1| ==> IsAbout(moved.1[i], l.platform)
  }

  lemma AttemptMoves(l: Lane, acc: Account, a: Answer)
    requires LaneHolds(l, acc, BringingUp) && l.place in {Probing, StartingAdb, Reporting, Booting, AwaitingBoot}
    requires Noticing(l, a) == l
    ensures MoveHolds(l, acc, BringingUp, Advance(l, a))
  {
    match l.place
    case Probing => if !a.ok { FailHolds(l, acc, false); }
    case StartingAdb => if !a.ok { FailHolds(l, acc, a.programMissing); }
    case Reporting => FailHolds(l, acc, l.emulator == Exited && a.programMissing);
    case Booting => if !a.ok { FailHolds(l, acc, a.programMissing); }
    case AwaitingBoot => if !a.ok { FailHolds(l, acc, a.programMissing); }
  }

  lemma CreatingMoves(l: Lane, acc: Account, a: Answer)
    requires LaneHolds(l, acc, BringingUp) && l.place == Creating
    requires Noticing(l, a) == l
    ensures MoveHolds(l, acc, BringingUp, Advance(l, a))
  {
    EnterOne(acc, l.platform, Made(l.platform, l.attempt));
    if !a.ok {
      FailHolds(l, acc, a.programMissing);
    } else if l.platform.Ios? && !a.found {
      FailHolds(l, acc, false);
    } else {
      assert acc.made == acc.removed;
    }
  }

  lemma PollHolds(l: Lane, acc: Account, a: Answer, next: Place)
    requires LaneHolds(l, acc, BringingUp)
    requires (l.place == AwaitingState && next == AwaitingBootFlag) || (l.place == AwaitingBootFlag && next == Ready)
    ensures LaneHolds(Poll(l, a, next), acc, BringingUp) && Poll(l, a, next).platform == l.platform
  {}

  lemma ShutDownHolds(l: Lane, acc: Account, stage: Stage, a: Answer)
    requires LaneHolds(l, acc, stage) && l.place in {ShuttingDown, AwaitingExit, AwaitingKilled}
    ensures LaneHolds(ShutDown(l, a), acc, stage) && ShutDown(l, a).platform == l.platform
  {}

  /** A wait moves the lane and has no event. */
  function Waited(l: Lane, a: Answer): Lane {
    if l.place == AwaitingState then Poll(l, a, AwaitingBootFlag)
    else if l.place == AwaitingBootFlag then Poll(l, a, Ready)
    else ShutDown(l, a)
  }

  lemma WaitingHasNoEvent(l: Lane, a: Answer)
    requires l.place in {AwaitingState, AwaitingBootFlag, ShuttingDown, AwaitingExit, AwaitingKilled} && Noticing(l, a) == l
    ensures Advance(l, a) == (Waited(l, a), [])
  {
    hide Poll, ShutDown;
  }

  lemma WaitingMoves(l: Lane, acc: Account, stage: Stage, a: Answer)
    requires LaneHolds(l, acc, stage) && l.place in {AwaitingState, AwaitingBootFlag, ShuttingDown, AwaitingExit, AwaitingKilled}
    requires Noticing(l, a) == l
    ensures MoveHolds(l, acc, stage, Advance(l, a))
  {
    assert EnterAll(acc, l.platform, []) == acc;
    WaitingHasNoEvent(l, a);
    hide Advance, Poll, ShutDown;
    if l.place == AwaitingState {
      PollHolds(l, acc, a, AwaitingBootFlag);
    } else if l.place == AwaitingBootFlag {
      PollHolds(l, acc, a, Ready);
    } else {
      ShutDownHolds(l, acc, stage, a);
    }
  }

  lemma AdvanceHolds(l: Lane, acc: Account, stage: Stage, a: Answer)
    requires LaneHolds(l, acc, stage) && !Rests(l)
    ensures MoveHolds(l, acc, stage, Advance(l, a))
  {
    var n := Noticing(l, a);
    assert LaneHolds(n, acc, stage);
    assert Noticing(n, a) == n && n.place == l.place && n.platform == l.platform;
    AdvanceNoticed(l, a);
    hide Advance;
    if l.place in {AwaitingState, AwaitingBootFlag, ShuttingDown, AwaitingExit, AwaitingKilled} {
      WaitingMoves(n, acc, stage, a);
    } else if l.place == Deleting {
      DeletingHolds(n, acc, stage, a);
    } else {
      assert stage == BringingUp;
      if l.place == Creating { CreatingMoves(n, acc, a); } else { AttemptMoves(n, acc, a); }
    }
  }

  lemma AdvanceNoticed(l: Lane, a: Answer)
    requires !Rests(l)
    ensures Advance(l, a) == Advance(Noticing(l, a), a)
  {
    hide Fail, NextAttempt;
  }

  lemma HostStepHolds(w: World, p: Platform, a: Answer)
    requires Holds(w) && !Rests(LaneOf(w, p))
    ensures Holds(Step(w, Host(p, a)))
  {
    var l, acc := LaneOf(w, p), AccountOf(w.trace, p);
    var q := if p.Android? then Ios else Android;
    AdvanceHolds(l, acc, w.stage, a);
    var events := Advance(l, a).1;
    AccountOfAll(w.trace, events, p);
    AccountOfAll(w.trace, events, q);
    assert !AccountOf(w.trace, q).settled;
    OthersAreUntouched(AccountOf(w.trace, q), p, events);
    hide Advance, LaneHolds, AccountOf, EnterAll;
  }

  lemma WorkBegins(l: Lane, acc: Account)
    requires LaneHolds(l, acc, BringingUp) && l.place == Ready
    ensures LaneHolds(l, EnterAll(acc, l.platform, [WorkBegun]), Working)
  {
    EnterOne(acc, l.platform, WorkBegun);
  }

  lemma WorkIsOver(l: Lane, acc: Account, threw: bool, outcome: Outcome)
    requires LaneHolds(l, acc, Working) && outcome in {Result, Threw}
    ensures LaneHolds(LastTeardown(l), EnterAll(acc, l.platform, [WorkEnded(threw)]), CleaningUp(outcome))
  {
    EnterOne(acc, l.platform, WorkEnded(threw));
  }

  lemma WorkIsSkipped(l: Lane, acc: Account, outcome: Outcome)
    requires LaneHolds(l, acc, BringingUp) && l.place in {Ready, Failed} && outcome !in {Result, Threw}
    ensures LaneHolds(LastTeardown(l), EnterAll(acc, l.platform, []), CleaningUp(outcome))
  {
    EnterOne(acc, l.platform, WorkBegun);
  }

  lemma AllIsSettled(l: Lane, acc: Account, outcome: Outcome)
    requires LaneHolds(l, acc, CleaningUp(outcome)) && l.place == Gone
    ensures LaneHolds(l, EnterAll(acc, l.platform, [Settled(outcome)]), Done(outcome))
  {
    EnterOne(acc, l.platform, Settled(outcome));
  }

  lemma ResumeHolds(w: World, workThrows: bool)
    requires Holds(w) && Enabled(w, Resume(workThrows))
    ensures Holds(Step(w, Resume(workThrows)))
  {
    var android, ios := AccountOf(w.trace, Android), AccountOf(w.trace, Ios);
    match w.stage
    case BringingUp =>
      if w.android.place == Failed || w.ios.place == Failed {
        var outcome := ReportedFailure(w.android, w.ios);
        WorkIsSkipped(w.android, android, outcome);
        WorkIsSkipped(w.ios, ios, outcome);
        Recorded(w, []);
      } else {
        WorkBegins(w.android, android);
        WorkBegins(w.ios, ios);
        Recorded(w, [WorkBegun]);
      }
    case Working =>
      var outcome := if workThrows then Threw else Result;
      WorkIsOver(w.android, android, workThrows, outcome);
      WorkIsOver(w.ios, ios, workThrows, outcome);
      Recorded(w, [WorkEnded(workThrows)]);
    case CleaningUp(outcome) =>
      AllIsSettled(w.android, android, outcome);
      AllIsSettled(w.ios, ios, outcome);
      Recorded(w, [Settled(outcome)]);
  }

  lemma Recorded(w: World, events: seq<Event>)
    ensures AccountOf(w.trace + events, Android) == EnterAll(AccountOf(w.trace, Android), Android, events)
    ensures AccountOf(w.trace + events, Ios) == EnterAll(AccountOf(w.trace, Ios), Ios, events)
  {
    AccountOfAll(w.trace, events, Android);
    AccountOfAll(w.trace, events, Ios);
  }

  lemma StepHolds(w: World, action: Action)
    requires Holds(w)
    ensures Holds(Step(w, action))
  {
    if Enabled(w, action) {
      match action
      case Host(p, a) => HostStepHolds(w, p, a);
      case Resume(workThrows) => ResumeHolds(w, workThrows);
    }
  }

  /** The rules are kept on every interleaving of the lanes and under every sequence of answers. */
  lemma {:induction false} EveryRunHolds(w: World, actions: seq<Action>)
    requires Holds(w)
    ensures Holds(Run(w, actions))
    decreases |actions|
  {
    if actions != [] {
      StepHolds(w, actions[0]);
      EveryRunHolds(Step(w, actions[0]), actions[1..]);
    }
  }

  // ---------------------------------------------------------------- what an unbroken account says

  function Times(trace: seq<Event>, e: Event): nat {
    multiset(trace)[e]
  }

  function Once(b: bool): nat {
    if b then 1 else 0
  }

  lemma TimesSnoc(trace: seq<Event>, e: Event, x: Event)
    ensures Times(trace + [e], x) == Times(trace, x) + Once(x == e)
  {}

  /** An entry that does not break the account adds to it what the event says, and nothing else. */
  lemma EnterCounts(acc: Account, p: Platform, e: Event, n: nat)
    requires Enter(acc, p, e).Account?
    ensures acc.Account?
    ensures var after := Enter(acc, p, e);
            && Once(n in after.made) == Once(n in acc.made) + Once(Made(p, n) == e)
            && Once(n in after.removed) == Once(n in acc.removed) + Once(Removed(p, n) == e)
            && Once(1 <= n <= after.attempts) == Once(1 <= n <= acc.attempts) + Once(AttemptBegun(p, n) == e)
            && Once(after.workBegun) == Once(acc.workBegun) + Once(WorkBegun == e)
  {
    match e
    case AttemptBegun(q, m) =>
    case Made(q, m) =>
    case Removed(q, m) =>
    case _ =>
  }

  /** The account agrees with the trace, event by event. */
  lemma {:induction false} AccountCounts(trace: seq<Event>, p: Platform, n: nat)
    requires AccountOf(trace, p).Account?
    ensures var acc := AccountOf(trace, p);
            && Times(trace, Made(p, n)) == Once(n in acc.made)
            && Times(trace, Removed(p, n)) == Once(n in acc.removed)
            && Times(trace, AttemptBegun(p, n)) == Once(1 <= n <= acc.attempts)
            && Times(trace, WorkBegun) == Once(acc.workBegun)
  {
    if trace != [] {
      var front, e := trace[..|trace| - 1], Last(trace);
      assert trace == front + [e];
      EnterCounts(AccountOf(front, p), p, e, n);
      AccountCounts(front, p, n);
      TimesSnoc(front, e, Made(p, n));
      TimesSnoc(front, e, Removed(p, n));
      TimesSnoc(front, e, AttemptBegun(p, n));
      TimesSnoc(front, e, WorkBegun);
      hide Times, Enter, Once;
    }
  }

  /**
   * On every interleaving and under every answer: whatever was made, that is every AVD whose creation succeeded and every
   * simulator whose creation gave a UDID, has been ordered to be deleted exactly once by the time `withDevices` settles,
   * also when the work throws; a device is made once in an attempt that was begun, no attempt is begun twice or past the
   * third, and the work begins at most once.
   */
  lemma EveryDeviceIsRemovedOnce(actions: seq<Action>, p: Platform, n: nat)
    ensures
      var w := Run(START, actions);
      && Times(w.trace, Removed(p, n)) <= Times(w.trace, Made(p, n)) <= Times(w.trace, AttemptBegun(p, n))
      && Times(w.trace, AttemptBegun(p, n)) <= Once(1 <= n <= MAX_BOOT_ATTEMPTS)
      && (w.stage.Done? ==> Times(w.trace, Removed(p, n)) == Times(w.trace, Made(p, n)))
      && Times(w.trace, WorkBegun) <= 1
  {
    StartHolds();
    EveryRunHolds(START, actions);
    var w := Run(START, actions);
    hide Run, Times, AccountOf;
    assert LaneHolds(LaneOf(w, p), AccountOf(w.trace, p), w.stage);
    AccountCounts(w.trace, p, n);
  }

  /** An AVD is deleted only when its emulator never ran, has exited, or has had its process killed. */
  lemma AvdIsDeletedBehindItsEmulator(actions: seq<Action>)
    ensures var l := Run(START, actions).android;
            l.place == Deleting ==> l.emulator != Running || l.processKilled
  {
    StartHolds();
    EveryRunHolds(START, actions);
  }

  // ---------------------------------------------------------------- what the outcome says

  predicate OutcomeHolds(w: World) {
    w.stage.CleaningUp? || w.stage.Done? ==>
      match w.stage.outcome
      case Result => Times(w.trace, WorkEnded(false)) == 1
      case Threw => Times(w.trace, WorkEnded(true)) == 1
      case ToolMissing(p) => LaneOf(w, p).toolMissing && (p.Ios? ==> !w.android.toolMissing)
      case BootFailed(p, attempts) =>
        !w.android.toolMissing && !w.ios.toolMissing && attempts == LaneOf(w, p).attempt == MAX_BOOT_ATTEMPTS
  }

  predicate WorkNotEnded(w: World) {
    w.stage.BringingUp? || w.stage.Working? ==> Times(w.trace, WorkEnded(false)) == 0 && Times(w.trace, WorkEnded(true)) == 0
  }

  lemma {:induction false} TimesOfEvents(trace: seq<Event>, events: seq<Event>, x: Event)
    requires x !in events
    ensures Times(trace + events, x) == Times(trace, x)
  {
    assert multiset(trace + events) == multiset(trace) + multiset(events);
  }

  lemma FinalLaneKeepsItsRecord(l: Lane, a: Answer)
    requires l.final && l.place in {ShuttingDown, AwaitingExit, AwaitingKilled, Deleting}
    ensures var l' := Advance(l, a).0; l'.toolMissing == l.toolMissing && l'.attempt == l.attempt
  {
    ShutDownKeepsItsRecord(Noticing(l, a), a);
    hide Fail, NextAttempt, Poll, ShutDown;
  }

  lemma ShutDownKeepsItsRecord(l: Lane, a: Answer)
    ensures var l' := ShutDown(l, a); l'.toolMissing == l.toolMissing && l'.attempt == l.attempt && l'.final == l.final
  {}

  lemma HostKeepsOutcome(w: World, p: Platform, a: Answer)
    requires Holds(w) && OutcomeHolds(w) && WorkNotEnded(w) && !Rests(LaneOf(w, p))
    ensures OutcomeHolds(Step(w, Host(p, a))) && WorkNotEnded(Step(w, Host(p, a)))
  {
    var w' := Step(w, Host(p, a));
    forall threw ensures Times(w'.trace, WorkEnded(threw)) == Times(w.trace, WorkEnded(threw)) {
      HostDoesNotEndWork(w, p, a, threw);
    }
    FinalRecordsStay(w, p, a);
    hide Holds, Times, Step, Rests;
  }

  lemma HostDoesNotEndWork(w: World, p: Platform, a: Answer, threw: bool)
    requires Holds(w) && !Rests(LaneOf(w, p))
    ensures Times(Step(w, Host(p, a)).trace, WorkEnded(threw)) == Times(w.trace, WorkEnded(threw))
  {
    var l, acc := LaneOf(w, p), AccountOf(w.trace, p);
    AdvanceHolds(l, acc, w.stage, a);
    hide LaneHolds, AccountOf, Advance;
    TimesOfEvents(w.trace, Advance(l, a).1, WorkEnded(threw));
    hide Times;
  }

  lemma FinalRecordsStay(w: World, p: Platform, a: Answer)
    requires Holds(w) && !Rests(LaneOf(w, p))
    ensures Step(w, Host(p, a)).stage == w.stage
    ensures w.stage.CleaningUp? || w.stage.Done? ==>
              forall q: Platform ::
                && LaneOf(Step(w, Host(p, a)), q).toolMissing == LaneOf(w, q).toolMissing
                && LaneOf(Step(w, Host(p, a)), q).attempt == LaneOf(w, q).attempt
  {
    var l, acc := LaneOf(w, p), AccountOf(w.trace, p);
    hide AccountOf;
    assert LaneHolds(l, acc, w.stage);
    if l.final { FinalLaneKeepsItsRecord(l, a); }
    assert w.stage.CleaningUp? || w.stage.Done? ==> l.final;
    hide LaneHolds, Advance;
  }

  lemma TeardownKeepsRecord(l: Lane)
    ensures LastTeardown(l).toolMissing == l.toolMissing && LastTeardown(l).attempt == l.attempt
  {}

  lemma SkippingKeepsOutcome(w: World)
    requires Holds(w) && w.stage.BringingUp? && Rests(w.android) && Rests(w.ios)
    requires w.android.place == Failed || w.ios.place == Failed
    ensures OutcomeHolds(CleanUp(w, ReportedFailure(w.android, w.ios), []))
  {
    FailureIsReported(w);
    TeardownKeepsRecord(w.android);
    TeardownKeepsRecord(w.ios);
    hide LastTeardown, Holds, ReportedFailure, Times;
  }

  lemma EndingKeepsOutcome(w: World, workThrows: bool)
    requires WorkNotEnded(w) && w.stage.Working?
    ensures OutcomeHolds(CleanUp(w, if workThrows then Threw else Result, [WorkEnded(workThrows)]))
  {
    EndsAfter(w.trace, WorkEnded(workThrows));
    hide LastTeardown, Times;
  }

  lemma SettlingKeepsOutcome(w: World)
    requires OutcomeHolds(w) && w.stage.CleaningUp?
    ensures OutcomeHolds(w.(stage := Done(w.stage.outcome), trace := w.trace + [Settled(w.stage.outcome)]))
  {
    EndsAfter(w.trace, Settled(w.stage.outcome));
    hide Times;
  }

  lemma ResumeKeepsOutcome(w: World, workThrows: bool)
    requires Holds(w) && OutcomeHolds(w) && WorkNotEnded(w) && Enabled(w, Resume(workThrows))
    ensures OutcomeHolds(Step(w, Resume(workThrows))) && WorkNotEnded(Step(w, Resume(workThrows)))
  {
    if w.stage.BringingUp? {
      if w.android.place == Failed || w.ios.place == Failed { SkippingKeepsOutcome(w); }
      EndsAfter(w.trace, WorkBegun);
    } else if w.stage.Working? {
      EndingKeepsOutcome(w, workThrows);
    } else {
      SettlingKeepsOutcome(w);
    }
    StagesOf(w, workThrows);
    hide Holds, Times, OutcomeHolds, LastTeardown, ReportedFailure, CleanUp;
  }

  lemma StagesOf(w: World, workThrows: bool)
    requires Enabled(w, Resume(workThrows))
    ensures var w' := Step(w, Resume(workThrows));
            && !w'.stage.BringingUp?
            && (w'.stage.Working? ==> w.stage.BringingUp? && OutcomeHolds(w') && w'.trace == w.trace + [WorkBegun])
  {
    hide Times, LastTeardown, ReportedFailure;
  }

  lemma EndsAfter(trace: seq<Event>, x: Event)
    ensures Times(trace + [x], WorkEnded(true)) == Times(trace, WorkEnded(true)) + Once(WorkEnded(true) == x)
    ensures Times(trace + [x], WorkEnded(false)) == Times(trace, WorkEnded(false)) + Once(WorkEnded(false) == x)
  {
    TimesSnoc(trace, x, WorkEnded(true));
    TimesSnoc(trace, x, WorkEnded(false));
  }

  lemma FailureIsReported(w: World)
    requires Holds(w) && w.stage.BringingUp? && Rests(w.android) && Rests(w.ios)
    requires w.android.place == Failed || w.ios.place == Failed
    ensures
      match ReportedFailure(w.android, w.ios)
      case ToolMissing(p) => LaneOf(w, p).toolMissing && (p.Ios? ==> !w.android.toolMissing)
      case BootFailed(p, attempts) =>
        !w.android.toolMissing && !w.ios.toolMissing && attempts == LaneOf(w, p).attempt == MAX_BOOT_ATTEMPTS
      case _ => false
  {
    hide AccountOf;
    assert LaneHolds(w.android, AccountOf(w.trace, Android), w.stage) && LaneHolds(w.ios, AccountOf(w.trace, Ios), w.stage);
  }

  lemma StepKeepsOutcome(w: World, action: Action)
    requires Holds(w) && OutcomeHolds(w) && WorkNotEnded(w)
    ensures OutcomeHolds(Step(w, action)) && WorkNotEnded(Step(w, action))
  {
    if Enabled(w, action) {
      match action
      case Host(p, a) => HostKeepsOutcome(w, p, a);
      case Resume(workThrows) => ResumeKeepsOutcome(w, workThrows);
    }
  }

  lemma {:induction false} EveryRunKeepsOutcome(w: World, actions: seq<Action>)
    requires Holds(w) && OutcomeHolds(w) && WorkNotEnded(w)
    ensures Holds(Run(w, actions)) && OutcomeHolds(Run(w, actions))
    decreases |actions|
  {
    if actions != [] {
      StepHolds(w, actions[0]);
      StepKeepsOutcome(w, actions[0]);
      EveryRunKeepsOutcome(Step(w, actions[0]), actions[1..]);
    }
  }

  /**
   * What `withDevices` settles with: the work's own ending when it ran; a missing tool, Android's before the simulator's;
   * and a boot failure only when no tool was missing and that device had all its attempts.
   */
  lemma OutcomeIsReported(actions: seq<Action>)
    requires Run(START, actions).stage.Done?
    ensures
      var w := Run(START, actions);
      && OutcomeHolds(w)
      && (w.stage.outcome in {Result, Threw} <==> Times(w.trace, WorkBegun) == 1)
  {
    StartHolds();
    var w := Run(START, actions);
    EveryRunKeepsOutcome(START, actions);
    AccountCounts(w.trace, Android, 0);
    assert LaneHolds(w.android, AccountOf(w.trace, Android), w.stage);
  }

  // ---------------------------------------------------------------- every run settles

  function Left(remainingMs: int): nat {
    if remainingMs <= 0 then 0 else remainingMs
  }

  function Distance(l: Lane): nat {
    DistanceFrom(l.place, l.remainingMs)
  }

  /** A measure of how far a place is from the end of its attempt: a poll uses up time, anything else moves on. */
  function DistanceFrom(place: Place, remainingMs: int): nat {
    match place
    case Probing => 700_002
    case Creating => 700_001
    case StartingAdb => 700_000
    case AwaitingState => 360_400 + Left(remainingMs)
    case AwaitingBootFlag => 60_300 + Left(remainingMs)
    case Booting => 60_300
    case AwaitingBoot => 60_200
    case Reporting => 60_200
    case ShuttingDown => 60_100
    case AwaitingExit => 30_020 + Left(remainingMs)
    case AwaitingKilled => 10 + Left(remainingMs)
    case Deleting => 1
    case _ => 0
  }

  function LaneRank(l: Lane): nat {
    if Rests(l) then 0
    else (if l.final || l.attempt > MAX_BOOT_ATTEMPTS then 0 else (MAX_BOOT_ATTEMPTS - l.attempt) * 1_000_000) + Distance(l)
  }

  function Rank(w: World): nat {
    LaneRank(w.android) + LaneRank(w.ios)
    + match w.stage case BringingUp => 200_002 case Working => 200_001 case CleaningUp(_) => 1 case Done(_) => 0
  }

  lemma NextAttemptShrinks(l: Lane)
    requires 1 <= l.attempt <= MAX_BOOT_ATTEMPTS && !l.final && Distance(l) > 0
    ensures LaneRank(NextAttempt(l).0) < LaneRank(l)
  {}

  lemma FailShrinks(l: Lane, toolMissing: bool)
    requires 1 <= l.attempt <= MAX_BOOT_ATTEMPTS && !l.final
    requires l.place in {Probing, Creating, StartingAdb, Reporting, Booting, AwaitingBoot}
    ensures LaneRank(Fail(l, toolMissing).0) < LaneRank(l)
  {
    NextAttemptShrinks(l.(toolMissing := toolMissing));
  }

  /** A wait that only moves on keeps attempt and teardown, so its distance decides. */
  lemma NearerIsSmaller(l: Lane, l': Lane)
    requires !Rests(l) && l'.attempt == l.attempt && l'.final == l.final && Distance(l') < Distance(l)
    ensures LaneRank(l') < LaneRank(l)
  {
    hide Distance;
  }

  lemma PollShrinks(l: Lane, a: Answer, next: Place)
    requires l.remainingMs <= DEVICE_BOOT_TIMEOUT_MS
    requires (l.place == AwaitingState && next == AwaitingBootFlag) || (l.place == AwaitingBootFlag && next == Ready)
    ensures LaneRank(Poll(l, a, next)) < LaneRank(l)
  {
    PollIsNearer(l, a, next);
    hide LaneRank, Distance, DistanceFrom, Poll;
    NearerIsSmaller(l, Poll(l, a, next));
  }

  lemma PollIsNearer(l: Lane, a: Answer, next: Place)
    requires l.remainingMs <= DEVICE_BOOT_TIMEOUT_MS
    requires (l.place == AwaitingState && next == AwaitingBootFlag) || (l.place == AwaitingBootFlag && next == Ready)
    ensures var l' := Poll(l, a, next); Distance(l') < Distance(l) && l'.attempt == l.attempt && l'.final == l.final
  {
    var l' := Poll(l, a, next);
    assert l'.place != l.place ==> l'.place in {Reporting, next};
    assert Distance(l.(place := Reporting)) == 60_200;
    if l'.place == l.place { assert Left(l'.remainingMs) < Left(l.remainingMs); }
  }

  lemma WaitShrinks(l: Lane, a: Answer)
    requires l.place in {AwaitingState, AwaitingBootFlag, ShuttingDown, AwaitingExit, AwaitingKilled} && Noticing(l, a) == l
    requires l.remainingMs <= DEVICE_BOOT_TIMEOUT_MS
    requires l.place in {AwaitingExit, AwaitingKilled} ==> l.remainingMs <= EMULATOR_EXIT_TIMEOUT_MS
    ensures LaneRank(Advance(l, a).0) < LaneRank(l)
  {
    WaitingHasNoEvent(l, a);
    hide Advance;
    if l.place == AwaitingState {
      PollShrinks(l, a, AwaitingBootFlag);
    } else if l.place == AwaitingBootFlag {
      PollShrinks(l, a, Ready);
    } else {
      ShutDownShrinks(l, a);
    }
    hide LaneRank, Poll, ShutDown;
  }

  lemma ShutDownShrinks(l: Lane, a: Answer)
    requires l.place in {ShuttingDown, AwaitingExit, AwaitingKilled}
    requires l.place in {AwaitingExit, AwaitingKilled} ==> l.remainingMs <= EMULATOR_EXIT_TIMEOUT_MS
    ensures LaneRank(ShutDown(l, a)) < LaneRank(l)
  {
    ShutDownIsNearer(l, a);
    hide LaneRank, Distance, ShutDown;
    NearerIsSmaller(l, ShutDown(l, a));
  }

  lemma ShutDownDistance(l: Lane)
    ensures l.place == ShuttingDown ==> Distance(l) == 60_100
    ensures l.place == AwaitingExit ==> Distance(l) == 30_020 + Left(l.remainingMs)
    ensures l.place == AwaitingKilled ==> Distance(l) == 10 + Left(l.remainingMs)
    ensures l.place == Deleting ==> Distance(l) == 1
  {}

  lemma ShutDownMoves(l: Lane, a: Answer)
    requires l.place in {ShuttingDown, AwaitingExit, AwaitingKilled}
    ensures
      var l' := ShutDown(l, a);
      l'.place != Deleting ==>
        if l.place == ShuttingDown then l'.place == AwaitingExit && l'.remainingMs == EMULATOR_EXIT_TIMEOUT_MS
        else if l.remainingMs > 0 then l'.place == l.place && l'.remainingMs < l.remainingMs
        else l.place == AwaitingExit && l'.place == AwaitingKilled && l'.remainingMs == EMULATOR_EXIT_TIMEOUT_MS
  {}

  lemma ShutDownIsNearer(l: Lane, a: Answer)
    requires l.place in {ShuttingDown, AwaitingExit, AwaitingKilled}
    requires l.place in {AwaitingExit, AwaitingKilled} ==> l.remainingMs <= EMULATOR_EXIT_TIMEOUT_MS
    ensures var l' := ShutDown(l, a); Distance(l') < Distance(l) && l'.attempt == l.attempt && l'.final == l.final
  {
    ShutDownDistance(l);
    ShutDownDistance(ShutDown(l, a));
    ShutDownMoves(l, a);
    ShutDownKeepsItsRecord(l, a);
    hide Distance, DistanceFrom, ShutDown;
  }

  lemma AdvanceShrinks(l: Lane, acc: Account, stage: Stage, a: Answer)
    requires LaneHolds(l, acc, stage) && !Rests(l)
    ensures LaneRank(Advance(l, a).0) < LaneRank(l)
  {
    hide Advance, LaneRank, LaneHolds, Noticing;
    var n := Noticing(l, a);
    AdvanceNoticed(l, a);
    NoticingKeeps(l, a);
    MovingLane(l, acc, stage);
    if l.place in {AwaitingState, AwaitingBootFlag, ShuttingDown, AwaitingExit, AwaitingKilled} {
      WaitShrinks(n, a);
    } else if l.place == Deleting {
      DeletingShrinks(n, a);
    } else {
      AttemptShrinks(n, a);
    }
  }

  lemma NoticingKeeps(l: Lane, a: Answer)
    ensures var n := Noticing(l, a); Noticing(n, a) == n && LaneRank(n) == LaneRank(l) && n == l.(emulator := n.emulator)
  {
    hide DistanceFrom;
  }

  lemma MovingLane(l: Lane, acc: Account, stage: Stage)
    requires LaneHolds(l, acc, stage) && !Rests(l)
    ensures 1 <= l.attempt <= MAX_BOOT_ATTEMPTS && l.remainingMs <= DEVICE_BOOT_TIMEOUT_MS
    ensures l.place in {AwaitingExit, AwaitingKilled} ==> l.remainingMs <= EMULATOR_EXIT_TIMEOUT_MS
    ensures l.place in {Probing, Creating, StartingAdb, Reporting, Booting, AwaitingBoot} ==> !l.final
  {}

  lemma DeletingShrinks(l: Lane, a: Answer)
    requires l.place == Deleting && 1 <= l.attempt <= MAX_BOOT_ATTEMPTS && Noticing(l, a) == l
    ensures LaneRank(Advance(l, a).0) < LaneRank(l)
  {
    if !l.final { NextAttemptShrinks(l.(hasDevice := false)); }
    hide NextAttempt, Fail, Poll, ShutDown;
  }

  lemma AttemptShrinks(l: Lane, a: Answer)
    requires 1 <= l.attempt <= MAX_BOOT_ATTEMPTS && !l.final
    requires l.place in {Probing, Creating, StartingAdb, Reporting, Booting, AwaitingBoot}
    requires Noticing(l, a) == l
    ensures LaneRank(Advance(l, a).0) < LaneRank(l)
  {
    FailShrinks(l, a.programMissing);
    FailShrinks(l, false);
    FailShrinks(l, l.emulator == Exited && a.programMissing);
    hide Fail;
  }

  /** Every step that is taken brings the end nearer. */
  lemma StepShrinks(w: World, action: Action)
    requires Holds(w) && Enabled(w, action)
    ensures Rank(Step(w, action)) < Rank(w)
  {
    match action
    case Host(p, a) =>
      AdvanceShrinks(LaneOf(w, p), AccountOf(w.trace, p), w.stage, a);
      hide LaneRank, LaneHolds, Advance, AccountOf;
    case Resume(workThrows) => ResumeShrinks(w, workThrows);
  }

  lemma ResumeShrinks(w: World, workThrows: bool)
    requires w.stage.Done? || Enabled(w, Resume(workThrows))
    requires w.stage.Working? ==> w.android.place == Ready && w.ios.place == Ready
    ensures !w.stage.Done? ==> Rank(Step(w, Resume(workThrows))) < Rank(w)
  {
    TeardownRank(w.android);
    TeardownRank(w.ios);
    hide LaneRank, LastTeardown, ReportedFailure, Rests;
  }

  lemma TeardownRank(l: Lane)
    ensures Rests(l) ==> LaneRank(LastTeardown(l)) <= 60_100 && LaneRank(l) == 0
    ensures l.place in {Ready, Failed, Gone} <==> Rests(l)
  {}

  predicate EachEnabled(w: World, actions: seq<Action>)
    decreases |actions|
  {
    actions == [] || (Enabled(w, actions[0]) && EachEnabled(Step(w, actions[0]), actions[1..]))
  }

  lemma {:induction false} RunsAreBounded(w: World, actions: seq<Action>)
    requires Holds(w) && EachEnabled(w, actions)
    ensures |actions| + Rank(Run(w, actions)) <= Rank(w)
    decreases |actions|
  {
    if actions != [] {
      StepHolds(w, actions[0]);
      StepShrinks(w, actions[0]);
      RunsAreBounded(Step(w, actions[0]), actions[1..]);
    }
  }

  /** No poll, retry or teardown goes on for ever, and nothing waits for nothing: a run that cannot be continued has settled. */
  lemma EveryRunSettles(actions: seq<Action>)
    requires EachEnabled(START, actions)
    ensures |actions| <= Rank(START)
    ensures (forall action :: !Enabled(Run(START, actions), action)) ==> Run(START, actions).stage.Done?
  {
    StartHolds();
    RunsAreBounded(START, actions);
    EveryRunHolds(START, actions);
    var w := Run(START, actions);
    if !w.stage.Done? {
      assert LaneHolds(w.android, AccountOf(w.trace, Android), w.stage) && LaneHolds(w.ios, AccountOf(w.trace, Ios), w.stage);
      var a := Answer(true, false, true, true, 0);
      assert Enabled(w, Host(Android, a)) || Enabled(w, Host(Ios, a)) || Enabled(w, Resume(false));
    }
  }
}
