/**
 * One platform's boot loop as it is written: attempts, commands, polls and teardowns, one after the other. Run alone, it
 * takes the very steps that the lane takes, so what holds of the lanes on every interleaving holds of the loops.
 */
module DeviceLoops {
  import opened JsStrings
  import opened DeviceLifecycle

  /** A lane and its events after the first `n` answers. */
  function AfterAnswers(platform: Platform, answers: nat -> Answer, n: nat): Moved {
    if n == 0 then (StartOf(platform), [AttemptBegun(platform, 1)])
    else
      var (l, events) := AfterAnswers(platform, answers, n - 1);
      var (l', more) := Advance(l, answers(n - 1));
      (l', events + more)
  }

  datatype Settled = ReadyDevice | NoTool | NoBoot(attempts: nat)

  datatype BringUp = Up | NotUp(toolMissing: bool)

  function Missed(platform: Platform, toolMissing: bool): seq<Event> {
    if toolMissing then [ToolMissed(platform)] else []
  }

  // ---------------------------------------------------------------- what the machine's next step is

  /** The lane waits at the place, in an attempt that nothing has failed yet. */
  predicate IsTrying(l: Lane, place: Place) {
    l.place == place && !l.final && !l.toolMissing && 1 <= l.attempt <= MAX_BOOT_ATTEMPTS
  }

  /** The attempt is over and holds nothing: the next one has begun, or the lane has failed. */
  predicate IsOver(l: Lane, more: seq<Event>, platform: Platform, attempt: nat, toolMissing: bool) {
    && l.platform == platform && !l.final && l.toolMissing == toolMissing && !l.hasDevice
    && if toolMissing || attempt >= MAX_BOOT_ATTEMPTS then l.place == Failed && l.attempt == attempt && more == []
       else l.place == FirstPlace(platform) && l.attempt == attempt + 1 && l.emulator == NotStarted
            && more == [AttemptBegun(platform, attempt + 1)]
  }

  /** The attempt has failed: with a device it has to be torn down, without one it is over. */
  predicate HasFailed(before: Lane, l: Lane, more: seq<Event>, toolMissing: bool) {
    if before.hasDevice then l == before.(place := ShuttingDown, toolMissing := toolMissing) && more == Missed(before.platform, toolMissing)
    else
      && Missed(before.platform, toolMissing) <= more
      && IsOver(l, more[|Missed(before.platform, toolMissing)|..], before.platform, before.attempt, toolMissing)
  }

  lemma FailIsFailed(l: Lane, toolMissing: bool)
    requires IsTrying(l, l.place)
    ensures var (l', more) := Fail(l, toolMissing); HasFailed(l, l', more, toolMissing)
  {
    var missed := Missed(l.platform, toolMissing);
    var (next, events) := NextAttempt(l.(toolMissing := toolMissing));
    assert (missed + events)[|missed|..] == events;
  }

  lemma ProbingStep(l: Lane, a: Answer)
    requires IsTrying(l, Probing) && l.emulator == NotStarted
    ensures var (l', more) := Advance(l, a);
            if a.ok then l' == l.(place := Creating) && more == [] else HasFailed(l, l', more, false)
  {
    FailIsFailed(l, false);
    hide Fail, HasFailed;
  }

  lemma CreatingStep(l: Lane, a: Answer)
    requires IsTrying(l, Creating) && l.emulator == NotStarted
    ensures var (l', more) := Advance(l, a);
            if !a.ok then HasFailed(l, l', more, a.programMissing)
            else if l.platform.Android? then l' == l.(place := StartingAdb, hasDevice := true) && more == [Made(Android, l.attempt)]
            else if a.found then l' == l.(place := Booting, hasDevice := true) && more == [Made(Ios, l.attempt)]
            else HasFailed(l, l', more, false)
  {
    FailIsFailed(l, false);
    FailIsFailed(l, a.programMissing);
    hide Fail, HasFailed;
  }

  lemma CommandStep(l: Lane, a: Answer)
    requires l.place in {StartingAdb, Booting, AwaitingBoot} && IsTrying(l, l.place) && l.emulator == NotStarted
    ensures var (l', more) := Advance(l, a);
            if !a.ok then HasFailed(l, l', more, a.programMissing)
            else
              && more == []
              && l' == match l.place
                       case StartingAdb => l.(place := AwaitingState, emulator := Running, remainingMs := DEVICE_BOOT_TIMEOUT_MS)
                       case Booting => l.(place := AwaitingBoot, booted := true)
                       case _ => l.(place := Ready)
  {
    FailIsFailed(l, a.programMissing);
    hide Fail, HasFailed;
  }

  lemma PollStep(l: Lane, a: Answer, next: Place)
    requires (l.place == AwaitingState && next == AwaitingBootFlag) || (l.place == AwaitingBootFlag && next == Ready)
    ensures Advance(l, a) == (Poll(Noticing(l, a), a, next), [])
  {
    hide Poll;
  }

  lemma ReportingStep(l: Lane, a: Answer)
    requires IsTrying(l, Reporting)
    ensures var (l', more) := Advance(l, a);
            var n := Noticing(l, a);
            HasFailed(n, l', more, n.emulator == Exited && a.programMissing)
  {
    var n := Noticing(l, a);
    FailIsFailed(n, n.emulator == Exited && a.programMissing);
    hide Fail, HasFailed;
  }

  lemma ShutDownStep(l: Lane, a: Answer)
    requires l.place in {ShuttingDown, AwaitingExit, AwaitingKilled}
    ensures Advance(l, a) == (ShutDown(Noticing(l, a), a), [])
  {
    hide ShutDown;
  }

  /** Where a lane that waits for its emulator to exit goes, if that is how the emulator is found. */
  function AfterWaiting(l: Lane, emulator: Emulator, a: Answer): Lane {
    if emulator != Running then l.(place := Deleting, emulator := emulator)
    else if l.remainingMs > 0 then l.(remainingMs := l.remainingMs - BOOT_POLL_INTERVAL_MS - a.elapsedMs)
    else if l.place == AwaitingExit then l.(place := AwaitingKilled, processKilled := true, remainingMs := EMULATOR_EXIT_TIMEOUT_MS)
    else l.(place := Deleting)
  }

  lemma WaitingStep(l: Lane, a: Answer)
    requires l.platform == Android && l.emulator == Running && l.place in {AwaitingExit, AwaitingKilled}
    ensures Advance(l, a) == (AfterWaiting(l, if a.emulatorExited then Exited else Running, a), [])
  {
    ShutDownStep(l, a);
    hide Advance;
  }

  lemma DeletingStep(l: Lane, a: Answer)
    requires l.place == Deleting && !l.final && 1 <= l.attempt <= MAX_BOOT_ATTEMPTS
    ensures var (l', more) := Advance(l, a);
            && |more| > 0 && more[0] == Removed(l.platform, l.attempt)
            && IsOver(l', more[1..], l.platform, l.attempt, l.toolMissing)
  {}

  // ---------------------------------------------------------------- the loops

  /** The loop's own variables; `lane` and `trace` are where the machine is after the same answers. */
  class Session {
    const platform: Platform
    const answers: nat -> Answer
    var asked: nat
    var attempt: nat
    var hasDevice: bool
    var emulator: Emulator
    var remainingMs: int
    var events: seq<Event>
    ghost var lane: Lane
    ghost var trace: seq<Event>

    constructor (platform: Platform, answers: nat -> Answer)
      ensures Begins() && attempt == 1
      ensures this.platform == platform && this.answers == answers
    {
      this.platform, this.answers := platform, answers;
      asked, attempt, hasDevice, emulator, remainingMs := 0, 1, false, NotStarted, 0;
      events := [AttemptBegun(platform, 1)];
      lane, trace := StartOf(platform), [AttemptBegun(platform, 1)];
    }

    /** The machine is where the answers so far have taken it. */
    ghost predicate Follows()
      reads this
    {
      lane == AfterAnswers(platform, answers, asked).0 && trace == AfterAnswers(platform, answers, asked).1
    }

    /** The variables are what the machine knows. */
    ghost predicate Agrees()
      reads this
    {
      && Follows() && trace == events
      && lane.platform == platform && lane.attempt == attempt && lane.hasDevice == hasDevice && lane.emulator == emulator
    }

    /** An attempt is about to begin. */
    ghost predicate Begins()
      reads this
    {
      Agrees() && IsTrying(lane, FirstPlace(platform)) && !hasDevice && emulator == NotStarted
    }

    /** The attempt has failed, and the machine has gone on to its teardown or beyond it. */
    ghost predicate Fails(toolMissing: bool)
      reads this
    {
      && Follows() && 1 <= attempt <= MAX_BOOT_ATTEMPTS
      && if hasDevice then
           && lane.place == ShuttingDown && lane.toolMissing == toolMissing && !lane.final
           && lane.platform == platform && lane.attempt == attempt && lane.hasDevice && lane.emulator == emulator
           && trace == events + Missed(platform, toolMissing)
         else
           && events + Missed(platform, toolMissing) <= trace
           && IsOver(lane, trace[|events + Missed(platform, toolMissing)|..], platform, attempt, toolMissing)
    }

    /** The host answers. The emulator's exit may be noticed with it. */
    method Turn() returns (a: Answer)
      requires Follows()
      modifies this`asked, this`emulator, this`lane, this`trace
      ensures Follows() && asked == old(asked) + 1 && a == answers(old(asked))
      ensures emulator == if old(emulator) == Running && a.emulatorExited then Exited else old(emulator)
      ensures lane == Advance(old(lane), a).0 && trace == old(trace) + Advance(old(lane), a).1
    {
      hide Advance;
      a := answers(asked);
      asked := asked + 1;
      if emulator == Running && a.emulatorExited { emulator := Exited; }
      lane, trace := Advance(lane, a).0, trace + Advance(lane, a).1;
    }

    /** Polls until the answer is there, the emulator has exited or the time is up. */
    method WaitFor(next: Place) returns (ready: bool)
      requires Agrees() && IsTrying(lane, lane.place) && lane.remainingMs == remainingMs
      requires (lane.place == AwaitingState && next == AwaitingBootFlag) || (lane.place == AwaitingBootFlag && next == Ready)
      modifies this`asked, this`emulator, this`remainingMs, this`lane, this`trace
      ensures Agrees() && IsTrying(lane, if ready then next else Reporting) && lane.remainingMs == remainingMs
      ensures ready ==> asked > 0 && answers(asked - 1).found && emulator != Exited && remainingMs + answers(asked - 1).elapsedMs > 0
      ensures !ready ==> remainingMs <= 0 || emulator == Exited
    {
      hide AfterAnswers, Advance;
      ghost var before := lane;
      var a := Turn();
      PollStep(before, a, next);
      while remainingMs > 0 && emulator != Exited
        invariant IsTrying(before, old(lane.place)) && before.remainingMs == remainingMs
        invariant before.platform == platform && before.attempt == attempt && before.hasDevice == hasDevice
        invariant Noticing(before, a).emulator == emulator
        invariant lane == Poll(Noticing(before, a), a, next) && trace == events && Follows()
        invariant asked > 0 && a == answers(asked - 1)
        decreases remainingMs
      {
        if a.found {
          remainingMs := remainingMs - a.elapsedMs;
          return true;
        }
        remainingMs := remainingMs - a.elapsedMs - BOOT_POLL_INTERVAL_MS;
        before := lane;
        a := Turn();
        PollStep(before, a, next);
      }
      ready := false;
    }

    /** Gives the emulator time to exit. */
    method AwaitExit() returns (exited: bool)
      requires Agrees() && platform == Android && emulator == Running && !lane.final
      requires lane.place in {AwaitingExit, AwaitingKilled} && lane.remainingMs == EMULATOR_EXIT_TIMEOUT_MS
      modifies this`asked, this`emulator, this`lane, this`trace
      ensures Agrees() && !lane.final && lane.toolMissing == old(lane.toolMissing) && (exited <==> emulator != Running)
      ensures lane.place == if exited || old(lane.place) == AwaitingKilled then Deleting else AwaitingKilled
      ensures lane.place == AwaitingKilled ==> lane.remainingMs == EMULATOR_EXIT_TIMEOUT_MS
    {
      hide AfterAnswers, Advance, ShutDown, Noticing, Follows;
      var left := EMULATOR_EXIT_TIMEOUT_MS;
      ghost var before := lane;
      var a := Turn();
      WaitingStep(before, a);
      while emulator == Running && left > 0
        invariant before == old(lane).(remainingMs := left)
        invariant lane == AfterWaiting(before, emulator, a) && trace == events && Follows()
        decreases left
      {
        left := left - BOOT_POLL_INTERVAL_MS - a.elapsedMs;
        before := lane;
        a := Turn();
        WaitingStep(before, a);
      }
      exited := emulator != Running;
    }

    /** A running emulator is asked to go, given time, killed, and given time again. */
    method ShutDownDevice()
      requires Agrees() && lane.place == ShuttingDown && !lane.final
      requires platform.Ios? ==> emulator == NotStarted
      modifies this`asked, this`emulator, this`lane, this`trace
      ensures Agrees() && lane.place == Deleting && !lane.final && lane.toolMissing == old(lane.toolMissing)
    {
      hide AfterAnswers, Advance;
      ghost var before := lane;
      var a := Turn();
      ShutDownStep(before, a);
      if emulator == Running {
        var exited := AwaitExit();
        if !exited { exited := AwaitExit(); }
      }
    }

    /** Shuts the device down and removes it. */
    method TearDown()
      requires Agrees() && lane.place == ShuttingDown && !lane.final && hasDevice && 1 <= attempt <= MAX_BOOT_ATTEMPTS
      requires platform.Ios? ==> emulator == NotStarted
      modifies this`asked, this`hasDevice, this`emulator, this`events, this`lane, this`trace
      ensures !hasDevice && Follows() && events == old(events) + [Removed(platform, attempt)]
      ensures events <= trace && IsOver(lane, trace[|events|..], platform, attempt, old(lane.toolMissing))
    {
      hide AfterAnswers, Advance, IsOver, ShutDown, Noticing;
      ShutDownDevice();
      ghost var before := lane;
      var a := Turn();
      DeletingStep(before, a);
      hasDevice := false;
      events := events + [Removed(platform, attempt)];
      assert trace[|events|..] == Advance(before, a).1[1..];
    }

    /** What a failed attempt leaves is noted and removed, before the next one begins or the loop ends. */
    method CleanUpAfter(toolMissing: bool)
      requires Fails(toolMissing) && (platform.Ios? ==> emulator == NotStarted)
      modifies this`asked, this`hasDevice, this`emulator, this`events, this`lane, this`trace
      ensures !hasDevice && Follows()
      ensures events <= trace && IsOver(lane, trace[|events|..], platform, attempt, toolMissing)
    {
      hide AfterAnswers, IsOver;
      if toolMissing { events := events + [ToolMissed(platform)]; }
      if hasDevice { TearDown(); }
    }

    /** An attempt that fails at a step of the machine has failed here. */
    lemma FailsHere(before: Lane, more: seq<Event>, toolMissing: bool)
      requires Follows() && 1 <= attempt <= MAX_BOOT_ATTEMPTS && trace == events + more
      requires !before.final && before.platform == platform && before.attempt == attempt && before.hasDevice == hasDevice
      requires before.emulator == emulator
      requires HasFailed(before, lane, more, toolMissing)
      ensures Fails(toolMissing)
    {
      hide AfterAnswers, IsOver;
      var missed := Missed(platform, toolMissing);
      if !hasDevice {
        assert trace[|events + missed|..] == more[|missed|..];
        assert more == missed + more[|missed|..];
        assert trace == events + missed + more[|missed|..];
      }
    }

    /** Takes a console port and creates the AVD. */
    method CreateAvd() returns (result: BringUp)
      requires Begins() && platform == Android
      modifies this`asked, this`hasDevice, this`emulator, this`events, this`lane, this`trace
      ensures result.Up? ==> Agrees() && IsTrying(lane, StartingAdb) && hasDevice && emulator == NotStarted
      ensures result.NotUp? ==> Fails(result.toolMissing)
    {
      hide AfterAnswers, Advance, HasFailed, Fails;
      ghost var before := lane;
      var a := Turn();
      ProbingStep(before, a);
      if !a.ok {
        FailsHere(before, Advance(before, a).1, false);
        return NotUp(false);
      }
      before := lane;
      a := Turn();
      CreatingStep(before, a);
      if !a.ok {
        FailsHere(before, Advance(before, a).1, a.programMissing);
        return NotUp(a.programMissing);
      }
      hasDevice := true;
      events := events + [Made(Android, attempt)];
      result := Up;
    }

    /** Creates the AVD and starts the emulator on it. */
    method StartAndroid() returns (result: BringUp)
      requires Begins() && platform == Android
      modifies this`asked, this`hasDevice, this`emulator, this`remainingMs, this`events, this`lane, this`trace
      ensures result.Up? ==> Agrees() && IsTrying(lane, AwaitingState) && lane.remainingMs == remainingMs && hasDevice
      ensures result.NotUp? ==> Fails(result.toolMissing)
    {
      hide AfterAnswers, Advance, HasFailed, Fails;
      result := CreateAvd();
      if result.NotUp? { return; }
      ghost var before := lane;
      var a := Turn();
      CommandStep(before, a);
      if !a.ok {
        FailsHere(before, Advance(before, a).1, a.programMissing);
        return NotUp(a.programMissing);
      }
      emulator, remainingMs := Running, DEVICE_BOOT_TIMEOUT_MS;
      result := Up;
    }

    /** Starts the emulator, then waits for its state and for its boot flag, until one deadline. */
    method BringUpAndroid() returns (result: BringUp)
      requires Begins() && platform == Android
      modifies this`asked, this`hasDevice, this`emulator, this`remainingMs, this`events, this`lane, this`trace
      ensures result.Up? ==> Agrees() && IsTrying(lane, Ready) && hasDevice
      ensures result.NotUp? ==> Fails(result.toolMissing)
    {
      hide AfterAnswers, Advance, HasFailed, Fails;
      result := StartAndroid();
      if result.NotUp? { return; }
      var ready := WaitFor(AwaitingBootFlag);
      if ready { ready := WaitFor(Ready); }
      if ready { return Up; }
      ghost var before := lane;
      var a := Turn();
      ReportingStep(before, a);
      FailsHere(Noticing(before, a), Advance(before, a).1, emulator == Exited && a.programMissing);
      result := NotUp(emulator == Exited && a.programMissing);
    }

    /** Creates the simulator, boots it and waits for the boot. */
    method BringUpIos() returns (result: BringUp)
      requires Begins() && platform == Ios
      modifies this`asked, this`hasDevice, this`emulator, this`events, this`lane, this`trace
      ensures emulator == NotStarted
      ensures result.Up? ==> Agrees() && IsTrying(lane, Ready) && hasDevice
      ensures result.NotUp? ==> Fails(result.toolMissing)
    {
      hide AfterAnswers, Advance, HasFailed, Fails;
      ghost var before := lane;
      var a := Turn();
      CreatingStep(before, a);
      if !a.ok {
        FailsHere(before, Advance(before, a).1, a.programMissing);
        return NotUp(a.programMissing);
      }
      if !a.found {
        FailsHere(before, Advance(before, a).1, false);
        return NotUp(false);
      }
      hasDevice := true;
      events := events + [Made(Ios, attempt)];
      before := lane;
      a := Turn();
      CommandStep(before, a);
      if !a.ok {
        FailsHere(before, Advance(before, a).1, a.programMissing);
        return NotUp(a.programMissing);
      }
      before := lane;
      a := Turn();
      CommandStep(before, a);
      if !a.ok {
        FailsHere(before, Advance(before, a).1, a.programMissing);
        return NotUp(a.programMissing);
      }
      result := Up;
    }

    /**
     * The attempts of one platform: at most three, none after a missing tool, and each torn down before the next one begins.
     * When the loop has settled, so has the lane: on the same outcome, with the same device and the same events.
     */
    method BringUpInAttempts() returns (settled: Settled)
      requires Begins() && attempt == 1
      modifies this
      ensures Follows() && trace == events && Rests(lane) && hasDevice == lane.hasDevice
      ensures settled == if lane.place == Ready then ReadyDevice else if lane.toolMissing then NoTool else NoBoot(lane.attempt)
      ensures settled.NoBoot? ==> settled.attempts == MAX_BOOT_ATTEMPTS
    {
      hide AfterAnswers, Fails;
      while true
        invariant Begins()
        decreases MAX_BOOT_ATTEMPTS - attempt
      {
        var result;
        if platform.Android? { result := BringUpAndroid(); } else { result := BringUpIos(); }
        if result.Up? { return ReadyDevice; }
        CleanUpAfter(result.toolMissing);
        if result.toolMissing { return NoTool; }
        if attempt >= MAX_BOOT_ATTEMPTS { return NoBoot(attempt); }
        attempt, emulator := attempt + 1, NotStarted;
        events := events + [AttemptBegun(platform, attempt)];
      }
    }
  }
}
