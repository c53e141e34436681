/**
 * Run, and resolve what failed, until a run passes, the retries are used up or the context was reset too often. What each
 * round answers comes from outside; token usage is merged by a function that is not looked into.
 */
module RetryOrchestrator {
  import opened JsStrings

  datatype Agent<U> = Agent(success: bool, cost: Option<real>, usage: Option<U>, compaction: bool)

  /** What a round would answer: the run, whether it counts as passed, its failures, and their resolution. */
  datatype Round<U, F> = Round(run: Agent<U>, isPassed: bool, failures: seq<F>, resolution: Agent<U>)

  /** Compaction is looked at only with a handler for it. */
  datatype Config = Config(maxRetries: int, handlesCompaction: bool, maxContextResets: int)

  datatype Result<U, F> = Result(passed: bool, cost: real, totalRetries: nat, failures: seq<F>, usage: U, contextResets: nat)

  datatype Ending<U, F> = Returned(result: Result<U, F>) | TooManyResets

  // ---------------------------------------------------------------- the specification: what a round does, and sums over rounds

  datatype Kind = RunCompacted | RunFailed | Passed | ResolverCompacted | Resolved

  function KindOf<U, F>(c: Config, r: Round<U, F>): Kind {
    if c.handlesCompaction && r.run.compaction then RunCompacted
    else if !r.run.success then RunFailed
    else if r.isPassed then Passed
    else if c.handlesCompaction && r.resolution.compaction then ResolverCompacted
    else Resolved
  }

  predicate IsReset(k: Kind) {
    k.RunCompacted? || k.ResolverCompacted?
  }

  predicate IsRetry(k: Kind) {
    k.RunFailed? || k.Resolved?
  }

  predicate Extracts(k: Kind) {
    k.ResolverCompacted? || k.Resolved?
  }

  function Resets<U, F>(c: Config, rounds: nat -> Round<U, F>, n: nat): nat {
    if n == 0 then 0 else Resets(c, rounds, n - 1) + if IsReset(KindOf(c, rounds(n - 1))) then 1 else 0
  }

  function Retries<U, F>(c: Config, rounds: nat -> Round<U, F>, n: nat): nat {
    if n == 0 then 0 else Retries(c, rounds, n - 1) + if IsRetry(KindOf(c, rounds(n - 1))) then 1 else 0
  }

  /** Every agent of the first `n` rounds: each run, and each resolution that took place. */
  function Agents<U, F>(c: Config, rounds: nat -> Round<U, F>, n: nat): seq<Agent<U>> {
    if n == 0 then []
    else
      var r := rounds(n - 1);
      Agents(c, rounds, n - 1) + [r.run] + if Extracts(KindOf(c, r)) then [r.resolution] else []
  }

  function TotalCost<U>(agents: seq<Agent<U>>): real {
    if agents == [] then 0.0
    else TotalCost(agents[..|agents| - 1]) + if Last(agents).cost.Some? then Last(agents).cost.value else 0.0
  }

  function TotalUsage<U>(agents: seq<Agent<U>>, empty: U, merge: (U, U) -> U): U {
    if agents == [] then empty
    else
      var before := TotalUsage(agents[..|agents| - 1], empty, merge);
      if Last(agents).usage.Some? then merge(before, Last(agents).usage.value) else before
  }

  /** The failures of the last round that got as far as extracting any. */
  function LastFailures<U, F>(c: Config, rounds: nat -> Round<U, F>, n: nat): seq<F> {
    if n == 0 then []
    else if Extracts(KindOf(c, rounds(n - 1))) then rounds(n - 1).failures
    else LastFailures(c, rounds, n - 1)
  }

  /** After `n` rounds there is no further one. */
  predicate IsOver<U, F>(c: Config, rounds: nat -> Round<U, F>, n: nat) {
    || (n > 0 && KindOf(c, rounds(n - 1)) == Passed)
    || Retries(c, rounds, n) >= c.maxRetries
    || (n > 0 && Resets(c, rounds, n) > c.maxContextResets && IsReset(KindOf(c, rounds(n - 1))))
  }

  ghost predicate StillGoing<U, F>(c: Config, rounds: nat -> Round<U, F>, n: nat) {
    forall m: nat :: m < n ==> !IsOver(c, rounds, m)
  }

  // ---------------------------------------------------------------- the loop

  /** The money and tokens spent so far, and by whom. */
  class CostState<U(!new)> {
    var costUsd: real
    var modelUsage: U
    const empty: U
    const merge: (U, U) -> U
    ghost var spent: seq<Agent<U>>

    ghost predicate Valid()
      reads this
    {
      costUsd == TotalCost(spent) && modelUsage == TotalUsage(spent, empty, merge)
    }

    constructor (empty: U, merge: (U, U) -> U)
      ensures Valid() && spent == [] && this.empty == empty && this.merge == merge
    {
      costUsd, modelUsage, spent := 0.0, empty, [];
      this.empty, this.merge := empty, merge;
    }

    method TrackCost(result: Agent<U>)
      requires Valid()
      modifies this
      ensures Valid() && spent == old(spent) + [result]
    {
      if result.cost.Some? { costUsd := costUsd + result.cost.value; }
      if result.usage.Some? { modelUsage := merge(modelUsage, result.usage.value); }
      spent := spent + [result];
      assert spent[..|spent| - 1] == old(spent);
    }
  }

  function MaxOf(a: int, b: int): int {
    if a >= b then a else b
  }

  lemma NoRounds<U, F>(c: Config, rounds: nat -> Round<U, F>)
    ensures Retries(c, rounds, 0) == Resets(c, rounds, 0) == 0 && Agents(c, rounds, 0) == [] && LastFailures(c, rounds, 0) == []
    ensures StillGoing(c, rounds, 0) && (IsOver(c, rounds, 0) <==> c.maxRetries <= 0)
  {}

  lemma OneMoreRound<U, F>(c: Config, rounds: nat -> Round<U, F>, n: nat)
    ensures
      var r := rounds(n);
      var kind := KindOf(c, r);
      && Retries(c, rounds, n + 1) == Retries(c, rounds, n) + (if IsRetry(kind) then 1 else 0)
      && Resets(c, rounds, n + 1) == Resets(c, rounds, n) + (if IsReset(kind) then 1 else 0)
      && LastFailures(c, rounds, n + 1) == (if Extracts(kind) then r.failures else LastFailures(c, rounds, n))
      && Agents(c, rounds, n + 1) == Agents(c, rounds, n) + (if Extracts(kind) then [r.run] + [r.resolution] else [r.run])
      && (IsOver(c, rounds, n + 1) <==>
            || kind == Passed || Retries(c, rounds, n + 1) >= c.maxRetries
            || (IsReset(kind) && Resets(c, rounds, n + 1) > c.maxContextResets))
    ensures StillGoing(c, rounds, n) && !IsOver(c, rounds, n) ==> StillGoing(c, rounds, n + 1)
  {
    hide KindOf;
    assert StillGoing(c, rounds, n) && !IsOver(c, rounds, n) ==> StillGoing(c, rounds, n + 1) by { hide IsOver; }
  }

  /**
   * The rounds end at the first moment they are over; the result tells how, how often and at what cost, and an ending with
   * too many resets is one more than allowed.
   */
  method RetryWithResolution<U(!new), F>(c: Config, rounds: nat -> Round<U, F>, empty: U, merge: (U, U) -> U)
      returns (end: Ending<U, F>, runs: nat)
    ensures StillGoing(c, rounds, runs) && IsOver(c, rounds, runs)
    ensures end.TooManyResets? <==> runs > 0 && Resets(c, rounds, runs) > c.maxContextResets && IsReset(KindOf(c, rounds(runs - 1)))
    ensures end.Returned? ==>
              var r := end.result;
              && r.totalRetries == Retries(c, rounds, runs) && r.contextResets == Resets(c, rounds, runs)
              && r.cost == TotalCost(Agents(c, rounds, runs)) && r.usage == TotalUsage(Agents(c, rounds, runs), empty, merge)
              && (r.passed <==> runs > 0 && KindOf(c, rounds(runs - 1)) == Passed)
              && r.failures == if r.passed then [] else LastFailures(c, rounds, runs)
  {
    NoRounds(c, rounds);
    hide Retries, Resets, LastFailures, Agents, IsOver, StillGoing, TotalCost, TotalUsage;
    var retryCount, contextResetCount := 0, 0;
    var lastFailures: seq<F> := [];
    var costState := new CostState(empty, merge);
    runs := 0;
    while retryCount < c.maxRetries
      invariant retryCount == Retries(c, rounds, runs) && contextResetCount == Resets(c, rounds, runs)
      invariant runs > 0 && IsReset(KindOf(c, rounds(runs - 1))) ==> contextResetCount <= c.maxContextResets
      invariant runs > 0 ==> KindOf(c, rounds(runs - 1)) != Passed
      invariant lastFailures == LastFailures(c, rounds, runs)
      invariant fresh(costState) && costState.Valid() && costState.empty == empty && costState.merge == merge
      invariant costState.spent == Agents(c, rounds, runs)
      invariant StillGoing(c, rounds, runs) && (IsOver(c, rounds, runs) <==> retryCount >= c.maxRetries)
      decreases c.maxRetries - retryCount, c.maxContextResets - contextResetCount
    {
      var round := rounds(runs);
      OneMoreRound(c, rounds, runs);
      runs := runs + 1;
      costState.TrackCost(round.run);
      if c.handlesCompaction && round.run.compaction {
        contextResetCount := contextResetCount + 1;
        if contextResetCount > c.maxContextResets { return TooManyResets, runs; }
        continue;
      }
      if !round.run.success {
        retryCount := retryCount + 1;
        continue;
      }
      if round.isPassed {
        return Returned(Result(true, costState.costUsd, retryCount, [], costState.modelUsage, contextResetCount)), runs;
      }
      lastFailures := round.failures;
      costState.TrackCost(round.resolution);
      if c.handlesCompaction && round.resolution.compaction {
        contextResetCount := contextResetCount + 1;
        if contextResetCount > c.maxContextResets { return TooManyResets, runs; }
        continue;
      }
      retryCount := retryCount + 1;
    }
    end := Returned(Result(false, costState.costUsd, retryCount, lastFailures, costState.modelUsage, contextResetCount));
  }

  // ---------------------------------------------------------------- accounting

  lemma {:induction false} EveryRoundIsOfAKind<U, F>(c: Config, rounds: nat -> Round<U, F>, n: nat)
    requires forall m: nat :: m < n ==> KindOf(c, rounds(m)) != Passed
    ensures n == Retries(c, rounds, n) + Resets(c, rounds, n)
  {
    if n > 0 { EveryRoundIsOfAKind(c, rounds, n - 1); }
  }

  lemma {:induction false} ResetsAreBelow<U, F>(c: Config, rounds: nat -> Round<U, F>, n: nat)
    requires StillGoing(c, rounds, n)
    ensures forall m: nat :: m + 1 < n ==> KindOf(c, rounds(m)) != Passed
    ensures n > 0 ==> Resets(c, rounds, n - 1) <= MaxOf(c.maxContextResets, 0) && Retries(c, rounds, n - 1) < c.maxRetries
  {
    forall m: nat | m + 1 < n ensures KindOf(c, rounds(m)) != Passed {
      assert !IsOver(c, rounds, m + 1);
    }
    if n > 0 {
      assert !IsOver(c, rounds, n - 1);
      NoResetTooMany(c, rounds, n - 1);
    }
  }

  lemma {:induction false} NoResetTooMany<U, F>(c: Config, rounds: nat -> Round<U, F>, n: nat)
    requires forall m: nat :: m <= n ==> !IsOver(c, rounds, m)
    ensures Resets(c, rounds, n) <= MaxOf(c.maxContextResets, 0)
  {
    if n > 0 {
      NoResetTooMany(c, rounds, n - 1);
      assert !IsOver(c, rounds, n);
    }
  }

  /**
   * Where the rounds end, every one of them was a retry or a reset, and one more where the last one passed; they are never
   * more than the retries and the resets allowed, whichever way they end.
   */
  lemma RunsAreAccountedFor<U, F>(c: Config, rounds: nat -> Round<U, F>, runs: nat)
    requires StillGoing(c, rounds, runs) && IsOver(c, rounds, runs)
    ensures var passed := runs > 0 && KindOf(c, rounds(runs - 1)) == Passed;
            && runs == Retries(c, rounds, runs) + Resets(c, rounds, runs) + (if passed then 1 else 0)
            && (passed ==> Retries(c, rounds, runs) < c.maxRetries)
            && (!passed && Resets(c, rounds, runs) <= MaxOf(c.maxContextResets, 0) ==> Retries(c, rounds, runs) == MaxOf(c.maxRetries, 0))
    ensures Resets(c, rounds, runs) <= MaxOf(c.maxContextResets, 0) + 1
    ensures runs <= MaxOf(c.maxRetries, 0) + MaxOf(c.maxContextResets, 0)
  {
    ResetsAreBelow(c, rounds, runs);
    if runs > 0 { EveryRoundIsOfAKind(c, rounds, runs - 1); }
  }

  /** There is exactly one number of rounds to end at. */
  lemma OneEnd<U, F>(c: Config, rounds: nat -> Round<U, F>, m: nat, n: nat)
    requires StillGoing(c, rounds, m) && IsOver(c, rounds, m)
    requires StillGoing(c, rounds, n) && IsOver(c, rounds, n)
    ensures m == n
  {}

  /** Without a handler no compaction resets anything, so the runs are bounded by the retries alone. */
  lemma {:induction false} CompactionNeedsAHandler<U, F>(c: Config, rounds: nat -> Round<U, F>, n: nat)
    requires !c.handlesCompaction
    ensures Resets(c, rounds, n) == 0
  {
    if n > 0 { CompactionNeedsAHandler(c, rounds, n - 1); }
  }

  // ---------------------------------------------------------------- what counts as what

  /** The run of a round was cut short by a compaction, and there is a handler for it. */
  predicate IsCut<U>(c: Config, agent: Agent<U>) {
    c.handlesCompaction && agent.compaction
  }

  /** The run succeeded but did not pass, so its failures go to the resolver. */
  predicate GoesToResolver<U, F>(c: Config, r: Round<U, F>) {
    !IsCut(c, r.run) && r.run.success && !r.isPassed
  }

  /**
   * A round passes when its run succeeds and counts as passed; it is a reset when a handled compaction cut its run or its
   * resolution, and a retry otherwise. Its resolution is run, and so paid for, exactly when the run had failures to resolve.
   */
  lemma RoundMeans<U, F>(c: Config, r: Round<U, F>)
    ensures KindOf(c, r) == Passed <==> !IsCut(c, r.run) && r.run.success && r.isPassed
    ensures IsReset(KindOf(c, r)) <==> IsCut(c, r.run) || (GoesToResolver(c, r) && IsCut(c, r.resolution))
    ensures IsRetry(KindOf(c, r)) <==>
            (!IsCut(c, r.run) && !r.run.success) || (GoesToResolver(c, r) && !IsCut(c, r.resolution))
    ensures Extracts(KindOf(c, r)) <==> GoesToResolver(c, r)
  {}

  /** Whoever was run is paid for, and nobody else. */
  lemma {:induction false} EveryAgentIsThere<U, F>(c: Config, rounds: nat -> Round<U, F>, n: nat, agent: Agent<U>)
    ensures agent in Agents(c, rounds, n) <==>
            exists m: nat :: m < n && (rounds(m).run == agent || (GoesToResolver(c, rounds(m)) && rounds(m).resolution == agent))
  {
    hide KindOf, GoesToResolver;
    if n > 0 {
      EveryAgentIsThere(c, rounds, n - 1, agent);
      RoundMeans(c, rounds(n - 1));
    }
  }

  lemma {:induction false} CostOfConcat<U>(a: seq<Agent<U>>, b: seq<Agent<U>>)
    ensures TotalCost(a + b) == TotalCost(a) + TotalCost(b)
    decreases |b|
  {
    if b == [] {
      assert a + b == a;
    } else {
      assert (a + b)[..|a + b| - 1] == a + b[..|b| - 1] && Last(a + b) == Last(b);
      CostOfConcat(a, b[..|b| - 1]);
    }
  }

  /** One agent costs what it reports, or nothing; and the cost of many is the sum. */
  lemma CostOfOne<U>(agent: Agent<U>)
    ensures TotalCost([agent]) == if agent.cost.Some? then agent.cost.value else 0.0
  {
    assert [agent][..0] == [];
  }

  /** Usage is merged agent by agent, and starts from nothing. */
  lemma UsageOfOneMore<U>(agents: seq<Agent<U>>, agent: Agent<U>, empty: U, merge: (U, U) -> U)
    ensures TotalUsage([], empty, merge) == empty
    ensures TotalUsage(agents + [agent], empty, merge) ==
            if agent.usage.Some? then merge(TotalUsage(agents, empty, merge), agent.usage.value) else TotalUsage(agents, empty, merge)
  {
    assert (agents + [agent])[..|agents|] == agents;
  }

  /** The rounds end with a pass if and only if some round within the allowance passes, all before it being retries or resets. */
  lemma PassesIff<U, F>(c: Config, rounds: nat -> Round<U, F>, runs: nat)
    requires StillGoing(c, rounds, runs) && IsOver(c, rounds, runs)
    ensures runs > 0 && KindOf(c, rounds(runs - 1)) == Passed <==>
            exists n: nat :: StillGoing(c, rounds, n + 1) && !IsCut(c, rounds(n).run) && rounds(n).run.success && rounds(n).isPassed
  {
    hide KindOf, IsCut;
    if runs > 0 && KindOf(c, rounds(runs - 1)) == Passed {
      RoundMeans(c, rounds(runs - 1));
      assert StillGoing(c, rounds, (runs - 1) + 1);
    }
    if n: nat :| StillGoing(c, rounds, n + 1) && !IsCut(c, rounds(n).run) && rounds(n).run.success && rounds(n).isPassed {
      RoundMeans(c, rounds(n));
      assert IsOver(c, rounds, n + 1);
      OneEnd(c, rounds, runs, n + 1);
    }
  }
}
