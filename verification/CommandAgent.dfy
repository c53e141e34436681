/** The correction loop behind a command's structured output. */
module CommandAgent {
  import opened JsStrings

  const MAX_RETRIES := 10
  const MAX_CONSECUTIVE_IDENTICAL_ERRORS := 3

  datatype Extraction<T> = Extracted(data: T) | Invalid(error: string)

  datatype Outcome<T> = Accepted(data: T) | GaveUp(error: string, repeated: bool)

  /** The length of the constant stretch a history ends with. */
  function Streak(errors: seq<string>): nat {
    if errors == [] then 0
    else if |errors| >= 2 && errors[|errors| - 2] == Last(errors) then Streak(errors[..|errors| - 1]) + 1
    else 1
  }

  /** The last `k` errors are the same, and the one before them is another. */
  lemma {:induction false} StreakIsTheConstantSuffix(errors: seq<string>)
    ensures Streak(errors) <= |errors| && (errors != [] ==> Streak(errors) > 0)
    ensures forall i :: |errors| - Streak(errors) <= i < |errors| ==> errors[i] == Last(errors)
    ensures Streak(errors) < |errors| ==> errors[|errors| - Streak(errors) - 1] != Last(errors)
  {
    if |errors| >= 2 && errors[|errors| - 2] == Last(errors) {
      var before := errors[..|errors| - 1];
      StreakIsTheConstantSuffix(before);
      assert forall i :: 0 <= i < |before| ==> before[i] == errors[i];
      assert Last(before) == Last(errors);
    }
  }

  lemma {:induction false} StreakOfThree(errors: seq<string>)
    ensures Streak(errors) >= 3 <==>
            |errors| >= 3 && errors[|errors| - 3] == errors[|errors| - 2] == errors[|errors| - 1]
  {
    StreakIsTheConstantSuffix(errors);
  }

  function ErrorAt<T>(extract: string -> Extraction<T>, output: string): string {
    var e := extract(output);
    if e.Invalid? then e.error else ""
  }

  /** The errors of the first `n` outputs. */
  function Errors<T>(extract: string -> Extraction<T>, outputs: nat -> string, n: nat): (errors: seq<string>)
    ensures |errors| == n
  {
    seq(n, i requires i >= 0 => ErrorAt(extract, outputs(i)))
  }

  /** The same error for the third time in a row, at the output `i`. */
  predicate IsThird<T>(extract: string -> Extraction<T>, outputs: nat -> string, i: nat) {
    && i >= 2
    && ErrorAt(extract, outputs(i)) == ErrorAt(extract, outputs(i - 1)) == ErrorAt(extract, outputs(i - 2))
  }

  lemma OneMoreError<T>(extract: string -> Extraction<T>, outputs: nat -> string, n: nat)
    ensures
      var before, errors := Errors(extract, outputs, n), Errors(extract, outputs, n + 1);
      var error := ErrorAt(extract, outputs(n));
      && errors == before + [error]
      && Streak(errors) == (if n > 0 && Last(before) == error then Streak(before) + 1 else 1)
      && (Streak(errors) >= 3 <==> IsThird(extract, outputs, n))
  {
    var errors := Errors(extract, outputs, n + 1);
    assert errors[..n] == Errors(extract, outputs, n);
    StreakOfThree(errors);
  }

  lemma NoErrors<T>(extract: string -> Extraction<T>, outputs: nat -> string)
    ensures Errors(extract, outputs, 0) == [] && Streak([]) == 0
  {}

  /**
   * `outputs(0)` is the first output, `outputs(k)` what the `k`-th correction produced. The loop ends at the first valid
   * output, at the first error that comes for the third time in a row, or after the last correction.
   */
  method RunRetryLoop<T>(extract: string -> Extraction<T>, outputs: nat -> string) returns (outcome: Outcome<T>, corrections: nat)
    ensures corrections <= MAX_RETRIES
    ensures forall i :: 0 <= i < corrections ==> extract(outputs(i)).Invalid? && !IsThird(extract, outputs, i)
    ensures match extract(outputs(corrections))
            case Extracted(data) => outcome == Accepted(data)
            case Invalid(error) =>
              var third := IsThird(extract, outputs, corrections);
              (third || corrections == MAX_RETRIES) && outcome == GaveUp(error, third)
  {
    hide Streak, IsThird, Errors;
    NoErrors(extract, outputs);
    var lastError := "";
    var consecutiveIdenticalCount := 0;
    var currentOutput := outputs(0);
    corrections := 0;
    for attempt := 0 to MAX_RETRIES + 1
      invariant corrections == attempt <= MAX_RETRIES
      invariant currentOutput == outputs(attempt)
      invariant forall i :: 0 <= i < attempt ==> extract(outputs(i)).Invalid? && !IsThird(extract, outputs, i)
      invariant consecutiveIdenticalCount == Streak(Errors(extract, outputs, attempt)) < MAX_CONSECUTIVE_IDENTICAL_ERRORS
      invariant Errors(extract, outputs, attempt) != [] ==> lastError == Last(Errors(extract, outputs, attempt))
      invariant Errors(extract, outputs, attempt) == [] ==> consecutiveIdenticalCount == 0
    {
      match extract(currentOutput) {
        case Extracted(data) => return Accepted(data), corrections;
        case Invalid(error) =>
          OneMoreError(extract, outputs, attempt);
          if error == lastError {
            consecutiveIdenticalCount := consecutiveIdenticalCount + 1;
          } else {
            consecutiveIdenticalCount := 1;
            lastError := error;
          }
      }
      if consecutiveIdenticalCount >= MAX_CONSECUTIVE_IDENTICAL_ERRORS { return GaveUp(lastError, true), corrections; }
      if attempt == MAX_RETRIES { return GaveUp(lastError, false), corrections; }
      currentOutput := outputs(attempt + 1);
      corrections := corrections + 1;
    }
  }
}
