/** Which couples of entries the regrowth check flags, with which globs, and in which order. */
module DocsFlags {
  import opened JsStrings
  import opened Globs
  import opened DocsRegistry
  import opened DocsGuards

  // ---------------------------------------------------------------- the globs of a flag

  /** No couple of globs before this one, row by row, overlaps. */
  predicate IsFirstOverlap(globs: seq<string>, others: seq<string>, m: nat, n: nat) {
    && m < |globs| && n < |others| && GlobsOverlap(globs[m], others[n])
    && (forall k :: 0 <= k < n ==> !GlobsOverlap(globs[m], others[k]))
    && (forall i, k :: 0 <= i < m && 0 <= k < |others| ==> !GlobsOverlap(globs[i], others[k]))
  }

  lemma {:induction false} OverlapFromIs(globs: seq<string>, others: seq<string>, i: nat, j: nat, m: nat, n: nat)
    requires IsFirstOverlap(globs, others, m, n) && (i < m || (i == m && j <= n))
    ensures OverlapFrom(globs, others, i, j) == Some((globs[m], others[n]))
    decreases |globs| - i, |others| - j
  {
    hide GlobsOverlap;
    if i < m {
      if j >= |others| {
        OverlapFromIs(globs, others, i + 1, 0, m, n);
      } else {
        assert !GlobsOverlap(globs[i], others[j]);
        OverlapFromIs(globs, others, i, j + 1, m, n);
      }
    } else if j < n {
      OverlapFromIs(globs, others, i, j + 1, m, n);
    }
  }

  lemma {:induction false} FirstOverlapExists(globs: seq<string>, others: seq<string>, i: nat, j: nat) returns (m: nat, n: nat)
    requires OverlapFrom(globs, others, i, j).Some?
    requires i < |globs| ==> forall k :: 0 <= k < j && k < |others| ==> !GlobsOverlap(globs[i], others[k])
    requires forall l, k :: 0 <= l < i && l < |globs| && 0 <= k < |others| ==> !GlobsOverlap(globs[l], others[k])
    ensures IsFirstOverlap(globs, others, m, n)
    decreases |globs| - i, |others| - j
  {
    hide GlobsOverlap;
    if j >= |others| {
      m, n := FirstOverlapExists(globs, others, i + 1, 0);
    } else if GlobsOverlap(globs[i], others[j]) {
      m, n := i, j;
    } else {
      m, n := FirstOverlapExists(globs, others, i, j + 1);
    }
  }

  /** The flag that two entries give: their paths, and the first of their globs that overlap. */
  predicate Flags(a: Entry, b: Entry, f: RegrowthFlag) {
    && f.docPathA == a.docPath && f.docPathB == b.docPath
    && exists m, n :: 0 <= m < |a.ownedGlobs| && 0 <= n < |b.ownedGlobs|
                      && IsFirstOverlap(a.ownedGlobs, b.ownedGlobs, m, n) && f.globA == a.ownedGlobs[m] && f.globB == b.ownedGlobs[n]
  }

  lemma PairFlagIff(a: Entry, b: Entry, f: RegrowthFlag)
    ensures f in PairFlag(a, b) <==> Flags(a, b, f)
    ensures |PairFlag(a, b)| <= 1
  {
    hide GlobsOverlap;
    if OverlapFrom(a.ownedGlobs, b.ownedGlobs, 0, 0).Some? {
      var m, n := FirstOverlapExists(a.ownedGlobs, b.ownedGlobs, 0, 0);
      OverlapFromIs(a.ownedGlobs, b.ownedGlobs, 0, 0, m, n);
    }
    if m, n :| 0 <= m < |a.ownedGlobs| && 0 <= n < |b.ownedGlobs| && IsFirstOverlap(a.ownedGlobs, b.ownedGlobs, m, n)
               && f.globA == a.ownedGlobs[m] && f.globB == b.ownedGlobs[n] {
      OverlapFromIs(a.ownedGlobs, b.ownedGlobs, 0, 0, m, n);
    }
  }

  // ---------------------------------------------------------------- the couples

  /** The flags of one entry with each of the others, in their order. */
  function FlagsWith(a: Entry, others: seq<Entry>): seq<RegrowthFlag> {
    if others == [] then [] else PairFlag(a, others[0]) + FlagsWith(a, others[1..])
  }

  lemma {:induction false} FlagsOfShifted(a: Entry, rest: seq<Entry>, i: nat, j: nat)
    ensures FlagsFrom([a] + rest, i + 1, j + 1) == FlagsFrom(rest, i, j)
    decreases |rest| - i, |rest| - j
  {
    hide PairFlag, FlagsFrom;
    FlagsStep([a] + rest, i + 1, j + 1);
    FlagsStep(rest, i, j);
    if i < |rest| {
      if j >= |rest| { FlagsOfShifted(a, rest, i + 1, i + 2); } else { FlagsOfShifted(a, rest, i, j + 1); }
    }
  }

  lemma {:induction false} FlagsOfRow(a: Entry, rest: seq<Entry>, j: nat)
    requires j <= |rest|
    ensures FlagsFrom([a] + rest, 0, j + 1) == FlagsWith(a, rest[j..]) + FlagsFrom(rest, 0, 1)
    decreases |rest| - j
  {
    hide PairFlag;
    FlagsStep([a] + rest, 0, j + 1);
    if j == |rest| {
      FlagsOfShifted(a, rest, 0, 1);
      assert rest[j..] == [];
    } else {
      FlagsOfRow(a, rest, j + 1);
      assert rest[j..][1..] == rest[j + 1..];
      assert ([a] + rest)[j + 1] == rest[j];
      hide FlagsFrom;
      assert PairFlag(a, rest[j]) + (FlagsWith(a, rest[j + 1..]) + FlagsFrom(rest, 0, 1)) ==
             (PairFlag(a, rest[j]) + FlagsWith(a, rest[j + 1..])) + FlagsFrom(rest, 0, 1);
    }
  }

  /** Flags come row by row: those of the first entry with each later one, then those of the others among themselves. */
  lemma FlagsOfFirst(a: Entry, rest: seq<Entry>)
    ensures FlagsFrom([a] + rest, 0, 1) == FlagsWith(a, rest) + FlagsFrom(rest, 0, 1)
    ensures FlagsFrom([], 0, 1) == []
  {
    FlagsOfRow(a, rest, 0);
    assert rest[0..] == rest;
  }

  lemma {:induction false} FlagsWithIff(a: Entry, others: seq<Entry>, f: RegrowthFlag)
    ensures f in FlagsWith(a, others) <==> exists j :: 0 <= j < |others| && Flags(a, others[j], f)
  {
    hide Flags, PairFlag;
    if others != [] {
      PairFlagIff(a, others[0], f);
      FlagsWithIff(a, others[1..], f);
      assert forall j :: 0 < j < |others| ==> others[j] == others[1..][j - 1];
      if j :| 0 <= j < |others[1..]| && Flags(a, others[1..][j], f) { assert Flags(a, others[j + 1], f); }
      if j :| 0 <= j < |others| && Flags(a, others[j], f) { assert j > 0 ==> Flags(a, others[1..][j - 1], f); }
    }
  }

  /** Two entries, the one before the other, give the flag. */
  predicate SomeFlag(entries: seq<Entry>, f: RegrowthFlag)
    decreases |entries|
  {
    entries != [] && ((exists j :: 0 < j < |entries| && Flags(entries[0], entries[j], f)) || SomeFlag(entries[1..], f))
  }

  lemma {:induction false} SomeFlagIff(entries: seq<Entry>, f: RegrowthFlag)
    ensures SomeFlag(entries, f) <==> exists i, j :: 0 <= i < j < |entries| && Flags(entries[i], entries[j], f)
    decreases |entries|
  {
    hide Flags;
    if entries != [] {
      SomeFlagIff(entries[1..], f);
      var rest := entries[1..];
      if i, j :| 0 <= i < j < |rest| && Flags(rest[i], rest[j], f) { assert Flags(entries[i + 1], entries[j + 1], f); }
      if i, j :| 0 <= i < j < |entries| && Flags(entries[i], entries[j], f) {
        assert i > 0 ==> Flags(rest[i - 1], rest[j - 1], f);
      }
    }
  }

  lemma FlagsMeanGlobs(a: Entry, b: Entry, f: RegrowthFlag)
    requires Flags(a, b, f)
    ensures a.ownedGlobs != [] && b.ownedGlobs != []
  {}

  lemma {:induction false} ActiveOnes(a: Entry, entries: seq<Entry>, f: RegrowthFlag)
    ensures f in FlagsWith(a, Active(entries)) <==> exists j :: 0 <= j < |entries| && Flags(a, entries[j], f)
  {
    hide Flags, PairFlag;
    if entries != [] {
      var rest := entries[1..];
      ActiveOnes(a, rest, f);
      PairFlagIff(a, entries[0], f);
      if Flags(a, entries[0], f) { FlagsMeanGlobs(a, entries[0], f); }
      if entries[0].ownedGlobs != [] {
        assert Active(entries) == [entries[0]] + Active(rest);
      } else {
        assert Active(entries) == Active(rest);
      }
      if j :| 0 <= j < |rest| && Flags(a, rest[j], f) { assert Flags(a, entries[j + 1], f); }
      if j :| 0 <= j < |entries| && Flags(a, entries[j], f) { assert j > 0 ==> Flags(a, rest[j - 1], f); }
    }
  }

  lemma {:induction false} FlaggedIff(entries: seq<Entry>, f: RegrowthFlag)
    ensures f in FlagsFrom(Active(entries), 0, 1) <==> SomeFlag(entries, f)
    decreases |entries|
  {
    hide Flags, FlagsFrom, FlagsWith;
    if entries == [] {
      FlagsOfFirst(Entry("", [], [], []), []);
    } else {
      var a, rest := entries[0], entries[1..];
      FlaggedIff(rest, f);
      ActiveOnes(a, rest, f);
      FlagsOfFirst(a, Active(rest));
      assert forall j :: 0 < j < |entries| ==> entries[j] == rest[j - 1];
      if a.ownedGlobs != [] {
        assert Active(entries) == [a] + Active(rest);
      } else {
        assert Active(entries) == Active(rest);
      }
      if j :| 0 <= j < |rest| && Flags(a, rest[j], f) {
        FlagsMeanGlobs(a, rest[j], f);
        assert Flags(a, entries[j + 1], f);
      }
    }
  }

  /**
   * The check flags exactly the couples of entries that overlap, the earlier one first, each with the first of their globs
   * that do. Entries that own nothing take no part.
   */
  lemma RegrowthIsFlaggedIff(entries: seq<Entry>, f: RegrowthFlag)
    ensures f in FlagsFrom(Active(entries), 0, 1) <==> exists i, j :: 0 <= i < j < |entries| && Flags(entries[i], entries[j], f)
  {
    FlaggedIff(entries, f);
    SomeFlagIff(entries, f);
  }
}
