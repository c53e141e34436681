/** The syntactic ownership-overlap test, and the regrowth check that applies it to every pair of entries. */
module DocsGuards {
  import opened JsStrings
  import opened Globs
  import opened DocsRegistry

  function FirstWildcardSegment(segments: seq<string>): (k: nat)
    ensures k <= |segments|
    ensures forall i :: 0 <= i < k ==> !HasWildcard(segments[i])
    ensures k < |segments| ==> HasWildcard(segments[k])
  {
    if segments == [] || HasWildcard(segments[0]) then 0 else 1 + FirstWildcardSegment(segments[1..])
  }

  /** The segments before the first one with a wildcard, or the whole glob when there is none. */
  function OwnershipRoot(glob: string): string {
    var segments := Split(glob, '/');
    var k := FirstWildcardSegment(segments);
    if k == |segments| then glob else Join(segments[..k], "/")
  }

  predicate IsSegmentPrefix(a: string, b: string) {
    a == "" || Split(a, '/') <= Split(b, '/')
  }

  predicate GlobsOverlap(a: string, b: string) {
    || a == b
    || IsSegmentPrefix(OwnershipRoot(a), OwnershipRoot(b))
    || IsSegmentPrefix(OwnershipRoot(b), OwnershipRoot(a))
  }

  lemma {:induction false} JoinHasNoWildcard(segments: seq<string>)
    requires forall i :: 0 <= i < |segments| ==> !HasWildcard(segments[i])
    ensures !HasWildcard(Join(segments, "/"))
  {
    if |segments| > 1 { JoinHasNoWildcard(segments[1..]); }
  }

  /** A path that a glob matches lies under the glob's ownership root, segment by segment. */
  lemma RootIsPrefixOfMatch(glob: string, path: string)
    requires MatchesGlob(glob, path)
    ensures IsSegmentPrefix(OwnershipRoot(glob), path)
  {
    var segments := Split(glob, '/');
    var k := FirstWildcardSegment(segments);
    JoinOfSplit(glob, '/');
    if k == |segments| {
      JoinHasNoWildcard(segments);
      LiteralGlob(glob, path);
    } else if k > 0 {
      var root, rest := OwnershipRoot(glob), Join(segments[k..], "/");
      assert segments == segments[..k] + segments[k..];
      JoinOfConcat(segments[..k], segments[k..], "/");
      JoinHasNoWildcard(segments[..k]);
      assert glob == (root + "/") + rest;
      LiteralFront(root + "/", rest, path);
      assert path == root + ['/'] + path[|root| + 1..];
      SplitAround(root, path[|root| + 1..], '/');
    }
  }

  /** The cheap test misses nothing: whenever some path is matched by both globs, it calls them overlapping. */
  lemma OverlapIsSound(a: string, b: string, path: string)
    requires MatchesGlob(a, path) && MatchesGlob(b, path)
    ensures GlobsOverlap(a, b)
  {
    RootIsPrefixOfMatch(a, path);
    RootIsPrefixOfMatch(b, path);
    PrefixesOfOnePath(OwnershipRoot(a), OwnershipRoot(b), path);
  }

  lemma PrefixesOfOnePath(a: string, b: string, path: string)
    requires IsSegmentPrefix(a, path) && IsSegmentPrefix(b, path)
    ensures IsSegmentPrefix(a, b) || IsSegmentPrefix(b, a)
  {
    var sa, sb, sp := Split(a, '/'), Split(b, '/'), Split(path, '/');
    if a != "" && b != "" {
      assert sa == sp[..|sa|] && sb == sp[..|sb|];
      assert |sa| <= |sb| ==> sb[..|sa|] == sp[..|sa|];
      assert |sb| <= |sa| ==> sa[..|sb|] == sp[..|sb|];
    }
  }

  /** The test agrees with matching on two globs if and only if it does not call globs overlapping that cannot meet. */
  lemma OverlapIsExactIff(a: string, b: string)
    ensures (GlobsOverlap(a, b) <==> exists path :: MatchesGlob(a, path) && MatchesGlob(b, path)) <==>
            (GlobsOverlap(a, b) ==> Meet(Compile(a), Compile(b)))
  {
    MeetIff(a, b);
    hide GlobsOverlap, Meet, Compile, MatchesGlob;
    if path :| MatchesGlob(a, path) && MatchesGlob(b, path) { OverlapIsSound(a, b, path); }
  }

  /** Between globs without a wildcard the test still is only a bound: a directory and a file in it never match one path. */
  lemma OverlapIsNotExact()
    ensures GlobsOverlap("a", "a/b") && !Meet(Compile("a"), Compile("a/b"))
  {
    assert "a/b" == "a" + ['/'] + "b";
    SplitAround("a", "b", '/');
    SplitWithout("a", '/');
    SplitWithout("b", '/');
    assert Split("a/b", '/') == ["a", "b"];
    assert OwnershipRoot("a") == "a";
    assert FirstWildcardSegment(["a", "b"]) == 2;
    assert OwnershipRoot("a/b") == "a/b";
    assert ["a"] <= ["a", "b"];
    assert |"a"| != |"a/b"|;
    MeetIff("a", "a/b");
    hide Meet, Compile, MatchesGlob, GlobsOverlap;
    if path :| MatchesGlob("a", path) && MatchesGlob("a/b", path) {
      LiteralGlob("a", path);
      LiteralGlob("a/b", path);
    }
  }

  // ---------------------------------------------------------------- what the test looks at

  /** Nothing of the glob stands before its first wildcard, apart from a slash. */
  predicate IsRootless(glob: string) {
    var segments := Split(glob, '/');
    HasWildcard(segments[0]) || (segments[0] == "" && (|segments| == 1 || HasWildcard(segments[1])))
  }

  /** The segment and all before it are free of wildcards. */
  predicate IsLeading(segments: seq<string>, i: nat) {
    i < |segments| && forall j :: 0 <= j <= i ==> !HasWildcard(segments[j])
  }

  lemma LeadingIff(segments: seq<string>, i: nat)
    ensures IsLeading(segments, i) <==> i < FirstWildcardSegment(segments)
  {
    var k := FirstWildcardSegment(segments);
    assert i >= k && k < |segments| ==> HasWildcard(segments[k]);
  }

  lemma JoinIsEmptyIff(parts: seq<string>)
    ensures Join(parts, "/") == "" <==> parts == [] || parts == [""]
  {}

  function Lead(glob: string): seq<string> {
    Split(glob, '/')[..FirstWildcardSegment(Split(glob, '/'))]
  }

  lemma RootSegments(glob: string)
    ensures OwnershipRoot(glob) == "" <==> IsRootless(glob)
    ensures OwnershipRoot(glob) != "" ==> Split(OwnershipRoot(glob), '/') == Lead(glob)
  {
    var segments := Split(glob, '/');
    var k := FirstWildcardSegment(segments);
    JoinOfSplit(glob, '/');
    JoinIsEmptyIff(segments[..k]);
    assert segments[..|segments|] == segments;
    assert OwnershipRoot(glob) == Join(segments[..k], "/");
    assert Without(segments[..k], '/');
    if k > 0 { SplitOfJoin(segments[..k], '/'); }
  }

  /**
   * Two globs overlap, for the test, if and only if one of them has no root, or they agree on every segment that stands before
   * the first wildcard of both.
   */
  lemma OverlapIff(a: string, b: string)
    ensures
      var s, t := Split(a, '/'), Split(b, '/');
      GlobsOverlap(a, b) <==>
        IsRootless(a) || IsRootless(b) || forall i: nat :: IsLeading(s, i) && IsLeading(t, i) ==> s[i] == t[i]
  {
    OverlapOfLeads(a, b);
    PrefixIff(Lead(a), Lead(b));
    LeadsAgreeIff(a, b);
    hide GlobsOverlap, Lead, Split, IsLeading, IsRootless;
  }

  lemma OverlapOfLeads(a: string, b: string)
    ensures GlobsOverlap(a, b) <==> IsRootless(a) || IsRootless(b) || Lead(a) <= Lead(b) || Lead(b) <= Lead(a)
  {
    RootSegments(a);
    RootSegments(b);
    hide Split, OwnershipRoot, Lead, IsRootless;
  }

  lemma LeadsAgreeIff(a: string, b: string)
    ensures
      var s, t := Split(a, '/'), Split(b, '/');
      (forall i: nat :: IsLeading(s, i) && IsLeading(t, i) ==> s[i] == t[i]) <==>
      (forall i :: 0 <= i < |Lead(a)| && i < |Lead(b)| ==> Lead(a)[i] == Lead(b)[i])
  {
    var s, t := Split(a, '/'), Split(b, '/');
    var l, m := Lead(a), Lead(b);
    if forall i: nat :: IsLeading(s, i) && IsLeading(t, i) ==> s[i] == t[i] {
      forall i | 0 <= i < |l| && i < |m| ensures l[i] == m[i] {
        LeadingIff(s, i);
        LeadingIff(t, i);
        assert l[i] == s[i] && m[i] == t[i];
      }
    }
    if forall i :: 0 <= i < |l| && i < |m| ==> l[i] == m[i] {
      forall i: nat | IsLeading(s, i) && IsLeading(t, i) ensures s[i] == t[i] {
        LeadingIff(s, i);
        LeadingIff(t, i);
        assert l[i] == s[i] && m[i] == t[i];
      }
    }
  }

  lemma PrefixIff(s: seq<string>, t: seq<string>)
    ensures s <= t || t <= s <==> forall i :: 0 <= i < |s| && i < |t| ==> s[i] == t[i]
  {}

  /** Between globs without a wildcard: one is the other, or lies under it at a slash. */
  lemma LiteralOverlapIff(a: string, b: string)
    requires a != "" && b != "" && !HasWildcard(a) && !HasWildcard(b)
    ensures GlobsOverlap(a, b) <==> a == b || StartsWith(b, a + "/") || StartsWith(a, b + "/")
  {
    LiteralRoot(a);
    LiteralRoot(b);
    UnderIff(a, b);
    UnderIff(b, a);
    hide Split, OwnershipRoot, StartsWith;
  }

  lemma LiteralRoot(glob: string)
    requires !HasWildcard(glob)
    ensures OwnershipRoot(glob) == glob
  {
    var segments := Split(glob, '/');
    var k := FirstWildcardSegment(segments);
    if k < |segments| {
      JoinOfSplit(glob, '/');
      PartOfJoin(segments, k);
    }
  }

  lemma {:induction false} PartOfJoin(parts: seq<string>, k: nat)
    requires k < |parts| && HasWildcard(parts[k])
    ensures HasWildcard(Join(parts, "/"))
  {
    if k > 0 { PartOfJoin(parts[1..], k - 1); }
  }

  /** The segments of one path begin those of another if and only if the path is it, or lies under it. */
  lemma UnderIff(a: string, b: string)
    ensures Split(a, '/') <= Split(b, '/') <==> a == b || StartsWith(b, a + "/")
  {
    var s, t := Split(a, '/'), Split(b, '/');
    JoinOfSplit(a, '/');
    JoinOfSplit(b, '/');
    if s <= t && |s| < |t| {
      assert t == s + t[|s|..];
      JoinOfConcat(s, t[|s|..], "/");
    } else if s <= t {
      assert s == t;
    }
    if StartsWith(b, a + "/") {
      assert b == a + ['/'] + b[|a| + 1..];
      SplitAround(a, b[|a| + 1..], '/');
    }
  }

  // ---------------------------------------------------------------- regrowth

  datatype RegrowthFlag = RegrowthFlag(docPathA: string, docPathB: string, globA: string, globB: string)

  predicate EntriesOverlap(a: Entry, b: Entry) {
    exists i, j :: 0 <= i < |a.ownedGlobs| && 0 <= j < |b.ownedGlobs| && GlobsOverlap(a.ownedGlobs[i], b.ownedGlobs[j])
  }

  /** The first glob of `globs` from `i` on that overlaps a glob of `others`, with the first such one. */
  function OverlapFrom(globs: seq<string>, others: seq<string>, i: nat, j: nat): Option<(string, string)>
    decreases |globs| - i, |others| - j
  {
    if i >= |globs| then None
    else if j >= |others| then OverlapFrom(globs, others, i + 1, 0)
    else if GlobsOverlap(globs[i], others[j]) then Some((globs[i], others[j]))
    else OverlapFrom(globs, others, i, j + 1)
  }

  lemma {:induction false} OverlapFromFinds(globs: seq<string>, others: seq<string>, i: nat, j: nat)
    ensures var r := OverlapFrom(globs, others, i, j);
            && (r.Some? ==> r.value.0 in globs && r.value.1 in others && GlobsOverlap(r.value.0, r.value.1))
            && (r.None? ==> forall n :: j <= n < |others| && i < |globs| ==> !GlobsOverlap(globs[i], others[n]))
            && (r.None? ==> forall m, n :: i < m < |globs| && 0 <= n < |others| ==> !GlobsOverlap(globs[m], others[n]))
    decreases |globs| - i, |others| - j
  {
    hide GlobsOverlap;
    if i < |globs| {
      if j >= |others| {
        OverlapFromFinds(globs, others, i + 1, 0);
      } else if !GlobsOverlap(globs[i], others[j]) {
        OverlapFromFinds(globs, others, i, j + 1);
      }
    }
  }

  method FindPairOverlap(a: Entry, b: Entry) returns (overlap: Option<(string, string)>)
    ensures overlap == OverlapFrom(a.ownedGlobs, b.ownedGlobs, 0, 0)
  {
    hide GlobsOverlap;
    for i := 0 to |a.ownedGlobs|
      invariant OverlapFrom(a.ownedGlobs, b.ownedGlobs, i, 0) == OverlapFrom(a.ownedGlobs, b.ownedGlobs, 0, 0)
    {
      for j := 0 to |b.ownedGlobs|
        invariant OverlapFrom(a.ownedGlobs, b.ownedGlobs, i, j) == OverlapFrom(a.ownedGlobs, b.ownedGlobs, 0, 0)
      {
        if GlobsOverlap(a.ownedGlobs[i], b.ownedGlobs[j]) {
          return Some((a.ownedGlobs[i], b.ownedGlobs[j]));
        }
      }
    }
    return None;
  }

  function Active(entries: seq<Entry>): seq<Entry> {
    if entries == [] then []
    else (if entries[0].ownedGlobs != [] then [entries[0]] else []) + Active(entries[1..])
  }

  function PairFlag(a: Entry, b: Entry): seq<RegrowthFlag> {
    match OverlapFrom(a.ownedGlobs, b.ownedGlobs, 0, 0)
    case None => []
    case Some((globA, globB)) => [RegrowthFlag(a.docPath, b.docPath, globA, globB)]
  }

  /** The flags of the pairs that come at or after `(i, j)`, row by row. */
  function FlagsFrom(active: seq<Entry>, i: nat, j: nat): seq<RegrowthFlag>
    decreases |active| - i, |active| - j
  {
    if i >= |active| then []
    else if j >= |active| then FlagsFrom(active, i + 1, i + 2)
    else PairFlag(active[i], active[j]) + FlagsFrom(active, i, j + 1)
  }

  method PushFlag(a: Entry, b: Entry, flags: seq<RegrowthFlag>) returns (more: seq<RegrowthFlag>)
    ensures more == flags + PairFlag(a, b)
  {
    hide OverlapFrom;
    var overlap := FindPairOverlap(a, b);
    more := if overlap.Some? then flags + [RegrowthFlag(a.docPath, b.docPath, overlap.value.0, overlap.value.1)] else flags;
  }

  lemma FlagsStep(active: seq<Entry>, i: nat, j: nat)
    ensures FlagsFrom(active, i, j) ==
            if i >= |active| then []
            else if j >= |active| then FlagsFrom(active, i + 1, i + 2)
            else PairFlag(active[i], active[j]) + FlagsFrom(active, i, j + 1)
  {
    hide PairFlag;
  }

  method CheckRegrowth(entries: seq<Entry>) returns (flags: seq<RegrowthFlag>)
    ensures flags == FlagsFrom(Active(entries), 0, 1)
  {
    hide FlagsFrom, PairFlag;
    var active := Active(entries);
    flags := [];
    for i := 0 to |active|
      invariant flags + FlagsFrom(active, i, i + 1) == FlagsFrom(active, 0, 1)
    {
      for j := i + 1 to |active|
        invariant flags + FlagsFrom(active, i, j) == FlagsFrom(active, 0, 1)
      {
        FlagsStep(active, i, j);
        assert flags + (PairFlag(active[i], active[j]) + FlagsFrom(active, i, j + 1)) ==
               (flags + PairFlag(active[i], active[j])) + FlagsFrom(active, i, j + 1);
        flags := PushFlag(active[i], active[j], flags);
      }
      FlagsStep(active, i, |active|);
    }
    FlagsStep(active, |active|, |active| + 1);
  }

  /** Nothing is flagged exactly when no two entries overlap. */
  lemma {:induction false} NoFlagsIffNoOverlap(active: seq<Entry>)
    ensures FlagsFrom(active, 0, 1) == [] <==> forall i, j :: 0 <= i < j < |active| ==> !EntriesOverlap(active[i], active[j])
  {
    hide EntriesOverlap, FlagsFrom, PairFlag;
    NoFlagsFromIff(active, 0, 1);
    forall i, j | 0 <= i < j < |active|
      ensures EntriesOverlap(active[i], active[j]) <==> !Unflagged(active, i, j)
    {
      FlaggedIffOverlap(active[i], active[j]);
    }
    hide Unflagged;
  }

  lemma FlaggedIffOverlap(a: Entry, b: Entry)
    ensures EntriesOverlap(a, b) <==> PairFlag(a, b) != []
  {
    var overlap := OverlapFrom(a.ownedGlobs, b.ownedGlobs, 0, 0);
    OverlapFromFinds(a.ownedGlobs, b.ownedGlobs, 0, 0);
    if overlap.Some? {
      var i :| 0 <= i < |a.ownedGlobs| && a.ownedGlobs[i] == overlap.value.0;
      var j :| 0 <= j < |b.ownedGlobs| && b.ownedGlobs[j] == overlap.value.1;
      assert GlobsOverlap(a.ownedGlobs[i], b.ownedGlobs[j]);
    }
  }

  predicate Unflagged(active: seq<Entry>, m: nat, n: nat)
    requires m < |active| && n < |active|
  {
    |PairFlag(active[m], active[n])| == 0
  }

  lemma {:induction false} NoFlagsFromIff(active: seq<Entry>, i: nat, j: nat)
    requires i < j
    ensures |FlagsFrom(active, i, j)| == 0 <==>
            && (forall n :: j <= n < |active| ==> Unflagged(active, i, n))
            && (forall m, n :: i < m < n < |active| ==> Unflagged(active, m, n))
    decreases |active| - i, |active| - j
  {
    hide PairFlag;
    if i < |active| {
      if j >= |active| {
        hide Unflagged;
        NoFlagsFromIff(active, i + 1, i + 2);
      } else {
        NoFlagsFromIff(active, i, j + 1);
        assert |FlagsFrom(active, i, j)| == |PairFlag(active[i], active[j])| + |FlagsFrom(active, i, j + 1)|;
        assert |FlagsFrom(active, i, j)| == 0 <==> Unflagged(active, i, j) && |FlagsFrom(active, i, j + 1)| == 0;
        hide Unflagged;
        hide FlagsFrom;
      }
    }
  }
}
