/** The order in which repairs and overlaps are reported. */
module DocsReportOrder {
  import opened JsStrings
  import opened Globs
  import opened DocsRegistry
  import opened DocsGuards
  import opened DocsRepairs
  import opened DocsOverlap

  // ---------------------------------------------------------------- the order of paths

  /** The texts agree up to `k`, where the first ends or has the smaller character. */
  predicate IsLessAt(a: string, b: string, k: nat) {
    k <= |a| && k < |b| && a[..k] == b[..k] && (k == |a| || a[k] < b[k])
  }

  /** Paths are ordered by the first character in which they differ, and a path comes before what it begins. */
  lemma {:induction false} LessIff(a: string, b: string)
    ensures Less(a, b) <==> exists k :: 0 <= k < |b| && IsLessAt(a, b, k)
  {
    if Less(a, b) {
      if a == "" || a[0] < b[0] {
        assert IsLessAt(a, b, 0);
      } else {
        LessIff(a[1..], b[1..]);
        var k :| 0 <= k < |b[1..]| && IsLessAt(a[1..], b[1..], k);
        assert a[..k + 1] == [a[0]] + a[1..][..k] && b[..k + 1] == [b[0]] + b[1..][..k];
        assert IsLessAt(a, b, k + 1);
      }
    }
    if k :| 0 <= k < |b| && IsLessAt(a, b, k) && a != "" && k > 0 {
      assert a[0] == a[..k][0] == b[..k][0] == b[0];
      assert a[1..][..k - 1] == a[..k][1..] && b[1..][..k - 1] == b[..k][1..];
      assert IsLessAt(a[1..], b[1..], k - 1);
      LessIff(a[1..], b[1..]);
    }
  }

  /** The two paths of a violation are those of its entries, the smaller one first. */
  lemma SortedIs(a: string, b: string)
    ensures Sorted(a, b) == (a, b) || Sorted(a, b) == (b, a)
    ensures a != b ==> Less(Sorted(a, b).0, Sorted(a, b).1)
  {
    LessIsTotal(a, b);
    hide Less;
  }

  // ---------------------------------------------------------------- the order of hits

  /** Where the couple of the owners at `i` and `j` stands among the couples of `n` owners. */
  function PairPlace(n: nat, i: nat, j: nat): nat
    requires i < j < n
    decreases i
  {
    if i == 0 then j - 1 else (n - 1) + PairPlace(n - 1, i - 1, j - 1)
  }

  lemma {:induction false} RowIs(a: Entry, others: seq<Entry>)
    ensures |Row(a, others)| == |others|
    ensures forall k :: 0 <= k < |others| ==> Row(a, others)[k] == Sorted(a.docPath, others[k].docPath)
  {
    hide Sorted;
    if others != [] { RowIs(a, others[1..]); }
  }

  /** The couples of a file's owners come in the order of the first owner, then of the second. */
  lemma {:induction false} PairAt(owners: seq<Entry>, i: nat, j: nat)
    requires i < j < |owners|
    ensures var place := PairPlace(|owners|, i, j);
            place < |Pairs(owners)| && Pairs(owners)[place] == Sorted(owners[i].docPath, owners[j].docPath)
    decreases |owners|
  {
    hide Sorted;
    RowIs(owners[0], owners[1..]);
    if i > 0 { PairAt(owners[1..], i - 1, j - 1); }
  }

  lemma {:induction false} PlacesAreInOrder(n: nat, i: nat, j: nat, k: nat, l: nat)
    requires i < j < n && k < l < n
    ensures PairPlace(n, i, j) < PairPlace(n, k, l) <==> i < k || (i == k && j < l)
    decreases n
  {
    if i > 0 && k > 0 { PlacesAreInOrder(n - 1, i - 1, j - 1, k - 1, l - 1); }
  }

  // ---------------------------------------------------------------- the order of violations

  function FirstHit(hits: seq<Hit>, pair: Pair): (k: nat)
    ensures k <= |hits|
    ensures k < |hits| ==> hits[k].pair == pair
    ensures forall i :: 0 <= i < k ==> hits[i].pair != pair
  {
    if hits == [] || hits[0].pair == pair then 0 else 1 + FirstHit(hits[1..], pair)
  }

  /** In the order of first hits. */
  predicate IsInOrder(groups: seq<Overlap>, hits: seq<Hit>) {
    && (forall i :: 0 <= i < |groups| ==> FirstHit(hits, groups[i].pair) < |hits|)
    && (forall i, j :: 0 <= i < j < |groups| ==> FirstHit(hits, groups[i].pair) < FirstHit(hits, groups[j].pair))
  }

  lemma FirstHitIs(hits: seq<Hit>, pair: Pair, k: nat)
    requires k < |hits| && hits[k].pair == pair && forall i :: 0 <= i < k ==> hits[i].pair != pair
    ensures FirstHit(hits, pair) == k
  {}

  lemma FirstHitOfMore(hits: seq<Hit>, pair: Pair)
    requires hits != []
    ensures var front := hits[..|hits| - 1];
            FirstHit(hits, pair) ==
              if FirstHit(front, pair) < |front| then FirstHit(front, pair)
              else if Last(hits).pair == pair then |front| else |hits|
  {
    var front, k := hits[..|hits| - 1], FirstHit(hits, pair);
    var j := FirstHit(front, pair);
    assert forall i :: 0 <= i < |front| ==> front[i] == hits[i];
    hide FirstHit;
  }

  lemma {:induction false} HitHasFiles(hits: seq<Hit>, pair: Pair)
    ensures FilesOf(hits, pair) != [] <==> FirstHit(hits, pair) < |hits|
    decreases |hits|
  {
    if hits != [] {
      HitHasFiles(hits[..|hits| - 1], pair);
      FirstHitOfMore(hits, pair);
    }
  }

  /** Violations stand in the order in which their couples are hit first. */
  lemma {:induction false} ReportIsInOrder(hits: seq<Hit>)
    requires AllSorted(hits)
    ensures IsInOrder(Group(hits), hits)
    decreases |hits|
  {
    if hits != [] {
      var front := hits[..|hits| - 1];
      assert AllSorted(front);
      ReportIsInOrder(front);
      GroupIsFaithful(front);
      InsertKeepsOrder(Group(front), front, hits);
    }
  }

  lemma InsertKeepsOrder(groups: seq<Overlap>, front: seq<Hit>, hits: seq<Hit>)
    requires hits != [] && front == hits[..|hits| - 1] && AllSorted(hits) && Faithful(groups, front) && IsInOrder(groups, front)
    ensures IsInOrder(Insert(groups, Last(hits)), hits)
  {
    var hit, k := Last(hits), IndexOfKey(groups, KeyOf(Last(hits).pair));
    OldGroupsKeepOrder(groups, front, hits);
    if k == |groups| {
      assert !HasPair(groups, hit.pair);
      hide KeyOf, FilesOf, IsInOrder, AllSorted;
      HitHasFiles(front, hit.pair);
      FirstHitOfMore(hits, hit.pair);
      hide FirstHit, Faithful;
      NewGroupIsLast(groups, hits, hit);
    } else {
      hide FilesOf, AllSorted, FirstHit, Faithful;
      assert forall i :: 0 <= i < |groups| ==> Insert(groups, hit)[i].pair == groups[i].pair;
    }
  }

  lemma OldGroupsKeepOrder(groups: seq<Overlap>, front: seq<Hit>, hits: seq<Hit>)
    requires hits != [] && front == hits[..|hits| - 1] && IsInOrder(groups, front)
    ensures IsInOrder(groups, hits) && forall i :: 0 <= i < |groups| ==> FirstHit(hits, groups[i].pair) < |front|
  {
    forall i | 0 <= i < |groups| ensures FirstHit(hits, groups[i].pair) == FirstHit(front, groups[i].pair) {
      FirstHitOfMore(hits, groups[i].pair);
    }
    hide FirstHit;
  }

  lemma NewGroupIsLast(groups: seq<Overlap>, hits: seq<Hit>, hit: Hit)
    requires hits != [] && IsInOrder(groups, hits) && FirstHit(hits, hit.pair) == |hits| - 1
    requires forall i :: 0 <= i < |groups| ==> FirstHit(hits, groups[i].pair) < |hits| - 1
    ensures IsInOrder(groups + [Overlap(hit.pair, [hit.file])], hits)
  {
    hide FirstHit;
  }

  /** The first file that two entries with these paths share; the number of files when there is none. */
  function FirstShared(entries: seq<Entry>, files: seq<string>, pair: Pair): (k: nat)
    ensures k <= |files|
    ensures k < |files| ==> SharedBy(entries, files[k], pair)
    ensures forall i :: 0 <= i < k ==> !SharedBy(entries, files[i], pair)
  {
    if files == [] || SharedBy(entries, files[0], pair) then 0 else 1 + FirstShared(entries, files[1..], pair)
  }

  lemma {:induction false} HitsOfAre(file: string, pairs: seq<Pair>)
    ensures |HitsOf(file, pairs)| == |pairs| && forall k :: 0 <= k < |pairs| ==> HitsOf(file, pairs)[k] == Hit(file, pairs[k])
  {
    if pairs != [] { HitsOfAre(file, pairs[1..]); }
  }

  lemma FirstHitOfConcat(a: seq<Hit>, b: seq<Hit>, pair: Pair)
    ensures FirstHit(a + b, pair) == if FirstHit(a, pair) < |a| then FirstHit(a, pair) else |a| + FirstHit(b, pair)
  {
    var k, l, m := FirstHit(a, pair), FirstHit(b, pair), FirstHit(a + b, pair);
    assert m < |a| ==> (a + b)[m] == a[m];
    assert |a| <= m < |a + b| ==> (a + b)[m] == b[m - |a|];
    assert k < |a| ==> (a + b)[k] == a[k];
    assert l < |b| ==> (a + b)[|a| + l] == b[l];
    hide FirstHit;
  }

  /** A couple is hit in the first file exactly when two of its owners make it. */
  lemma FirstFileHits(entries: seq<Entry>, file: string, pair: Pair)
    ensures var hits := HitsOf(file, Pairs(Owners(entries, file)));
            FirstHit(hits, pair) < |hits| <==> SharedBy(entries, file, pair)
  {
    var pairs := Pairs(Owners(entries, file));
    HitsOfAre(file, pairs);
    CoupledIffShared(entries, file, pair);
    hide SharedBy, Pairs, Owners, HitsOf, FirstHit;
    var hits := HitsOf(file, pairs);
    if pair in pairs {
      var k :| 0 <= k < |pairs| && pairs[k] == pair;
      assert hits[k].pair == pair;
    }
  }

  /** Couples are hit in the order of the first file they share. */
  lemma {:induction false} HitsFollowTheFiles(entries: seq<Entry>, files: seq<string>, p: Pair, q: Pair)
    requires FirstHit(Hits(entries, files), p) < FirstHit(Hits(entries, files), q)
    ensures FirstShared(entries, files, p) <= FirstShared(entries, files, q)
    decreases |files|
  {
    if files != [] {
      var now, rest := HitsOf(files[0], Pairs(Owners(entries, files[0]))), Hits(entries, files[1..]);
      FirstHitOfConcat(now, rest, p);
      FirstHitOfConcat(now, rest, q);
      FirstFileHits(entries, files[0], p);
      FirstFileHits(entries, files[0], q);
      assert Hits(entries, files) == now + rest;
      hide FirstHit, SharedBy, HitsOf, Hits;
      if !SharedBy(entries, files[0], p) && !SharedBy(entries, files[0], q) { HitsFollowTheFiles(entries, files[1..], p, q); }
    }
  }

  /** So the violations of a report stand in the order of the first file that each of them lists. */
  lemma ViolationsFollowTheFiles(entries: seq<Entry>, files: seq<string>, i: nat, j: nat)
    requires NulFree(entries) && i < j < |Group(Hits(entries, files))|
    ensures
      var report := Group(Hits(entries, files));
      FirstShared(entries, files, report[i].pair) <= FirstShared(entries, files, report[j].pair) < |files|
  {
    var hits := Hits(entries, files);
    HitsAreSorted(entries, files);
    ReportIsInOrder(hits);
    var report := Group(hits);
    hide FirstHit, Group, Hits, FirstShared;
    HitsFollowTheFiles(entries, files, report[i].pair, report[j].pair);
    ReportIsPairwise(entries, files, report[j].pair);
    assert HasPair(report, report[j].pair);
    var k :| 0 <= k < |files| && SharedBy(entries, files[k], report[j].pair);
  }

  // ---------------------------------------------------------------- the order of repairs

  /** The repairs of an index are those of its entries, one after the other. */
  lemma {:induction false} RepairsOfConcat(a: seq<Entry>, b: seq<Entry>, files: seq<string>)
    ensures FindRepairs(a + b, files) == FindRepairs(a, files) + FindRepairs(b, files)
    decreases |a|
  {
    hide EntryRepairs;
    if a == [] {
      assert a + b == b;
    } else {
      assert (a + b)[1..] == a[1..] + b;
      RepairsOfConcat(a[1..], b, files);
    }
  }
}
