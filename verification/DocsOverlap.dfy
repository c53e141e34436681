/** The overlap report: files that several entries own, grouped through a map keyed by the pair of doc paths. */
module DocsOverlap {
  import opened JsStrings
  import opened Globs
  import opened DocsRegistry
  import opened DocsGuards
  import opened DocsRepairs

  // ---------------------------------------------------------------- sorted pairs and their keys

  /** String order, character by character. */
  predicate Less(a: string, b: string) {
    b != "" && (a == "" || a[0] < b[0] || (a[0] == b[0] && Less(a[1..], b[1..])))
  }

  lemma {:induction false} LessIsTotal(a: string, b: string)
    ensures !(Less(a, b) && Less(b, a))
    ensures a == b || Less(a, b) || Less(b, a)
  {
    if a != "" && b != "" && a[0] == b[0] {
      LessIsTotal(a[1..], b[1..]);
      assert a[1..] == b[1..] ==> a == [a[0]] + a[1..] && b == [b[0]] + b[1..];
    }
  }

  type Pair = (string, string)

  function Sorted(a: string, b: string): Pair {
    if Less(b, a) then (b, a) else (a, b)
  }

  function PairKey(a: string, b: string): string {
    if Less(a, b) then a + "\0" + b else b + "\0" + a
  }

  predicate IsSortedPair(p: Pair) {
    !Less(p.1, p.0) && '\0' !in p.0 && '\0' !in p.1
  }

  lemma KeyOfSorted(p: Pair)
    requires IsSortedPair(p)
    ensures Split(PairKey(p.0, p.1), '\0') == [p.0, p.1]
  {
    LessIsTotal(p.0, p.1);
    assert PairKey(p.0, p.1) == p.0 + ['\0'] + p.1;
    SplitAround(p.0, p.1, '\0');
    SplitWithout(p.0, '\0');
    SplitWithout(p.1, '\0');
  }

  /** No two pairs of NUL-free paths share a key. */
  lemma KeysAreInjective(p: Pair, q: Pair)
    requires IsSortedPair(p) && IsSortedPair(q)
    requires PairKey(p.0, p.1) == PairKey(q.0, q.1)
    ensures p == q
  {
    KeyOfSorted(p);
    KeyOfSorted(q);
    assert [p.0, p.1][0] == [q.0, q.1][0] && [p.0, p.1][1] == [q.0, q.1][1];
  }

  // ---------------------------------------------------------------- hits

  datatype Hit = Hit(file: string, pair: Pair)

  datatype Overlap = Overlap(pair: Pair, files: seq<string>)

  function Row(a: Entry, others: seq<Entry>): seq<Pair> {
    if others == [] then [] else [Sorted(a.docPath, others[0].docPath)] + Row(a, others[1..])
  }

  /** The sorted doc paths of every two owners, in order. */
  function Pairs(owners: seq<Entry>): seq<Pair> {
    if owners == [] then [] else Row(owners[0], owners[1..]) + Pairs(owners[1..])
  }

  function HitsOf(file: string, pairs: seq<Pair>): seq<Hit> {
    if pairs == [] then [] else [Hit(file, pairs[0])] + HitsOf(file, pairs[1..])
  }

  function Owners(entries: seq<Entry>, file: string): seq<Entry> {
    FindOwningEntries(entries, [file])
  }

  function Hits(entries: seq<Entry>, files: seq<string>): seq<Hit> {
    if files == [] then [] else HitsOf(files[0], Pairs(Owners(entries, files[0]))) + Hits(entries, files[1..])
  }

  // ---------------------------------------------------------------- grouping

  function KeyOf(pair: Pair): string {
    PairKey(pair.0, pair.1)
  }

  function IndexOfKey(groups: seq<Overlap>, key: string): (k: nat)
    ensures k <= |groups|
    ensures k < |groups| ==> KeyOf(groups[k].pair) == key
    ensures forall i :: 0 <= i < k ==> KeyOf(groups[i].pair) != key
  {
    if groups == [] || KeyOf(groups[0].pair) == key then 0 else 1 + IndexOfKey(groups[1..], key)
  }

  function Insert(groups: seq<Overlap>, hit: Hit): seq<Overlap> {
    var k := IndexOfKey(groups, KeyOf(hit.pair));
    if k < |groups| then groups[k := groups[k].(files := groups[k].files + [hit.file])]
    else groups + [Overlap(hit.pair, [hit.file])]
  }

  function Group(hits: seq<Hit>): seq<Overlap> {
    if hits == [] then [] else Insert(Group(hits[..|hits| - 1]), Last(hits))
  }

  function Values(keys: seq<string>, byPair: map<string, Overlap>): seq<Overlap>
    requires forall k :: k in keys ==> k in byPair
  {
    if keys == [] then [] else [byPair[keys[0]]] + Values(keys[1..], byPair)
  }

  lemma {:induction false} ValuesAre(keys: seq<string>, byPair: map<string, Overlap>, groups: seq<Overlap>)
    requires |keys| == |groups|
    requires forall i :: 0 <= i < |keys| ==> keys[i] in byPair && byPair[keys[i]] == groups[i]
    ensures Values(keys, byPair) == groups
  {
    if keys != [] { ValuesAre(keys[1..], byPair, groups[1..]); }
  }

  /** The map of the original: its entries, listed in the order in which their keys were first set. */
  ghost predicate Holds(keys: seq<string>, byPair: map<string, Overlap>, groups: seq<Overlap>) {
    && |keys| == |groups|
    && (forall i :: 0 <= i < |keys| ==> keys[i] == KeyOf(groups[i].pair) && keys[i] in byPair && byPair[keys[i]] == groups[i])
    && (forall i, j :: 0 <= i < j < |keys| ==> keys[i] != keys[j])
    && (forall k :: k in byPair ==> k in keys)
  }

  method FindOverlapViolations(entries: seq<Entry>, files: seq<string>) returns (report: seq<Overlap>)
    ensures report == Group(Hits(entries, files))
  {
    var hits := Hits(entries, files);
    var keys: seq<string>, byPair: map<string, Overlap> := [], map[];
    for i := 0 to |hits|
      invariant Holds(keys, byPair, Group(hits[..i]))
    {
      ghost var groups := Group(hits[..i]);
      assert hits[..i + 1][..i] == hits[..i] && Last(hits[..i + 1]) == hits[i];
      keys, byPair := SetInMap(keys, byPair, hits[i], groups);
    }
    assert hits[..|hits|] == hits;
    ValuesAre(keys, byPair, Group(hits));
    report := Values(keys, byPair);
  }

  method SetInMap(keys: seq<string>, byPair: map<string, Overlap>, hit: Hit, ghost groups: seq<Overlap>)
      returns (keys': seq<string>, byPair': map<string, Overlap>)
    requires Holds(keys, byPair, groups)
    ensures Holds(keys', byPair', Insert(groups, hit))
  {
    hide PairKey;
    var key := KeyOf(hit.pair);
    ghost var k := IndexOfKey(groups, key);
    if key in byPair {
      assert k < |groups| by {
        var i :| 0 <= i < |keys| && keys[i] == key;
        assert KeyOf(groups[i].pair) == key;
      }
      var existing := byPair[key];
      keys', byPair' := keys, byPair[key := existing.(files := existing.files + [hit.file])];
    } else {
      keys', byPair' := keys + [key], byPair[key := Overlap(hit.pair, [hit.file])];
    }
  }

  // ---------------------------------------------------------------- what a group holds

  function FilesOf(hits: seq<Hit>, pair: Pair): seq<string> {
    if hits == [] then [] else FilesOf(hits[..|hits| - 1], pair) + (if Last(hits).pair == pair then [Last(hits).file] else [])
  }

  predicate AllSorted(hits: seq<Hit>) {
    forall i :: 0 <= i < |hits| ==> IsSortedPair(hits[i].pair)
  }

  ghost predicate Faithful(groups: seq<Overlap>, hits: seq<Hit>) {
    && (forall i :: 0 <= i < |groups| ==> IsSortedPair(groups[i].pair) && groups[i].files == FilesOf(hits, groups[i].pair))
    && (forall i, j :: 0 <= i < j < |groups| ==> groups[i].pair != groups[j].pair)
    && (forall p :: FilesOf(hits, p) != [] <==> exists i :: 0 <= i < |groups| && groups[i].pair == p)
  }

  /** One group for each pair that was hit, holding the files of its hits in order. */
  lemma {:induction false} GroupIsFaithful(hits: seq<Hit>)
    requires AllSorted(hits)
    ensures Faithful(Group(hits), hits)
  {
    if hits != [] {
      var before, hit := hits[..|hits| - 1], Last(hits);
      GroupIsFaithful(before);
      InsertIsFaithful(Group(before), before, hits);
    }
  }

  lemma InsertIsFaithful(groups: seq<Overlap>, before: seq<Hit>, hits: seq<Hit>)
    requires hits != [] && before == hits[..|hits| - 1] && AllSorted(hits) && Faithful(groups, before)
    ensures Faithful(Insert(groups, Last(hits)), hits)
  {
    var hit := Last(hits);
    var k, after := IndexOfKey(groups, KeyOf(hit.pair)), Insert(groups, hit);
    if k < |groups| { KeysAreInjective(groups[k].pair, hit.pair); }
    hide PairKey, IsSortedPair;
    forall p ensures FilesOf(hits, p) == FilesOf(before, p) + (if hit.pair == p then [hit.file] else []) {}
    assert FilesOf(hits, hit.pair) != [];
    if k < |groups| {
      assert after[k].pair == hit.pair;
      forall i | 0 <= i < |groups| && i != k ensures groups[i].pair != hit.pair {}
    } else {
      assert after[k].pair == hit.pair;
      forall i | 0 <= i < |groups| ensures groups[i].pair != hit.pair {
        assert KeyOf(groups[i].pair) != KeyOf(hit.pair);
      }
    }
    hide FilesOf;
    forall p ensures FilesOf(hits, p) != [] <==> exists i :: 0 <= i < |after| && after[i].pair == p {
      if i :| 0 <= i < |groups| && groups[i].pair == p { assert after[i].pair == p; }
      if i :| 0 <= i < |after| && after[i].pair == p { assert i < |groups| ==> groups[i].pair == p; }
    }
  }

  // ---------------------------------------------------------------- what the report means for the registry

  /** The pairwise definition: two entries at different places, with these doc paths, both own the file. */
  predicate SharedBy(entries: seq<Entry>, file: string, pair: Pair) {
    exists i, j :: 0 <= i < j < |entries| && OwnsAny(entries[i], [file]) && OwnsAny(entries[j], [file])
                   && Sorted(entries[i].docPath, entries[j].docPath) == pair
  }

  /** How many couples of owners of the file have these doc paths. */
  function Couples(entries: seq<Entry>, file: string, pair: Pair): nat {
    multiset(Pairs(Owners(entries, file)))[pair]
  }

  function Repeat(file: string, n: nat): seq<string> {
    seq(n, _ => file)
  }

  /** Every file in order, once for each couple of its owners. */
  function Listing(entries: seq<Entry>, files: seq<string>, pair: Pair): seq<string> {
    if files == [] then [] else Repeat(files[0], Couples(entries, files[0], pair)) + Listing(entries, files[1..], pair)
  }

  lemma {:induction false} FilesOfConcat(a: seq<Hit>, b: seq<Hit>, pair: Pair)
    ensures FilesOf(a + b, pair) == FilesOf(a, pair) + FilesOf(b, pair)
  {
    if b == [] {
      assert a + b == a;
    } else {
      assert (a + b)[..|a + b| - 1] == a + b[..|b| - 1];
      FilesOfConcat(a, b[..|b| - 1], pair);
    }
  }

  lemma {:induction false} FilesOfOneFile(file: string, pairs: seq<Pair>, pair: Pair)
    ensures FilesOf(HitsOf(file, pairs), pair) == Repeat(file, multiset(pairs)[pair])
  {
    if pairs != [] {
      var rest := pairs[1..];
      assert pairs == [pairs[0]] + rest;
      hide FilesOf;
      FilesOfOneFile(file, rest, pair);
      FilesOfConcat([Hit(file, pairs[0])], HitsOf(file, rest), pair);
      FilesOfOneHit(Hit(file, pairs[0]), pair);
      OneMoreRepeat(file, multiset(rest)[pair]);
    } else {
      NoFiles(pair);
    }
  }

  lemma OneMoreRepeat(file: string, n: nat)
    ensures Repeat(file, n + 1) == [file] + Repeat(file, n) && [] + Repeat(file, n) == Repeat(file, n)
  {}

  lemma NoFiles(pair: Pair)
    ensures FilesOf([], pair) == []
  {}

  lemma FilesOfOneHit(hit: Hit, pair: Pair)
    ensures FilesOf([hit], pair) == if hit.pair == pair then [hit.file] else []
  {
    assert [hit][..0] == [];
  }

  lemma {:induction false} FilesOfHits(entries: seq<Entry>, files: seq<string>, pair: Pair)
    ensures FilesOf(Hits(entries, files), pair) == Listing(entries, files, pair)
  {
    if files != [] {
      var pairs := Pairs(Owners(entries, files[0]));
      FilesOfOneFile(files[0], pairs, pair);
      FilesOfHits(entries, files[1..], pair);
      FilesOfConcat(HitsOf(files[0], pairs), Hits(entries, files[1..]), pair);
    }
  }

  lemma {:induction false} RowHas(a: Entry, others: seq<Entry>, pair: Pair)
    ensures pair in Row(a, others) <==> exists j :: 0 <= j < |others| && Sorted(a.docPath, others[j].docPath) == pair
  {
    hide Sorted;
    if others != [] {
      RowHas(a, others[1..], pair);
      if j :| 0 <= j < |others[1..]| && Sorted(a.docPath, others[1..][j].docPath) == pair {
        assert others[j + 1] == others[1..][j];
      }
      if j :| 0 <= j < |others| && Sorted(a.docPath, others[j].docPath) == pair {
        assert j > 0 ==> others[1..][j - 1] == others[j];
      }
    }
  }

  predicate HasOwnerAs(entries: seq<Entry>, file: string, a: Entry, pair: Pair) {
    exists j :: 0 <= j < |entries| && OwnsAny(entries[j], [file]) && Sorted(a.docPath, entries[j].docPath) == pair
  }

  lemma {:induction false} RowOfOwners(entries: seq<Entry>, file: string, a: Entry, pair: Pair)
    ensures pair in Row(a, Owners(entries, file)) <==> HasOwnerAs(entries, file, a, pair)
  {
    hide Sorted, OwnsAny;
    if entries != [] {
      RowOfOwners(entries[1..], file, a, pair);
      var rest := Owners(entries[1..], file);
      assert ([entries[0]] + rest)[1..] == rest && [] + rest == rest;
      if j :| 0 <= j < |entries[1..]| && OwnsAny(entries[1..][j], [file]) && Sorted(a.docPath, entries[1..][j].docPath) == pair {
        assert entries[j + 1] == entries[1..][j];
      }
      if j :| 0 <= j < |entries| && OwnsAny(entries[j], [file]) && Sorted(a.docPath, entries[j].docPath) == pair {
        assert j > 0 ==> entries[1..][j - 1] == entries[j];
      }
    }
  }

  lemma {:induction false} SharedUnfolds(entries: seq<Entry>, file: string, pair: Pair)
    requires entries != []
    ensures SharedBy(entries, file, pair) <==>
            SharedBy(entries[1..], file, pair) || (OwnsAny(entries[0], [file]) && HasOwnerAs(entries[1..], file, entries[0], pair))
  {
    hide Sorted, OwnsAny;
    var rest := entries[1..];
    assert forall i :: 0 <= i < |rest| ==> rest[i] == entries[i + 1];
    if i, j :| 0 <= i < j < |rest| && OwnsAny(rest[i], [file]) && OwnsAny(rest[j], [file])
               && Sorted(rest[i].docPath, rest[j].docPath) == pair {
      assert OwnsAny(entries[i + 1], [file]) && OwnsAny(entries[j + 1], [file]);
    }
    if j :| 0 <= j < |rest| && OwnsAny(rest[j], [file]) && Sorted(entries[0].docPath, rest[j].docPath) == pair {
      assert OwnsAny(entries[j + 1], [file]);
    }
    if i, j :| 0 <= i < j < |entries| && OwnsAny(entries[i], [file]) && OwnsAny(entries[j], [file])
               && Sorted(entries[i].docPath, entries[j].docPath) == pair {
      assert entries[j] == rest[j - 1] && (i > 0 ==> entries[i] == rest[i - 1]);
    }
  }

  /** A couple is counted exactly when two entries share the file under these names. */
  lemma {:induction false} CoupledIffShared(entries: seq<Entry>, file: string, pair: Pair)
    ensures pair in Pairs(Owners(entries, file)) <==> SharedBy(entries, file, pair)
  {
    if entries != [] {
      CoupledIffShared(entries[1..], file, pair);
      SharedUnfolds(entries, file, pair);
      hide SharedBy;
      var rest := Owners(entries[1..], file);
      if OwnsAny(entries[0], [file]) {
        RowOfOwners(entries[1..], file, entries[0], pair);
        assert Owners(entries, file) == [entries[0]] + rest && ([entries[0]] + rest)[1..] == rest;
        assert Pairs(Owners(entries, file)) == Row(entries[0], rest) + Pairs(rest);
      } else {
        assert Owners(entries, file) == [] + rest && [] + rest == rest;
      }
    }
  }

  predicate NulFree(entries: seq<Entry>) {
    forall i :: 0 <= i < |entries| ==> '\0' !in entries[i].docPath
  }

  lemma {:induction false} HitsAreSorted(entries: seq<Entry>, files: seq<string>)
    requires NulFree(entries)
    ensures AllSorted(Hits(entries, files))
  {
    if files != [] {
      HitsAreSorted(entries, files[1..]);
      forall pair | pair in Pairs(Owners(entries, files[0])) ensures IsSortedPair(pair) {
        CoupledIffShared(entries, files[0], pair);
        var i, j :| 0 <= i < j < |entries| && OwnsAny(entries[i], [files[0]]) && OwnsAny(entries[j], [files[0]])
                    && Sorted(entries[i].docPath, entries[j].docPath) == pair;
        LessIsTotal(entries[i].docPath, entries[j].docPath);
      }
      HitsOfAreSorted(files[0], Pairs(Owners(entries, files[0])));
    }
  }

  lemma {:induction false} HitsOfAreSorted(file: string, pairs: seq<Pair>)
    requires forall p :: p in pairs ==> IsSortedPair(p)
    ensures AllSorted(HitsOf(file, pairs))
  {
    if pairs != [] { HitsOfAreSorted(file, pairs[1..]); }
  }

  lemma {:induction false} ListingIsEmptyIff(entries: seq<Entry>, files: seq<string>, pair: Pair)
    ensures Listing(entries, files, pair) != [] <==> exists i :: 0 <= i < |files| && SharedBy(entries, files[i], pair)
  {
    hide SharedBy;
    if files != [] {
      CoupledIffShared(entries, files[0], pair);
      ListingIsEmptyIff(entries, files[1..], pair);
      assert pair in Pairs(Owners(entries, files[0])) <==> Couples(entries, files[0], pair) > 0;
      hide Couples, Owners, Pairs;
      if i :| 0 <= i < |files[1..]| && SharedBy(entries, files[1..][i], pair) { assert files[i + 1] == files[1..][i]; }
      if i :| 0 <= i < |files| && SharedBy(entries, files[i], pair) { assert i > 0 ==> files[1..][i - 1] == files[i]; }
    }
  }

  /**
   * The report refines the pairwise definition: a pair of doc paths has a violation exactly when two entries with those
   * paths share some file, it has no second one, and the violation lists every shared file in order, once per couple.
   */
  lemma ReportIsPairwise(entries: seq<Entry>, files: seq<string>, pair: Pair)
    requires NulFree(entries)
    ensures HasPair(Group(Hits(entries, files)), pair) <==> exists i :: 0 <= i < |files| && SharedBy(entries, files[i], pair)
    ensures forall v :: v in Group(Hits(entries, files)) && v.pair == pair ==> v.files == Listing(entries, files, pair)
    ensures DistinctPairs(Group(Hits(entries, files)))
  {
    HitsAreSorted(entries, files);
    GroupIsFaithful(Hits(entries, files));
    FilesOfHits(entries, files, pair);
    ListingIsEmptyIff(entries, files, pair);
    hide SharedBy, Listing, Group, Hits, FilesOf, IsSortedPair;
    assert FilesOf(Hits(entries, files), pair) != [] <==> HasPair(Group(Hits(entries, files)), pair);
  }

  predicate HasPair(report: seq<Overlap>, pair: Pair) {
    exists i :: 0 <= i < |report| && report[i].pair == pair
  }

  predicate DistinctPairs(report: seq<Overlap>) {
    forall i, j :: 0 <= i < j < |report| ==> report[i].pair != report[j].pair
  }

  // ---------------------------------------------------------------- one listing per file, or several

  predicate Unnamed(docPath: string, entries: seq<Entry>) {
    forall i :: 0 <= i < |entries| ==> entries[i].docPath != docPath
  }

  predicate DistinctDocs(entries: seq<Entry>) {
    entries == [] || (Unnamed(entries[0].docPath, entries[1..]) && DistinctDocs(entries[1..]))
  }

  function SharedFiles(entries: seq<Entry>, files: seq<string>, pair: Pair): seq<string> {
    if files == [] then []
    else (if SharedBy(entries, files[0], pair) then [files[0]] else []) + SharedFiles(entries, files[1..], pair)
  }

  lemma {:induction false} OwnersStayUnnamed(docPath: string, entries: seq<Entry>, file: string)
    requires Unnamed(docPath, entries)
    ensures Unnamed(docPath, Owners(entries, file))
  {
    hide OwnsAny;
    if entries != [] { OwnersStayUnnamed(docPath, entries[1..], file); }
  }

  lemma {:induction false} OwnersKeepDistinct(entries: seq<Entry>, file: string)
    requires DistinctDocs(entries)
    ensures DistinctDocs(Owners(entries, file))
  {
    hide OwnsAny;
    if entries != [] {
      OwnersKeepDistinct(entries[1..], file);
      OwnersStayUnnamed(entries[0].docPath, entries[1..], file);
      var rest := Owners(entries[1..], file);
      assert ([entries[0]] + rest)[1..] == rest && [] + rest == rest;
    }
  }

  lemma {:induction false} RowNames(a: Entry, others: seq<Entry>, pair: Pair)
    requires pair in Row(a, others)
    ensures a.docPath == pair.0 || a.docPath == pair.1
    ensures pair.0 != a.docPath ==> !Unnamed(pair.0, others)
    ensures pair.1 != a.docPath ==> !Unnamed(pair.1, others)
  {
    RowHas(a, others, pair);
    var j :| 0 <= j < |others| && Sorted(a.docPath, others[j].docPath) == pair;
  }

  lemma {:induction false} PairNames(owners: seq<Entry>, pair: Pair)
    requires pair in Pairs(owners)
    ensures !Unnamed(pair.0, owners) && !Unnamed(pair.1, owners)
  {
    var rest := owners[1..];
    assert forall i :: 0 <= i < |rest| ==> rest[i] == owners[i + 1];
    if pair in Row(owners[0], rest) {
      RowNames(owners[0], rest, pair);
    } else {
      PairNames(rest, pair);
    }
  }

  lemma {:induction false} RowCountsOnce(a: Entry, others: seq<Entry>, pair: Pair)
    requires Unnamed(a.docPath, others) && DistinctDocs(others)
    ensures multiset(Row(a, others))[pair] <= 1
  {
    if others != [] {
      var first, rest := Sorted(a.docPath, others[0].docPath), others[1..];
      assert Row(a, others) == [first] + Row(a, rest);
      assert Unnamed(a.docPath, rest);
      RowCountsOnce(a, rest, pair);
      if first == pair && pair in Row(a, rest) {
        assert pair.0 != a.docPath ==> pair.0 == others[0].docPath;
        assert pair.1 != a.docPath ==> pair.1 == others[0].docPath;
        RowNames(a, rest, pair);
      }
    }
  }

  lemma {:induction false} CouplesAreUnique(owners: seq<Entry>, pair: Pair)
    requires DistinctDocs(owners)
    ensures multiset(Pairs(owners))[pair] <= 1
  {
    if owners != [] {
      var a, rest := owners[0], owners[1..];
      CouplesAreUnique(rest, pair);
      RowCountsOnce(a, rest, pair);
      if pair in Row(a, rest) { RowNames(a, rest, pair); }
      if pair in Pairs(rest) { PairNames(rest, pair); }
    }
  }

  lemma SortedEitherWay(a: string, b: string)
    ensures Sorted(a, b) == Sorted(b, a)
  {
    LessIsTotal(a, b);
  }

  /** A doc that stands in a row twice gives its pair with the other doc twice. */
  lemma {:induction false} TwiceInRow(a: Entry, others: seq<Entry>, i: nat, j: nat)
    requires i < j < |others| && others[i].docPath == others[j].docPath
    ensures multiset(Row(a, others))[Sorted(a.docPath, others[i].docPath)] >= 2
  {
    var pair, first, rest := Sorted(a.docPath, others[i].docPath), Sorted(a.docPath, others[0].docPath), others[1..];
    hide Sorted;
    assert Row(a, others) == [first] + Row(a, rest);
    if i == 0 {
      assert rest[j - 1] == others[j];
      RowHas(a, rest, pair);
      assert multiset(Row(a, rest))[pair] >= 1;
    } else {
      TwiceInRow(a, rest, i - 1, j - 1);
    }
  }

  lemma {:induction false} RepeatedDoc(entries: seq<Entry>) returns (i: nat, j: nat)
    requires !DistinctDocs(entries)
    ensures i < j < |entries| && entries[i].docPath == entries[j].docPath
  {
    if !Unnamed(entries[0].docPath, entries[1..]) {
      var k :| 0 <= k < |entries[1..]| && entries[1..][k].docPath == entries[0].docPath;
      i, j := 0, k + 1;
    } else {
      i, j := RepeatedDoc(entries[1..]);
      i, j := i + 1, j + 1;
    }
  }

  lemma {:induction false} PairsHave(owners: seq<Entry>, i: nat, j: nat)
    requires i < j < |owners|
    ensures Sorted(owners[i].docPath, owners[j].docPath) in Pairs(owners)
  {
    var rest := owners[1..];
    if i == 0 {
      assert rest[j - 1] == owners[j];
      RowHas(owners[0], rest, Sorted(owners[i].docPath, owners[j].docPath));
    } else {
      PairsHave(rest, i - 1, j - 1);
    }
  }

  /** Three owners with a doc among them twice: some couple of docs is counted twice. */
  lemma SomePairTwice(owners: seq<Entry>) returns (pair: Pair)
    requires |owners| > 2 && !DistinctDocs(owners)
    ensures multiset(Pairs(owners))[pair] >= 2
  {
    var first, rest := owners[0], owners[1..];
    var i, j := RepeatedDoc(owners);
    if i > 0 {
      pair := Sorted(first.docPath, rest[i - 1].docPath);
      TwiceInRow(first, rest, i - 1, j - 1);
    } else {
      var k := if j == 1 then 1 else 0;
      pair := Sorted(first.docPath, rest[k].docPath);
      SortedEitherWay(rest[k].docPath, rest[j - 1].docPath);
      PairsHave(rest, if k < j - 1 then k else j - 1, if k < j - 1 then j - 1 else k);
      RowHas(first, rest, pair);
      hide Sorted;
      assert multiset(Row(first, rest))[pair] >= 1 && multiset(Pairs(rest))[pair] >= 1;
    }
    hide Sorted, Row, DistinctDocs;
    assert Pairs(owners) == Row(first, rest) + Pairs(rest);
  }

  /** No couple of these owners has the same two docs as another. */
  ghost predicate CountsOnce(owners: seq<Entry>) {
    forall pair: Pair :: multiset(Pairs(owners))[pair] <= 1
  }

  /** What a caller can check of a file's owners: there are at most two of them, or none has another's doc. */
  predicate IsPlainlyOwned(owners: seq<Entry>) {
    |owners| <= 2 || DistinctDocs(owners)
  }

  lemma CountsOnceIff(owners: seq<Entry>)
    ensures CountsOnce(owners) <==> IsPlainlyOwned(owners)
  {
    if DistinctDocs(owners) {
      forall pair: Pair ensures multiset(Pairs(owners))[pair] <= 1 { CouplesAreUnique(owners, pair); }
    } else if |owners| > 2 {
      var pair := SomePairTwice(owners);
      assert !CountsOnce(owners);
    } else {
      AtMostOnePair(owners);
    }
  }

  lemma AtMostOnePair(owners: seq<Entry>)
    requires |owners| <= 2
    ensures CountsOnce(owners)
  {
    hide Sorted;
    assert Pairs([]) == [];
    if |owners| > 0 {
      var last := [owners[|owners| - 1]];
      assert last[1..] == [];
      NoRow(last[0]);
      assert Pairs(last) == [];
      if |owners| == 1 {
        assert owners == last;
      } else {
        assert owners[1..] == last;
        NoRow(owners[0]);
        assert Row(owners[0], last) == [Sorted(owners[0].docPath, owners[1].docPath)];
        assert |Pairs(owners)| == 1;
      }
    }
  }

  lemma CouplesCover(entries: seq<Entry>, file: string, pair: Pair)
    ensures Couples(entries, file, pair) > 0 <==> SharedBy(entries, file, pair)
  {
    CoupledIffShared(entries, file, pair);
    hide SharedBy;
    hide Owners;
  }

  predicate EachOnce(entries: seq<Entry>, files: seq<string>, pair: Pair) {
    files == [] || (Couples(entries, files[0], pair) <= 1 && EachOnce(entries, files[1..], pair))
  }

  lemma {:induction false} EachOnceIff(entries: seq<Entry>, files: seq<string>, pair: Pair)
    ensures EachOnce(entries, files, pair) <==> forall i :: 0 <= i < |files| ==> Couples(entries, files[i], pair) <= 1
  {
    hide Couples;
    if files != [] {
      EachOnceIff(entries, files[1..], pair);
      assert forall i :: 0 < i < |files| ==> files[i] == files[1..][i - 1];
    }
  }

  lemma RepeatCovers(file: string, n: nat, shared: bool)
    requires n > 0 <==> shared
    ensures var once := if shared then [file] else [];
            |Repeat(file, n)| == n >= |once| && (n <= 1 ==> Repeat(file, n) == once) && (n > 1 ==> n > |once|)
  {}

  /** The listing is at least as long as the shared files, and as long only if every couple is counted once. */
  lemma {:induction false} ListingCovers(entries: seq<Entry>, files: seq<string>, pair: Pair)
    ensures |Listing(entries, files, pair)| >= |SharedFiles(entries, files, pair)|
    ensures Listing(entries, files, pair) == SharedFiles(entries, files, pair) <==> EachOnce(entries, files, pair)
  {
    hide SharedBy, Couples, Repeat;
    if files != [] {
      var n, rest := Couples(entries, files[0], pair), files[1..];
      CouplesCover(entries, files[0], pair);
      RepeatCovers(files[0], n, SharedBy(entries, files[0], pair));
      ListingCovers(entries, rest, pair);
      if n <= 1 { SameBehind(Repeat(files[0], n), Listing(entries, rest, pair), SharedFiles(entries, rest, pair)); }
    }
  }

  lemma SameBehind<T>(front: seq<T>, a: seq<T>, b: seq<T>)
    ensures front + a == front + b <==> a == b
  {
    assert (front + a)[|front|..] == a && (front + b)[|front|..] == b;
  }

  ghost predicate ListsOnce(entries: seq<Entry>, files: seq<string>) {
    forall pair: Pair :: Listing(entries, files, pair) == SharedFiles(entries, files, pair)
  }

  predicate ArePlainlyOwned(entries: seq<Entry>, files: seq<string>) {
    forall i :: 0 <= i < |files| ==> IsPlainlyOwned(Owners(entries, files[i]))
  }

  lemma ListedOnceIsPlain(entries: seq<Entry>, files: seq<string>, i: nat)
    requires ListsOnce(entries, files) && i < |files|
    ensures IsPlainlyOwned(Owners(entries, files[i]))
  {
    hide IsPlainlyOwned, Listing, SharedFiles, Owners, Pairs;
    forall pair: Pair ensures multiset(Pairs(Owners(entries, files[i])))[pair] <= 1 {
      ListingCovers(entries, files, pair);
      EachOnceIff(entries, files, pair);
      assert Couples(entries, files[i], pair) <= 1;
    }
    CountsOnceIff(Owners(entries, files[i]));
  }

  lemma PlainIsListedOnce(entries: seq<Entry>, files: seq<string>, pair: Pair)
    requires ArePlainlyOwned(entries, files)
    ensures Listing(entries, files, pair) == SharedFiles(entries, files, pair)
  {
    hide IsPlainlyOwned, Listing, SharedFiles, Owners, Pairs;
    forall i | 0 <= i < |files| ensures Couples(entries, files[i], pair) <= 1 {
      CountsOnceIff(Owners(entries, files[i]));
    }
    EachOnceIff(entries, files, pair);
    ListingCovers(entries, files, pair);
  }

  /**
   * The violations list exactly the shared files, each once, if and only if no file is owned by three entries with a doc
   * among them twice.
   */
  lemma ListsEachFileOnceIff(entries: seq<Entry>, files: seq<string>)
    ensures ListsOnce(entries, files) <==> ArePlainlyOwned(entries, files)
  {
    hide Listing, SharedFiles, Owners, IsPlainlyOwned;
    if ListsOnce(entries, files) {
      forall i | 0 <= i < |files| ensures IsPlainlyOwned(Owners(entries, files[i])) { ListedOnceIsPlain(entries, files, i); }
    }
    if ArePlainlyOwned(entries, files) {
      forall pair: Pair ensures Listing(entries, files, pair) == SharedFiles(entries, files, pair) {
        PlainIsListedOnce(entries, files, pair);
      }
    }
  }

  /** So with one entry per doc they do. */
  lemma ListingIsTheSharedFiles(entries: seq<Entry>, files: seq<string>, pair: Pair)
    requires DistinctDocs(entries)
    ensures Listing(entries, files, pair) == SharedFiles(entries, files, pair)
  {
    forall i | 0 <= i < |files| ensures DistinctDocs(Owners(entries, files[i])) { OwnersKeepDistinct(entries, files[i]); }
    ListsEachFileOnceIff(entries, files);
  }

  /** And a doc indexed twice shares its file with a third entry twice over. */
  lemma DuplicateEntryListsAFileTwice(a: Entry, b: Entry, file: string)
    requires OwnsAny(a, [file]) && OwnsAny(b, [file]) && Less(a.docPath, b.docPath)
    ensures Listing([a, a, b], [file], (a.docPath, b.docPath)) == [file, file]
  {
    OwnerPairs(a, b, file);
    LessIsTotal(a.docPath, b.docPath);
    hide Owners, Pairs, Less, OwnsAny;
    assert [file][1..] == [] && Repeat(file, 2) == [file, file];
    assert multiset([(a.docPath, a.docPath), (a.docPath, b.docPath), (a.docPath, b.docPath)])[(a.docPath, b.docPath)] == 2;
  }

  lemma OwnerPairs(a: Entry, b: Entry, file: string)
    requires OwnsAny(a, [file]) && OwnsAny(b, [file]) && Less(a.docPath, b.docPath)
    ensures Pairs(Owners([a, a, b], file)) == [(a.docPath, a.docPath), (a.docPath, b.docPath), (a.docPath, b.docPath)]
  {
    LessIsTotal(a.docPath, b.docPath);
    LessIsTotal(a.docPath, a.docPath);
    hide OwnsAny, Less;
    assert [a, a, b][1..] == [a, b] && [a, b][1..] == [b] && [b][1..] == [];
    assert FindOwningEntries([b], [file]) == [b];
    assert FindOwningEntries([a, b], [file]) == [a, b];
    assert FindOwningEntries([a, a, b], [file]) == [a, a, b];
    hide FindOwningEntries;
    assert Row(a, [b]) == [(a.docPath, b.docPath)];
    assert Row(a, [a, b]) == [(a.docPath, a.docPath), (a.docPath, b.docPath)];
    hide Row, Sorted;
    assert Pairs([b]) == Row(b, []) by { assert Pairs([]) == []; }
    NoRow(b);
    assert Pairs([a, b]) == Row(a, [b]);
  }

  lemma NoRow(a: Entry)
    ensures Row(a, []) == []
  {}

  // ---------------------------------------------------------------- no regrowth, no overlap

  lemma {:induction false} OwnersAreActive(entries: seq<Entry>, file: string)
    ensures Owners(Active(entries), file) == Owners(entries, file)
  {
    if entries != [] {
      OwnersAreActive(entries[1..], file);
      hide MatchesGlob;
      var rest := Active(entries[1..]);
      assert ([entries[0]] + rest)[1..] == rest && [] + rest == rest;
      assert [] + Owners(rest, file) == Owners(rest, file);
    }
  }

  /** Whenever the syntactic regrowth check flags nothing, no two entries share a file: the report is empty. */
  lemma NoRegrowthNoOverlap(entries: seq<Entry>, files: seq<string>)
    requires FlagsFrom(Active(entries), 0, 1) == []
    ensures Group(Hits(entries, files)) == []
  {
    var active := Active(entries);
    NoFlagsIffNoOverlap(active);
    forall i | 0 <= i < |files| ensures Pairs(Owners(entries, files[i])) == [] {
      OwnersAreActive(entries, files[i]);
      if Pairs(Owners(entries, files[i])) != [] {
        var pair := Pairs(Owners(entries, files[i]))[0];
        CoupledIffShared(active, files[i], pair);
        var m, n :| 0 <= m < n < |active| && OwnsAny(active[m], [files[i]]) && OwnsAny(active[n], [files[i]])
                    && Sorted(active[m].docPath, active[n].docPath) == pair;
        SharedFileMeansOverlap(active[m], active[n], files[i]);
        assert false;
      }
    }
    NoHits(entries, files);
  }

  lemma SharedFileMeansOverlap(a: Entry, b: Entry, file: string)
    requires OwnsAny(a, [file]) && OwnsAny(b, [file])
    ensures EntriesOverlap(a, b)
  {
    var i, k :| 0 <= i < |a.ownedGlobs| && 0 <= k < |[file]| && MatchesGlob(a.ownedGlobs[i], [file][k]);
    var j, l :| 0 <= j < |b.ownedGlobs| && 0 <= l < |[file]| && MatchesGlob(b.ownedGlobs[j], [file][l]);
    OverlapIsSound(a.ownedGlobs[i], b.ownedGlobs[j], file);
  }

  lemma {:induction false} NoHits(entries: seq<Entry>, files: seq<string>)
    requires forall i :: 0 <= i < |files| ==> Pairs(Owners(entries, files[i])) == []
    ensures Hits(entries, files) == []
  {
    if files != [] {
      assert forall i :: 0 < i < |files| ==> files[i] == files[1..][i - 1];
      NoHits(entries, files[1..]);
    }
  }
}
