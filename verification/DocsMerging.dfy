/** Changes to the living-docs index that merge several entries into one, or put one in. */
module DocsMerging {
  import opened JsStrings
  import opened Globs
  import opened DocsRegistry
  import opened DocsRepairs

  // ---------------------------------------------------------------- unions

  function Flatten(lists: seq<seq<string>>): seq<string> {
    if lists == [] then [] else lists[0] + Flatten(lists[1..])
  }

  /** Each item once, at its first place. */
  function Distinct(items: seq<string>): seq<string> {
    if items == [] then []
    else
      var front, last := Distinct(items[..|items| - 1]), Last(items);
      if last in front then front else front + [last]
  }

  predicate IsDistinct(items: seq<string>) {
    forall i, j :: 0 <= i < j < |items| ==> items[i] != items[j]
  }

  lemma {:induction false} DistinctHasTheSame(items: seq<string>, x: string)
    ensures x in Distinct(items) <==> x in items
    ensures IsDistinct(Distinct(items))
  {
    if items != [] {
      DistinctHasTheSame(items[..|items| - 1], x);
      DistinctHasTheSame(items[..|items| - 1], Last(items));
      assert items == items[..|items| - 1] + [Last(items)];
    }
  }

  lemma {:induction false} DistinctOfDistinct(items: seq<string>)
    requires IsDistinct(items)
    ensures Distinct(items) == items
  {
    if items != [] {
      DistinctOfDistinct(items[..|items| - 1]);
      assert items == items[..|items| - 1] + [Last(items)];
    }
  }

  lemma {:induction false} FlattenOfConcat(a: seq<seq<string>>, b: seq<seq<string>>)
    ensures Flatten(a + b) == Flatten(a) + Flatten(b)
  {
    if a == [] {
      assert a + b == b;
    } else {
      assert (a + b)[1..] == a[1..] + b;
      FlattenOfConcat(a[1..], b);
    }
  }

  lemma {:induction false} InSomeList(lists: seq<seq<string>>, x: string)
    ensures x in Flatten(lists) <==> exists i :: 0 <= i < |lists| && x in lists[i]
  {
    if lists != [] {
      InSomeList(lists[1..], x);
      if x in Flatten(lists[1..]) {
        var i :| 0 <= i < |lists[1..]| && x in lists[1..][i];
        assert x in lists[i + 1];
      }
      if i :| 0 <= i < |lists| && x in lists[i] {
        assert i > 0 ==> x in lists[1..][i - 1];
      }
    }
  }

  lemma DistinctSnoc(items: seq<string>, x: string)
    ensures Distinct(items + [x]) == Distinct(items) + if x in Distinct(items) then [] else [x]
  {
    assert (items + [x])[..|items|] == items;
  }

  lemma FlattenSnoc(lists: seq<seq<string>>, i: nat)
    requires i < |lists|
    ensures Flatten(lists[..i + 1]) == Flatten(lists[..i]) + lists[i]
  {
    FlattenOfConcat(lists[..i], [lists[i]]);
    assert lists[..i] + [lists[i]] == lists[..i + 1];
    assert Flatten([lists[i]]) == lists[i];
  }

  method UnionDistinct(lists: seq<seq<string>>) returns (result: seq<string>)
    ensures result == Distinct(Flatten(lists))
  {
    var seen: set<string> := {};
    result := [];
    ghost var items: seq<string> := [];
    assert Flatten(lists[..0]) == [];
    hide Distinct, Flatten;
    NothingDistinct();
    for i := 0 to |lists|
      invariant items == Flatten(lists[..i]) && result == Distinct(items)
      invariant forall x :: x in seen <==> x in result
    {
      ghost var before := items;
      for j := 0 to |lists[i]|
        invariant items == before + lists[i][..j] && result == Distinct(items)
        invariant forall x :: x in seen <==> x in result
      {
        var item := lists[i][j];
        DistinctSnoc(items, item);
        items := items + [item];
        if item !in seen {
          seen := seen + {item};
          result := result + [item];
        }
      }
      FlattenSnoc(lists, i);
    }
    assert lists[..|lists|] == lists;
  }

  lemma NothingDistinct()
    ensures Distinct([]) == []
  {}

  // ---------------------------------------------------------------- collapsing

  function Members(entries: seq<Entry>, docs: set<string>): seq<Entry> {
    if entries == [] then []
    else (if entries[0].docPath in docs then [entries[0]] else []) + Members(entries[1..], docs)
  }

  function Others(entries: seq<Entry>, docs: set<string>): seq<Entry> {
    if entries == [] then []
    else (if entries[0].docPath in docs then [] else [entries[0]]) + Others(entries[1..], docs)
  }

  function OwnedBy(entries: seq<Entry>): seq<seq<string>> {
    if entries == [] then [] else [entries[0].ownedGlobs] + OwnedBy(entries[1..])
  }

  function DecidedBy(entries: seq<Entry>): seq<seq<string>> {
    if entries == [] then [] else [entries[0].decisions] + DecidedBy(entries[1..])
  }

  /** The first entry that is collapsed; the number of entries when none is. */
  function FirstIndex(entries: seq<Entry>, docs: set<string>): (k: nat)
    ensures k <= |entries|
    ensures k < |entries| ==> entries[k].docPath in docs
    ensures forall i :: 0 <= i < k ==> entries[i].docPath !in docs
  {
    if entries == [] || entries[0].docPath in docs then 0 else 1 + FirstIndex(entries[1..], docs)
  }

  function Merged(entries: seq<Entry>, docs: set<string>, docPath: string, conditions: seq<string>): Entry {
    var members := Members(entries, docs);
    Entry(docPath, Distinct(Flatten(OwnedBy(members))), conditions, Distinct(Flatten(DecidedBy(members))))
  }

  /** The merged entry stands in the place of the first one, and the others stay where they are. */
  function Collapse(entries: seq<Entry>, docs: set<string>, docPath: string, conditions: seq<string>): seq<Entry> {
    var k := FirstIndex(entries, docs);
    if k == |entries| then entries
    else entries[..k] + [Merged(entries, docs, docPath, conditions)] + Others(entries[k + 1..], docs)
  }

  function Pruned(docPaths: seq<string>, docPath: string): seq<string> {
    if docPaths == [] then []
    else (if docPaths[0] != docPath then [docPaths[0]] else []) + Pruned(docPaths[1..], docPath)
  }

  function SetOf(docPaths: seq<string>): set<string> {
    set p | p in docPaths
  }

  method Gather(entries: seq<Entry>, docs: set<string>) returns (members: seq<Entry>)
    ensures members == Members(entries, docs)
  {
    members := [];
    for i := 0 to |entries|
      invariant members + Members(entries[i..], docs) == Members(entries, docs)
    {
      assert entries[i..][1..] == entries[i + 1..];
      if entries[i].docPath in docs { members := members + [entries[i]]; }
    }
  }

  method Lists(members: seq<Entry>) returns (globs: seq<seq<string>>, decisions: seq<seq<string>>)
    ensures globs == OwnedBy(members) && decisions == DecidedBy(members)
  {
    globs, decisions := [], [];
    for i := 0 to |members|
      invariant globs + OwnedBy(members[i..]) == OwnedBy(members)
      invariant decisions + DecidedBy(members[i..]) == DecidedBy(members)
    {
      assert members[i..][1..] == members[i + 1..];
      globs, decisions := globs + [members[i].ownedGlobs], decisions + [members[i].decisions];
    }
  }

  /** The entries so far: those before the first collapsed one, then the merged one and the others. */
  function KeptSoFar(entries: seq<Entry>, docs: set<string>, merged: Entry, i: nat): seq<Entry>
    requires i <= |entries|
  {
    var k := FirstIndex(entries, docs);
    if i <= k then entries[..i] else entries[..k] + [merged] + Others(entries[k + 1..i], docs)
  }

  lemma {:induction false} OthersSnoc(entries: seq<Entry>, e: Entry, docs: set<string>)
    ensures Others(entries + [e], docs) == Others(entries, docs) + if e.docPath in docs then [] else [e]
  {
    if entries == [] {
      assert [] + [e] == [e] && [e][1..] == [];
    } else {
      OthersOfCons(entries[0], entries[1..], docs);
      OthersOfCons(entries[0], entries[1..] + [e], docs);
      hide Others;
      assert entries == [entries[0]] + entries[1..] && entries + [e] == [entries[0]] + (entries[1..] + [e]);
      OthersSnoc(entries[1..], e, docs);
    }
  }

  lemma OthersOfCons(e: Entry, rest: seq<Entry>, docs: set<string>)
    ensures Others([e] + rest, docs) == (if e.docPath in docs then [] else [e]) + Others(rest, docs)
  {
    assert ([e] + rest)[1..] == rest;
  }

  lemma KeptOneMore(entries: seq<Entry>, docs: set<string>, merged: Entry, i: nat)
    requires i < |entries|
    ensures
      var e, k := entries[i], FirstIndex(entries, docs);
      KeptSoFar(entries, docs, merged, i + 1) ==
        KeptSoFar(entries, docs, merged, i) + if e.docPath !in docs then [e] else if i == k then [merged] else []
  {
    var k := FirstIndex(entries, docs);
    if i > k {
      assert entries[k + 1..i + 1] == entries[k + 1..i] + [entries[i]];
      OthersSnoc(entries[k + 1..i], entries[i], docs);
    } else if i == k {
      assert entries[k + 1..i + 1] == [];
    }
  }

  lemma {:induction false} NoMembersIff(entries: seq<Entry>, docs: set<string>)
    ensures Members(entries, docs) == [] <==> FirstIndex(entries, docs) == |entries|
  {
    if entries != [] { NoMembersIff(entries[1..], docs); }
  }

  method CollapseEntries(registry: Registry, docPathsToCollapse: seq<string>, docPath: string, conditions: seq<string>)
      returns (collapsed: Registry, pruned: seq<string>)
    ensures var docs := SetOf(docPathsToCollapse);
            && collapsed == registry.(entries := Collapse(registry.entries, docs, docPath, conditions))
            && pruned == if Members(registry.entries, docs) == [] then [] else Pruned(docPathsToCollapse, docPath)
  {
    var collapseSet := SetOf(docPathsToCollapse);
    var members := Gather(registry.entries, collapseSet);
    NoMembersIff(registry.entries, collapseSet);
    if members == [] { return registry, []; }
    var globs, decisions := Lists(members);
    var ownedGlobs := UnionDistinct(globs);
    var allDecisions := UnionDistinct(decisions);
    var mergedEntry := Entry(docPath, ownedGlobs, conditions, allDecisions);
    var kept := KeepWith(registry.entries, collapseSet, mergedEntry);
    hide Others;
    assert registry.entries[FirstIndex(registry.entries, collapseSet) + 1..|registry.entries|] ==
           registry.entries[FirstIndex(registry.entries, collapseSet) + 1..];
    collapsed := registry.(entries := kept);
    pruned := Prune(docPathsToCollapse, docPath);
  }

  /** Every entry but the collapsed ones, and the merged entry in the place of the first of those. */
  method KeepWith(entries: seq<Entry>, docs: set<string>, merged: Entry) returns (kept: seq<Entry>)
    ensures kept == KeptSoFar(entries, docs, merged, |entries|)
  {
    kept := [];
    var inserted := false;
    hide KeptSoFar;
    KeptFirst(entries, docs, merged);
    for i := 0 to |entries|
      invariant kept == KeptSoFar(entries, docs, merged, i)
      invariant inserted <==> FirstIndex(entries, docs) < i
    {
      KeptOneMore(entries, docs, merged, i);
      if entries[i].docPath in docs {
        if !inserted {
          kept := kept + [merged];
          inserted := true;
        }
      } else {
        kept := kept + [entries[i]];
      }
    }
  }

  lemma KeptFirst(entries: seq<Entry>, docs: set<string>, merged: Entry)
    ensures KeptSoFar(entries, docs, merged, 0) == []
  {}

  lemma NextPruned(docPaths: seq<string>, docPath: string, i: nat)
    requires i < |docPaths|
    ensures Pruned(docPaths[i..], docPath) == (if docPaths[i] != docPath then [docPaths[i]] else []) + Pruned(docPaths[i + 1..], docPath)
  {
    assert docPaths[i..][1..] == docPaths[i + 1..];
  }

  lemma NonePruned(docPath: string)
    ensures Pruned([], docPath) == []
  {}

  method Prune(docPaths: seq<string>, docPath: string) returns (pruned: seq<string>)
    ensures pruned == Pruned(docPaths, docPath)
  {
    hide Pruned;
    pruned := [];
    assert docPaths[0..] == docPaths;
    for i := 0 to |docPaths|
      invariant pruned + Pruned(docPaths[i..], docPath) == Pruned(docPaths, docPath)
    {
      NextPruned(docPaths, docPath, i);
      if docPaths[i] != docPath { pruned := pruned + [docPaths[i]]; }
    }
    NonePruned(docPath);
    assert docPaths[|docPaths|..] == [];
  }

  // ---------------------------------------------------------------- who owns what afterwards

  predicate IsGlobOfSome(members: seq<Entry>, glob: string) {
    exists m :: 0 <= m < |members| && glob in members[m].ownedGlobs
  }

  lemma GlobOfSomeUnfolds(members: seq<Entry>, glob: string)
    requires members != []
    ensures IsGlobOfSome(members, glob) <==> glob in members[0].ownedGlobs || IsGlobOfSome(members[1..], glob)
  {
    var rest := members[1..];
    if m :| 0 <= m < |rest| && glob in rest[m].ownedGlobs { assert glob in members[m + 1].ownedGlobs; }
    if m :| 0 <= m < |members| && glob in members[m].ownedGlobs { assert m > 0 ==> glob in rest[m - 1].ownedGlobs; }
  }

  lemma FlattenUnfolds(members: seq<Entry>)
    requires members != []
    ensures Flatten(OwnedBy(members)) == members[0].ownedGlobs + Flatten(OwnedBy(members[1..]))
  {
    assert OwnedBy(members)[1..] == OwnedBy(members[1..]);
  }

  lemma {:induction false} GlobsOfMembers(members: seq<Entry>, glob: string)
    ensures glob in Flatten(OwnedBy(members)) <==> IsGlobOfSome(members, glob)
  {
    if members != [] {
      hide Flatten, OwnedBy, IsGlobOfSome;
      FlattenUnfolds(members);
      GlobOfSomeUnfolds(members, glob);
      GlobsOfMembers(members[1..], glob);
    }
  }

  predicate HitsAny(glob: string, paths: seq<string>) {
    exists j :: 0 <= j < |paths| && MatchesGlob(glob, paths[j])
  }

  lemma OwnsThroughAGlob(e: Entry, paths: seq<string>)
    ensures OwnsAny(e, paths) <==> exists i :: 0 <= i < |e.ownedGlobs| && HitsAny(e.ownedGlobs[i], paths)
  {
    hide MatchesGlob;
    if OwnsAny(e, paths) {
      var i, j :| 0 <= i < |e.ownedGlobs| && 0 <= j < |paths| && MatchesGlob(e.ownedGlobs[i], paths[j]);
      assert HitsAny(e.ownedGlobs[i], paths);
    }
    if i :| 0 <= i < |e.ownedGlobs| && HitsAny(e.ownedGlobs[i], paths) {
      var j :| 0 <= j < |paths| && MatchesGlob(e.ownedGlobs[i], paths[j]);
    }
  }

  lemma MergedGlobs(entries: seq<Entry>, docs: set<string>, docPath: string, conditions: seq<string>)
    ensures Merged(entries, docs, docPath, conditions).ownedGlobs == Distinct(Flatten(OwnedBy(Members(entries, docs))))
  {}

  lemma MergedHasTheirGlobs(entries: seq<Entry>, docs: set<string>, docPath: string, conditions: seq<string>, glob: string)
    ensures glob in Merged(entries, docs, docPath, conditions).ownedGlobs <==> IsGlobOfSome(Members(entries, docs), glob)
  {
    hide Members, Merged, OwnedBy, Flatten, Distinct, IsGlobOfSome;
    var members := Members(entries, docs);
    MergedGlobs(entries, docs, docPath, conditions);
    DistinctHasTheSame(Flatten(OwnedBy(members)), glob);
    GlobsOfMembers(members, glob);
  }

  /** Every decision of a merged entry stays on record, and no other is. */
  lemma MergedHasTheirDecisions(entries: seq<Entry>, docs: set<string>, docPath: string, conditions: seq<string>, decision: string)
    ensures var merged := Merged(entries, docs, docPath, conditions);
            && merged.docPath == docPath && merged.conditions == conditions
            && (decision in merged.decisions <==>
                  exists i :: 0 <= i < |entries| && entries[i].docPath in docs && decision in entries[i].decisions)
  {
    var members := Members(entries, docs);
    DecisionsOfMembers(members, decision);
    DistinctHasTheSame(Flatten(DecidedBy(members)), decision);
    hide Flatten, DecidedBy, Distinct, OwnedBy;
    forall e ensures e in members <==> exists i :: 0 <= i < |entries| && entries[i].docPath in docs && entries[i] == e {
      MembersAre(entries, docs, e);
    }
    hide Members;
    if i :| 0 <= i < |entries| && entries[i].docPath in docs && decision in entries[i].decisions { assert entries[i] in members; }
  }

  lemma {:induction false} DecisionsOfMembers(members: seq<Entry>, decision: string)
    ensures decision in Flatten(DecidedBy(members)) <==> exists e :: e in members && decision in e.decisions
  {
    if members != [] {
      DecisionsOfMembers(members[1..], decision);
      FirstDecides(members);
      hide Flatten, DecidedBy;
      if e :| e in members[1..] && decision in e.decisions { assert e in members; }
      if e :| e in members && decision in e.decisions { assert e == members[0] || e in members[1..]; }
    }
  }

  lemma FirstDecides(members: seq<Entry>)
    requires members != []
    ensures Flatten(DecidedBy(members)) == members[0].decisions + Flatten(DecidedBy(members[1..]))
  {
    assert DecidedBy(members)[1..] == DecidedBy(members[1..]);
  }

  lemma {:induction false} MembersAre(entries: seq<Entry>, docs: set<string>, e: Entry)
    ensures e in Members(entries, docs) <==> exists i :: 0 <= i < |entries| && entries[i].docPath in docs && entries[i] == e
  {
    if entries != [] {
      MembersAre(entries[1..], docs, e);
      assert forall i :: 0 < i < |entries| ==> entries[i] == entries[1..][i - 1];
      if i :| 0 <= i < |entries[1..]| && entries[1..][i].docPath in docs && entries[1..][i] == e { assert entries[i + 1] == e; }
    }
  }

  function FirstPlace(items: seq<string>, x: string): (k: nat)
    ensures k <= |items| && (k < |items| ==> items[k] == x) && forall i :: 0 <= i < k ==> items[i] != x
  {
    if items == [] || items[0] == x then 0 else 1 + FirstPlace(items[1..], x)
  }

  lemma FirstPlaceOfFront(items: seq<string>, x: string)
    requires items != [] && x in items[..|items| - 1]
    ensures FirstPlace(items, x) == FirstPlace(items[..|items| - 1], x) < |items| - 1
  {
    var front := items[..|items| - 1];
    var k := FirstPlace(front, x);
    assert k < |front| ==> items[k] == front[k];
    assert forall i :: 0 <= i < |front| ==> items[i] == front[i];
    hide FirstPlace;
  }

  /** Items that are kept once stand in the order of their first places. */
  lemma {:induction false} DistinctKeepsOrder(items: seq<string>)
    ensures forall i, j :: 0 <= i < j < |Distinct(items)| ==> FirstPlace(items, Distinct(items)[i]) < FirstPlace(items, Distinct(items)[j])
    decreases |items|
  {
    if items != [] {
      var front := items[..|items| - 1];
      DistinctKeepsOrder(front);
      forall i | 0 <= i < |Distinct(front)|
        ensures FirstPlace(items, Distinct(front)[i]) == FirstPlace(front, Distinct(front)[i]) < |front|
      {
        DistinctHasTheSame(front, Distinct(front)[i]);
        FirstPlaceOfFront(items, Distinct(front)[i]);
      }
      DistinctHasTheSame(front, Last(items));
      if Last(items) !in front { assert FirstPlace(items, Last(items)) == |front|; }
    }
  }

  /** The pruned paths are the collapsed ones, but for the path the merged entry takes. */
  lemma {:induction false} PrunedIff(docPaths: seq<string>, docPath: string, p: string)
    ensures p in Pruned(docPaths, docPath) <==> p in docPaths && p != docPath
  {
    if docPaths != [] { PrunedIff(docPaths[1..], docPath, p); }
  }

  predicate SomeMemberOwns(entries: seq<Entry>, docs: set<string>, paths: seq<string>) {
    exists m :: 0 <= m < |Members(entries, docs)| && OwnsAny(Members(entries, docs)[m], paths)
  }

  lemma OwnsBecause(e: Entry, glob: string, paths: seq<string>)
    requires glob in e.ownedGlobs && HitsAny(glob, paths)
    ensures OwnsAny(e, paths)
  {
    OwnsThroughAGlob(e, paths);
    hide HitsAny, OwnsAny;
    var i :| 0 <= i < |e.ownedGlobs| && e.ownedGlobs[i] == glob;
  }

  lemma BecauseOf(e: Entry, paths: seq<string>) returns (glob: string)
    requires OwnsAny(e, paths)
    ensures glob in e.ownedGlobs && HitsAny(glob, paths)
  {
    OwnsThroughAGlob(e, paths);
    hide HitsAny, OwnsAny;
    var i :| 0 <= i < |e.ownedGlobs| && HitsAny(e.ownedGlobs[i], paths);
    glob := e.ownedGlobs[i];
  }

  /** The merged entry owns a file exactly when one of the entries merged into it did. */
  lemma MergedOwnsIff(entries: seq<Entry>, docs: set<string>, docPath: string, conditions: seq<string>, paths: seq<string>)
    ensures OwnsAny(Merged(entries, docs, docPath, conditions), paths) <==> SomeMemberOwns(entries, docs, paths)
  {
    hide Members, Merged, OwnsAny, HitsAny;
    var members, merged := Members(entries, docs), Merged(entries, docs, docPath, conditions);
    if OwnsAny(merged, paths) {
      var glob := BecauseOf(merged, paths);
      MergedHasTheirGlobs(entries, docs, docPath, conditions, glob);
      var m :| 0 <= m < |members| && glob in members[m].ownedGlobs;
      OwnsBecause(members[m], glob, paths);
    }
    if m :| 0 <= m < |members| && OwnsAny(members[m], paths) {
      var glob := BecauseOf(members[m], paths);
      assert IsGlobOfSome(members, glob);
      MergedHasTheirGlobs(entries, docs, docPath, conditions, glob);
      OwnsBecause(merged, glob, paths);
    }
  }

  lemma OwnersOfCons(e: Entry, rest: seq<Entry>, paths: seq<string>)
    ensures FindOwningEntries([e] + rest, paths) == (if OwnsAny(e, paths) then [e] else []) + FindOwningEntries(rest, paths)
  {
    hide OwnsAny;
    assert ([e] + rest)[1..] == rest;
  }

  lemma {:induction false} OwnersOfConcat(a: seq<Entry>, b: seq<Entry>, paths: seq<string>)
    ensures FindOwningEntries(a + b, paths) == FindOwningEntries(a, paths) + FindOwningEntries(b, paths)
    decreases |a|
  {
    hide OwnsAny;
    if a == [] {
      assert a + b == b;
    } else {
      hide FindOwningEntries;
      OwnersOfCons(a[0], a[1..], paths);
      OwnersOfCons(a[0], a[1..] + b, paths);
      assert a == [a[0]] + a[1..] && a + b == [a[0]] + (a[1..] + b);
      OwnersOfConcat(a[1..], b, paths);
    }
  }

  lemma {:induction false} OwnersAmongOthers(entries: seq<Entry>, docs: set<string>, paths: seq<string>)
    ensures FindOwningEntries(Others(entries, docs), paths) == Others(FindOwningEntries(entries, paths), docs)
  {
    hide OwnsAny;
    if entries != [] {
      var e, owning, others := entries[0], FindOwningEntries(entries[1..], paths), Others(entries[1..], docs);
      OwnersAmongOthers(entries[1..], docs, paths);
      assert ([e] + owning)[1..] == owning && ([e] + others)[1..] == others;
      assert [] + owning == owning && [] + others == others;
      assert [] + FindOwningEntries(others, paths) == FindOwningEntries(others, paths);
      assert [] + Others(owning, docs) == Others(owning, docs);
    }
  }

  /**
   * No file changes hands except among the merged: its owners are those of before, with the merged entry in the place of the
   * first collapsed one standing for every collapsed owner.
   */
  lemma OwnersAfterCollapse(entries: seq<Entry>, docs: set<string>, docPath: string, conditions: seq<string>, paths: seq<string>)
    requires FirstIndex(entries, docs) < |entries|
    ensures
      var k := FirstIndex(entries, docs);
      FindOwningEntries(Collapse(entries, docs, docPath, conditions), paths) ==
        FindOwningEntries(entries[..k], paths)
        + (if SomeMemberOwns(entries, docs, paths) then [Merged(entries, docs, docPath, conditions)] else [])
        + Others(FindOwningEntries(entries[k + 1..], paths), docs)
  {
    var k, merged := FirstIndex(entries, docs), Merged(entries, docs, docPath, conditions);
    hide OwnsAny, Merged, Others, Members, FindOwningEntries, SomeMemberOwns;
    MergedOwnsIff(entries, docs, docPath, conditions, paths);
    OwnersAmongOthers(entries[k + 1..], docs, paths);
    OwnersOfConcat(entries[..k] + [merged], Others(entries[k + 1..], docs), paths);
    OwnersOfConcat(entries[..k], [merged], paths);
    OwnersOfOne(merged, paths);
  }

  lemma OwnersOfOne(e: Entry, paths: seq<string>)
    ensures FindOwningEntries([e], paths) == if OwnsAny(e, paths) then [e] else []
  {
    hide OwnsAny;
    assert [e][1..] == [];
  }

  // ---------------------------------------------------------------- collapsing twice, and writing the result

  lemma {:induction false} MembersOfConcat(a: seq<Entry>, b: seq<Entry>, docs: set<string>)
    ensures Members(a + b, docs) == Members(a, docs) + Members(b, docs)
    decreases |a|
  {
    if a == [] {
      assert a + b == b;
    } else {
      assert (a + b)[1..] == a[1..] + b;
      MembersOfConcat(a[1..], b, docs);
    }
  }

  lemma {:induction false} OthersHaveNoMembers(entries: seq<Entry>, docs: set<string>)
    ensures Members(Others(entries, docs), docs) == [] && Others(Others(entries, docs), docs) == Others(entries, docs)
  {
    if entries != [] {
      var others := Others(entries[1..], docs);
      OthersHaveNoMembers(entries[1..], docs);
      assert ([entries[0]] + others)[1..] == others && [] + others == others && [] + Members(others, docs) == Members(others, docs);
    }
  }

  lemma {:induction false} FrontHasNoMembers(entries: seq<Entry>, docs: set<string>)
    requires forall i :: 0 <= i < |entries| ==> entries[i].docPath !in docs
    ensures Members(entries, docs) == []
  {
    if entries != [] { FrontHasNoMembers(entries[1..], docs); }
  }

  lemma {:induction false} FirstIndexOf(front: seq<Entry>, e: Entry, back: seq<Entry>, docs: set<string>)
    requires forall i :: 0 <= i < |front| ==> front[i].docPath !in docs
    requires e.docPath in docs
    ensures FirstIndex(front + [e] + back, docs) == |front|
  {
    var all := front + [e] + back;
    assert all[|front|] == e;
    assert forall i :: 0 <= i < |front| ==> all[i] == front[i];
  }

  /** Collapsing what is collapsed already changes nothing. */
  lemma CollapseIsIdempotent(entries: seq<Entry>, docs: set<string>, docPath: string, conditions: seq<string>)
    ensures
      var once := Collapse(entries, docs, docPath, conditions);
      Collapse(once, docs, docPath, conditions) == once
  {
    var k := FirstIndex(entries, docs);
    if k < |entries| {
      var merged, others := Merged(entries, docs, docPath, conditions), Others(entries[k + 1..], docs);
      var once := entries[..k] + [merged] + others;
      OthersHaveNoMembers(entries[k + 1..], docs);
      FrontHasNoMembers(entries[..k], docs);
      MembersOfConcat(entries[..k] + [merged], others, docs);
      MembersOfConcat(entries[..k], [merged], docs);
      if docPath in docs {
        FirstIndexOf(entries[..k], merged, others, docs);
        assert once[..k] == entries[..k] && once[k + 1..] == others;
        assert Members(once, docs) == [merged] by { assert [merged][1..] == []; }
        MergedOfOne(once, docs, merged, docPath, conditions);
        DistinctHasTheSame(Flatten(OwnedBy(Members(entries, docs))), "");
        DistinctHasTheSame(Flatten(DecidedBy(Members(entries, docs))), "");
        DistinctOfDistinct(merged.ownedGlobs);
        DistinctOfDistinct(merged.decisions);
      } else {
        NoMembersIff(once, docs);
      }
    }
  }

  lemma MergedOfOne(entries: seq<Entry>, docs: set<string>, e: Entry, docPath: string, conditions: seq<string>)
    requires Members(entries, docs) == [e]
    ensures Merged(entries, docs, docPath, conditions) == Entry(docPath, Distinct(e.ownedGlobs), conditions, Distinct(e.decisions))
  {
    assert [e][1..] == [];
    assert OwnedBy([e]) == [e.ownedGlobs] && DecidedBy([e]) == [e.decisions];
    assert Flatten([e.ownedGlobs]) == e.ownedGlobs && Flatten([e.decisions]) == e.decisions;
  }

  lemma {:induction false} MembersNewlineFree(entries: seq<Entry>, docs: set<string>)
    requires AllNewlineFree(entries)
    ensures AllNewlineFree(Members(entries, docs)) && AllNewlineFree(Others(entries, docs))
  {
    if entries != [] {
      assert NewlineFree(entries[0]);
      MembersNewlineFree(entries[1..], docs);
    }
  }

  lemma {:induction false} UnionsWithout(members: seq<Entry>)
    requires AllNewlineFree(members)
    ensures Without(Flatten(OwnedBy(members)), '\n') && Without(Flatten(DecidedBy(members)), '\n')
  {
    if members != [] {
      assert NewlineFree(members[0]);
      UnionsWithout(members[1..]);
      assert OwnedBy(members)[1..] == OwnedBy(members[1..]) && DecidedBy(members)[1..] == DecidedBy(members[1..]);
    }
  }

  lemma {:induction false} DistinctWithout(items: seq<string>)
    requires Without(items, '\n')
    ensures Without(Distinct(items), '\n')
  {
    if items != [] { DistinctWithout(items[..|items| - 1]); }
  }

  lemma MergedIsNewlineFreeIff(entries: seq<Entry>, docs: set<string>, docPath: string, conditions: seq<string>)
    requires AllNewlineFree(entries)
    ensures NewlineFree(Merged(entries, docs, docPath, conditions)) <==> '\n' !in docPath && Without(conditions, '\n')
  {
    var members := Members(entries, docs);
    MembersNewlineFree(entries, docs);
    UnionsWithout(members);
    DistinctWithout(Flatten(OwnedBy(members)));
    DistinctWithout(Flatten(DecidedBy(members)));
    hide Members, OwnedBy, DecidedBy, Flatten, Distinct;
  }

  lemma CollapseIsNewlineFreeIff(entries: seq<Entry>, docs: set<string>, docPath: string, conditions: seq<string>)
    requires AllNewlineFree(entries)
    ensures AllNewlineFree(Collapse(entries, docs, docPath, conditions)) <==>
            FirstIndex(entries, docs) == |entries| || ('\n' !in docPath && Without(conditions, '\n'))
  {
    hide NewlineFree, Merged, Others, FirstIndex, Without;
    var k := FirstIndex(entries, docs);
    MergedIsNewlineFreeIff(entries, docs, docPath, conditions);
    if k < |entries| {
      MembersNewlineFree(entries[k + 1..], docs);
      OneNewlineDecides(entries[..k], Merged(entries, docs, docPath, conditions), Others(entries[k + 1..], docs));
    }
  }

  lemma OneNewlineDecides(front: seq<Entry>, e: Entry, back: seq<Entry>)
    requires AllNewlineFree(front) && AllNewlineFree(back)
    ensures AllNewlineFree(front + [e] + back) <==> NewlineFree(e)
  {
    hide NewlineFree;
    var all := front + [e] + back;
    if AllNewlineFree(all) { assert all[|front|] == e; }
  }

  /**
   * A collapsed canonical index reads back as itself if and only if nothing was collapsed, or the merged path and
   * conditions are free of newlines.
   */
  lemma CollapsedIndexReadsBackIff(r: Registry, docs: set<string>, docPath: string, conditions: seq<string>)
    requires Canonical(r)
    ensures var collapsed := r.(entries := Collapse(r.entries, docs, docPath, conditions));
            Parse(Serialize(collapsed)) == collapsed <==>
            FirstIndex(r.entries, docs) == |r.entries| || ('\n' !in docPath && Without(conditions, '\n'))
  {
    var collapsed := r.(entries := Collapse(r.entries, docs, docPath, conditions));
    CollapseIsNewlineFreeIff(r.entries, docs, docPath, conditions);
    RoundTripIffCanonical(collapsed);
    hide Parse, Serialize, AllNewlineFree, HasEntryLine, EndsWith, IsBlank;
  }

  // ---------------------------------------------------------------- putting an entry in

  function IndexOf(entries: seq<Entry>, docPath: string): (k: nat)
    ensures k <= |entries|
    ensures k < |entries| ==> entries[k].docPath == docPath
    ensures forall i :: 0 <= i < k ==> entries[i].docPath != docPath
  {
    if entries == [] || entries[0].docPath == docPath then 0 else 1 + IndexOf(entries[1..], docPath)
  }

  function UpsertEntry(entries: seq<Entry>, e: Entry): seq<Entry> {
    var k := IndexOf(entries, e.docPath);
    if k == |entries| then entries + [e] else entries[k := e]
  }

  lemma FirstPlaceIsIndex(entries: seq<Entry>, docPath: string, k: nat)
    requires k < |entries| && entries[k].docPath == docPath
    requires forall i :: 0 <= i < k ==> entries[i].docPath != docPath
    ensures IndexOf(entries, docPath) == k
  {}

  /** The last write for a doc wins, and it changes no entry but the first one of that doc. */
  lemma LastUpsertWins(entries: seq<Entry>, first: Entry, second: Entry)
    requires first.docPath == second.docPath
    ensures UpsertEntry(UpsertEntry(entries, first), second) == UpsertEntry(entries, second)
    ensures var k, after := IndexOf(entries, second.docPath), UpsertEntry(entries, second);
            && k < |after| && after[k] == second && |after| == |entries| + (if k == |entries| then 1 else 0)
            && forall i :: 0 <= i < |entries| && i != k ==> after[i] == entries[i]
  {
    var k, once := IndexOf(entries, first.docPath), UpsertEntry(entries, first);
    FirstPlaceIsIndex(once, first.docPath, k);
  }
}
