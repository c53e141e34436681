/** Repairs of the living-docs index: which are found, what applying them leaves, and what a second assessment sees. */
module DocsRepairs {
  import opened JsStrings
  import opened Globs
  import opened DocsRegistry

  datatype Repair = DropDanglingEntry(docPath: string) | PruneDeadGlob(docPath: string, glob: string)

  predicate IsLive(glob: string, files: seq<string>) {
    exists i :: 0 <= i < |files| && MatchesGlob(glob, files[i])
  }

  function DeadGlobRepairs(docPath: string, globs: seq<string>, files: seq<string>): seq<Repair> {
    if globs == [] then []
    else (if IsLive(globs[0], files) then [] else [PruneDeadGlob(docPath, globs[0])]) + DeadGlobRepairs(docPath, globs[1..], files)
  }

  function EntryRepairs(e: Entry, files: seq<string>): seq<Repair> {
    if e.docPath in files then DeadGlobRepairs(e.docPath, e.ownedGlobs, files) else [DropDanglingEntry(e.docPath)]
  }

  function FindRepairs(entries: seq<Entry>, files: seq<string>): seq<Repair> {
    if entries == [] then [] else EntryRepairs(entries[0], files) + FindRepairs(entries[1..], files)
  }

  function KeptGlobs(docPath: string, globs: seq<string>, repairs: seq<Repair>): seq<string> {
    if globs == [] then []
    else (if PruneDeadGlob(docPath, globs[0]) in repairs then [] else [globs[0]]) + KeptGlobs(docPath, globs[1..], repairs)
  }

  function AfterRepairs(entries: seq<Entry>, repairs: seq<Repair>): seq<Entry> {
    if entries == [] then []
    else
      var e := entries[0];
      (if DropDanglingEntry(e.docPath) in repairs then [] else [e.(ownedGlobs := KeptGlobs(e.docPath, e.ownedGlobs, repairs))])
      + AfterRepairs(entries[1..], repairs)
  }

  lemma NextKept(docPath: string, globs: seq<string>, repairs: seq<Repair>, i: nat)
    requires i < |globs|
    ensures KeptGlobs(docPath, globs[i..], repairs) ==
            (if PruneDeadGlob(docPath, globs[i]) in repairs then [] else [globs[i]]) + KeptGlobs(docPath, globs[i + 1..], repairs)
  {
    assert globs[i..][1..] == globs[i + 1..];
  }

  lemma NoneKept(docPath: string, repairs: seq<Repair>)
    ensures KeptGlobs(docPath, [], repairs) == []
  {}

  method WithoutDead(globs: seq<string>, dead: set<string>, ghost docPath: string, ghost repairs: seq<Repair>) returns (kept: seq<string>)
    requires forall g :: g in dead <==> PruneDeadGlob(docPath, g) in repairs
    ensures kept == KeptGlobs(docPath, globs, repairs)
  {
    kept := [];
    NoneKept(docPath, repairs);
    hide KeptGlobs;
    assert globs[0..] == globs;
    for i := 0 to |globs|
      invariant kept + KeptGlobs(docPath, globs[i..], repairs) == KeptGlobs(docPath, globs, repairs)
    {
      NextKept(docPath, globs, repairs, i);
      if globs[i] !in dead { kept := kept + [globs[i]]; }
    }
    assert globs[|globs|..] == [];
  }

  lemma NothingPruned(docPath: string, globs: seq<string>, repairs: seq<Repair>)
    requires forall g :: PruneDeadGlob(docPath, g) !in repairs
    ensures KeptGlobs(docPath, globs, repairs) == globs
  {
    if globs != [] { NothingPruned(docPath, globs[1..], repairs); }
  }

  /** The docs to drop, and the globs to prune from each of the others. */
  ghost predicate IsIndexOf(dropped: set<string>, dead: map<string, set<string>>, repairs: seq<Repair>) {
    && (forall d :: d in dropped <==> DropDanglingEntry(d) in repairs)
    && (forall d :: d in dead ==> forall g :: g in dead[d] <==> PruneDeadGlob(d, g) in repairs)
    && (forall d, g :: PruneDeadGlob(d, g) in repairs ==> d in dead)
  }

  lemma OneMoreDrop(dropped: set<string>, dead: map<string, set<string>>, repairs: seq<Repair>, d: string)
    requires IsIndexOf(dropped, dead, repairs)
    ensures IsIndexOf(dropped + {d}, dead, repairs + [DropDanglingEntry(d)])
  {}

  lemma OneMorePrune(dropped: set<string>, dead: map<string, set<string>>, repairs: seq<Repair>, d: string, g: string)
    requires IsIndexOf(dropped, dead, repairs)
    ensures IsIndexOf(dropped, dead[d := (if d in dead then dead[d] else {}) + {g}], repairs + [PruneDeadGlob(d, g)])
  {}

  method IndexRepairs(repairs: seq<Repair>) returns (dropped: set<string>, deadGlobsByDoc: map<string, set<string>>)
    ensures IsIndexOf(dropped, deadGlobsByDoc, repairs)
  {
    dropped, deadGlobsByDoc := {}, map[];
    ghost var done: seq<Repair> := [];
    assert IsIndexOf(dropped, deadGlobsByDoc, done);
    hide IsIndexOf;
    for i := 0 to |repairs|
      invariant done == repairs[..i] && IsIndexOf(dropped, deadGlobsByDoc, done)
    {
      match repairs[i]
      case DropDanglingEntry(docPath) =>
        OneMoreDrop(dropped, deadGlobsByDoc, done, docPath);
        dropped := dropped + {docPath};
        done := done + [repairs[i]];
      case PruneDeadGlob(docPath, glob) =>
        OneMorePrune(dropped, deadGlobsByDoc, done, docPath, glob);
        var globs := if docPath in deadGlobsByDoc then deadGlobsByDoc[docPath] else {};
        deadGlobsByDoc := deadGlobsByDoc[docPath := globs + {glob}];
        done := done + [repairs[i]];
    }
    assert repairs[..|repairs|] == repairs;
  }

  /** What stands for one entry afterwards. */
  function AfterRepair(e: Entry, repairs: seq<Repair>): seq<Entry> {
    if DropDanglingEntry(e.docPath) in repairs then [] else [e.(ownedGlobs := KeptGlobs(e.docPath, e.ownedGlobs, repairs))]
  }

  lemma NextAfter(entries: seq<Entry>, repairs: seq<Repair>, i: nat)
    requires i < |entries|
    ensures AfterRepairs(entries[i..], repairs) == AfterRepair(entries[i], repairs) + AfterRepairs(entries[i + 1..], repairs)
  {
    hide KeptGlobs;
    assert entries[i..][1..] == entries[i + 1..];
  }

  lemma NoneAfter(repairs: seq<Repair>)
    ensures AfterRepairs([], repairs) == []
  {}

  method RepairEntry(e: Entry, dropped: set<string>, dead: map<string, set<string>>, ghost repairs: seq<Repair>)
      returns (after: seq<Entry>)
    requires IsIndexOf(dropped, dead, repairs)
    ensures after == AfterRepair(e, repairs)
  {
    if e.docPath in dropped { return []; }
    if e.docPath !in dead {
      NothingPruned(e.docPath, e.ownedGlobs, repairs);
      return [e];
    }
    hide KeptGlobs;
    var kept := WithoutDead(e.ownedGlobs, dead[e.docPath], e.docPath, repairs);
    after := [e.(ownedGlobs := kept)];
  }

  method ApplyRepairs(registry: Registry, repairs: seq<Repair>) returns (repaired: Registry)
    ensures repaired == registry.(entries := AfterRepairs(registry.entries, repairs))
  {
    hide AfterRepairs, AfterRepair, IsIndexOf;
    var dropped, deadGlobsByDoc := IndexRepairs(repairs);
    var entries: seq<Entry> := [];
    assert registry.entries[0..] == registry.entries;
    for i := 0 to |registry.entries|
      invariant entries + AfterRepairs(registry.entries[i..], repairs) == AfterRepairs(registry.entries, repairs)
    {
      NextAfter(registry.entries, repairs, i);
      var after := RepairEntry(registry.entries[i], dropped, deadGlobsByDoc, repairs);
      entries := entries + after;
    }
    NoneAfter(repairs);
    assert registry.entries[|registry.entries|..] == [];
    repaired := registry.(entries := entries);
  }

  // ---------------------------------------------------------------- what the repairs leave

  function LiveGlobs(globs: seq<string>, files: seq<string>): seq<string> {
    if globs == [] then [] else (if IsLive(globs[0], files) then [globs[0]] else []) + LiveGlobs(globs[1..], files)
  }

  /** The reference: entries whose doc exists, in order, each with those of its globs that match some file. */
  function Survivors(entries: seq<Entry>, files: seq<string>): seq<Entry> {
    if entries == [] then []
    else
      (if entries[0].docPath in files then [entries[0].(ownedGlobs := LiveGlobs(entries[0].ownedGlobs, files))] else [])
      + Survivors(entries[1..], files)
  }

  lemma {:induction false} DeadGlobRepairsHold(docPath: string, globs: seq<string>, files: seq<string>, r: Repair)
    ensures r in DeadGlobRepairs(docPath, globs, files) <==>
            r.PruneDeadGlob? && r.docPath == docPath && r.glob in globs && !IsLive(r.glob, files)
  {
    if globs != [] { DeadGlobRepairsHold(docPath, globs[1..], files, r); }
  }

  /** A repair is found exactly when some entry calls for it. */
  lemma {:induction false} FoundIffCalledFor(entries: seq<Entry>, files: seq<string>, r: Repair)
    ensures r in FindRepairs(entries, files) <==> exists e :: e in entries && r in EntryRepairs(e, files)
  {
    if entries != [] {
      FoundIffCalledFor(entries[1..], files, r);
      assert entries[0] in entries;
      assert forall e :: e in entries <==> e == entries[0] || e in entries[1..];
    }
  }

  /** An entry is dropped exactly when its doc is gone; no other entry under the same name changes that. */
  lemma DroppedIffGone(entries: seq<Entry>, files: seq<string>, e: Entry)
    requires e in entries
    ensures DropDanglingEntry(e.docPath) in FindRepairs(entries, files) <==> e.docPath !in files
  {
    var r := DropDanglingEntry(e.docPath);
    FoundIffCalledFor(entries, files, r);
    forall x | x in entries && r in EntryRepairs(x, files) ensures e.docPath !in files {
      DeadGlobRepairsHold(x.docPath, x.ownedGlobs, files, r);
    }
  }

  lemma PrunedIffDead(entries: seq<Entry>, files: seq<string>, e: Entry, glob: string)
    requires e in entries && e.docPath in files && glob in e.ownedGlobs
    ensures PruneDeadGlob(e.docPath, glob) in FindRepairs(entries, files) <==> !IsLive(glob, files)
  {
    var r := PruneDeadGlob(e.docPath, glob);
    FoundIffCalledFor(entries, files, r);
    DeadGlobRepairsHold(e.docPath, e.ownedGlobs, files, r);
    forall x | x in entries && r in EntryRepairs(x, files) ensures !IsLive(glob, files) {
      DeadGlobRepairsHold(x.docPath, x.ownedGlobs, files, r);
    }
  }

  lemma {:induction false} KeptAreLive(entries: seq<Entry>, files: seq<string>, e: Entry, globs: seq<string>)
    requires e in entries && e.docPath in files
    requires forall i :: 0 <= i < |globs| ==> globs[i] in e.ownedGlobs
    ensures KeptGlobs(e.docPath, globs, FindRepairs(entries, files)) == LiveGlobs(globs, files)
  {
    if globs != [] {
      PrunedIffDead(entries, files, e, globs[0]);
      KeptAreLive(entries, files, e, globs[1..]);
    }
  }

  /** Applying what is found leaves exactly the survivors. */
  lemma RepairsLeaveSurvivors(entries: seq<Entry>, files: seq<string>)
    ensures AfterRepairs(entries, FindRepairs(entries, files)) == Survivors(entries, files)
  {
    RepairsLeaveSurvivorsOf(entries, files, entries);
  }

  lemma {:induction false} RepairsLeaveSurvivorsOf(entries: seq<Entry>, files: seq<string>, part: seq<Entry>)
    requires forall i :: 0 <= i < |part| ==> part[i] in entries
    ensures AfterRepairs(part, FindRepairs(entries, files)) == Survivors(part, files)
  {
    if part != [] {
      DroppedIffGone(entries, files, part[0]);
      if part[0].docPath in files { KeptAreLive(entries, files, part[0], part[0].ownedGlobs); }
      RepairsLeaveSurvivorsOf(entries, files, part[1..]);
    }
  }

  lemma {:induction false} LiveGlobsAreLive(globs: seq<string>, files: seq<string>, glob: string)
    ensures glob in LiveGlobs(globs, files) <==> glob in globs && IsLive(glob, files)
  {
    if globs != [] { LiveGlobsAreLive(globs[1..], files, glob); }
  }

  lemma {:induction false} LiveGlobsNeedNoRepair(docPath: string, globs: seq<string>, files: seq<string>)
    ensures DeadGlobRepairs(docPath, LiveGlobs(globs, files), files) == []
  {
    if globs != [] {
      LiveGlobsNeedNoRepair(docPath, globs[1..], files);
      var rest := LiveGlobs(globs[1..], files);
      assert ([globs[0]] + rest)[1..] == rest && [] + rest == rest;
    }
  }

  /** One pass is enough: nothing is left to repair. */
  lemma {:induction false} RepairsConverge(entries: seq<Entry>, files: seq<string>)
    ensures FindRepairs(Survivors(entries, files), files) == []
  {
    if entries != [] {
      var e := entries[0];
      LiveGlobsNeedNoRepair(e.docPath, e.ownedGlobs, files);
      RepairsConverge(entries[1..], files);
      var e', rest := e.(ownedGlobs := LiveGlobs(e.ownedGlobs, files)), Survivors(entries[1..], files);
      assert ([e'] + rest)[1..] == rest && [] + rest == rest;
    }
  }

  // ---------------------------------------------------------------- ownership

  predicate OwnsAny(e: Entry, paths: seq<string>) {
    exists i, j :: 0 <= i < |e.ownedGlobs| && 0 <= j < |paths| && MatchesGlob(e.ownedGlobs[i], paths[j])
  }

  function FindOwningEntries(entries: seq<Entry>, paths: seq<string>): seq<Entry> {
    if entries == [] then []
    else (if OwnsAny(entries[0], paths) then [entries[0]] else []) + FindOwningEntries(entries[1..], paths)
  }

  lemma LiveGlobsOwnTheSame(e: Entry, files: seq<string>, paths: seq<string>)
    requires forall p :: p in paths ==> p in files
    ensures OwnsAny(e.(ownedGlobs := LiveGlobs(e.ownedGlobs, files)), paths) <==> OwnsAny(e, paths)
  {
    var live := LiveGlobs(e.ownedGlobs, files);
    if i, j :| 0 <= i < |live| && 0 <= j < |paths| && MatchesGlob(live[i], paths[j]) {
      LiveGlobsAreLive(e.ownedGlobs, files, live[i]);
      var k :| 0 <= k < |e.ownedGlobs| && e.ownedGlobs[k] == live[i];
      assert MatchesGlob(e.ownedGlobs[k], paths[j]);
    }
    if i, j :| 0 <= i < |e.ownedGlobs| && 0 <= j < |paths| && MatchesGlob(e.ownedGlobs[i], paths[j]) {
      assert paths[j] in files;
      var f :| 0 <= f < |files| && files[f] == paths[j];
      assert IsLive(e.ownedGlobs[i], files);
      LiveGlobsAreLive(e.ownedGlobs, files, e.ownedGlobs[i]);
      var k :| 0 <= k < |live| && live[k] == e.ownedGlobs[i];
      assert MatchesGlob(live[k], paths[j]);
    }
  }

  /** The owners of tracked files after the repair are the surviving owners of before, in the same order. */
  lemma {:induction false} OwnershipIsKept(entries: seq<Entry>, files: seq<string>, paths: seq<string>)
    requires forall p :: p in paths ==> p in files
    ensures FindOwningEntries(Survivors(entries, files), paths) == Survivors(FindOwningEntries(entries, paths), files)
  {
    if entries != [] {
      LiveGlobsOwnTheSame(entries[0], files, paths);
      OwnershipIsKept(entries[1..], files, paths);
      hide OwnsAny;
      hide LiveGlobs;
      var e, owning, surviving := entries[0], FindOwningEntries(entries[1..], paths), Survivors(entries[1..], files);
      var e' := e.(ownedGlobs := LiveGlobs(e.ownedGlobs, files));
      assert ([e] + owning)[1..] == owning && ([e'] + surviving)[1..] == surviving;
      assert [] + owning == owning && [] + surviving == surviving;
      assert [] + FindOwningEntries(surviving, paths) == FindOwningEntries(surviving, paths);
      assert [] + Survivors(owning, files) == Survivors(owning, files);
    }
  }

  // ---------------------------------------------------------------- assessing the repaired text

  /** Whether the assessment of a text reports it as not canonical. */
  predicate NonCanonical(content: string) {
    Serialize(Parse(content)) != content
  }

  function RepairedRegistry(content: string, files: seq<string>): Registry {
    var registry := Parse(content);
    registry.(entries := AfterRepairs(registry.entries, FindRepairs(registry.entries, files)))
  }

  lemma {:induction false} LiveGlobsWithout(globs: seq<string>, files: seq<string>)
    requires Without(globs, '\n')
    ensures Without(LiveGlobs(globs, files), '\n')
  {
    if globs != [] { LiveGlobsWithout(globs[1..], files); }
  }

  lemma {:induction false} SurvivorsNewlineFree(entries: seq<Entry>, files: seq<string>)
    requires AllNewlineFree(entries)
    ensures AllNewlineFree(Survivors(entries, files))
  {
    if entries != [] {
      assert NewlineFree(entries[0]);
      LiveGlobsWithout(entries[0].ownedGlobs, files);
      SurvivorsNewlineFree(entries[1..], files);
    }
  }

  /**
   * Writing the repaired registry and assessing it again finds nothing to repair, and finds the text canonical except in
   * one case: no entry survives, and what stands above the entries is blank without being empty.
   */
  lemma ReassessmentOfRepairedText(content: string, files: seq<string>)
    ensures
      var repaired := RepairedRegistry(content, files);
      var text := Serialize(repaired);
      && FindRepairs(Parse(text).entries, files) == []
      && (NonCanonical(text) <==> repaired.entries == [] && repaired.preamble != "" && IsBlank(repaired.preamble))
  {
    var registry, repaired := Parse(content), RepairedRegistry(content, files);
    RepairsLeaveSurvivors(registry.entries, files);
    RepairsConverge(registry.entries, files);
    ParseIsCanonical(content);
    if repaired.entries != [] {
      SurvivorsNewlineFree(registry.entries, files);
      CanonicalRoundTrips(repaired);
    } else {
      var lines := Split(repaired.preamble, '\n');
      assert repaired.preamble != "" ==> FirstEntryLine(lines) == |lines|;
    }
  }

  /** The exception is real: an index that is one dangling entry repairs to a lone newline, which reads back as nothing. */
  lemma LoneDanglingEntryStaysNonCanonical()
    ensures NonCanonical(Serialize(RepairedRegistry(ENTRY, [])))
  {
    var lines := Split(ENTRY, '\n');
    SplitWithout(ENTRY, '\n');
    assert lines[0][..2] == ENTRY;
    assert Parse(ENTRY).preamble == "\n" by {
      assert FirstEntryLine(lines) == 0;
      assert ENTRY[0] == '-';
    }
    hide Parse;
    RepairsLeaveSurvivors(Parse(ENTRY).entries, []);
    NothingSurvivesWithoutFiles(Parse(ENTRY).entries);
    ReassessmentOfRepairedText(ENTRY, []);
  }

  lemma NothingSurvivesWithoutFiles(entries: seq<Entry>)
    ensures Survivors(entries, []) == []
  {
    if entries != [] { NothingSurvivesWithoutFiles(entries[1..]); }
  }
}
