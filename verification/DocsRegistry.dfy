/** The living-docs index: its text format, read by a line machine and printed in one canonical form. */
module DocsRegistry {
  import opened JsStrings

  datatype Entry = Entry(docPath: string, ownedGlobs: seq<string>, conditions: seq<string>, decisions: seq<string>)

  datatype Registry = Registry(preamble: string, entries: seq<Entry>)

  const ENTRY := "- "
  const OWNS := "  - Owns:"
  const CONDITIONS := "  - Conditions:"
  const DECISIONS := "  - Decisions:"
  const ITEM := "    - "

  // ---------------------------------------------------------------- reading

  datatype List = NoList | Owns | Conditions | Decisions

  datatype Kind = EntryLine | Header(list: List) | ItemLine | OtherLine

  function KindOf(line: string): Kind {
    if StartsWith(line, ENTRY) then EntryLine
    else if StartsWith(line, OWNS) then Header(Owns)
    else if StartsWith(line, CONDITIONS) then Header(Conditions)
    else if StartsWith(line, DECISIONS) then Header(Decisions)
    else if StartsWith(line, ITEM) then ItemLine
    else OtherLine
  }

  datatype Reading = Reading(entries: seq<Entry>, current: Option<Entry>, active: List)

  function Add(e: Entry, list: List, items: seq<string>): Entry {
    match list
    case NoList => e
    case Owns => e.(ownedGlobs := e.ownedGlobs + items)
    case Conditions => e.(conditions := e.conditions + items)
    case Decisions => e.(decisions := e.decisions + items)
  }

  function Finish(r: Reading): seq<Entry> {
    match r.current
    case Some(e) => r.entries + [e]
    case None => r.entries
  }

  function Step(r: Reading, line: string): Reading {
    match KindOf(line)
    case EntryLine => Reading(Finish(r), Some(Entry(line[2..], [], [], [])), NoList)
    case Header(list) => r.(active := list)
    case ItemLine => if r.current.Some? then r.(current := Some(Add(r.current.value, r.active, [line[6..]]))) else r
    case OtherLine => r
  }

  function Run(r: Reading, lines: seq<string>): Reading
    decreases |lines|
  {
    if lines == [] then r else Run(Step(r, lines[0]), lines[1..])
  }

  function FirstEntryLine(lines: seq<string>): (k: nat)
    ensures k <= |lines|
    ensures forall i :: 0 <= i < k ==> !StartsWith(lines[i], ENTRY)
    ensures k < |lines| ==> StartsWith(lines[k], ENTRY)
  {
    if lines == [] || StartsWith(lines[0], ENTRY) then 0 else 1 + FirstEntryLine(lines[1..])
  }

  const NOTHING := Reading([], None, NoList)

  function Parse(content: string): Registry {
    var lines := Split(content, '\n');
    var k := FirstEntryLine(lines);
    if IsBlank(content) then Registry("", [])
    else if k == |lines| then Registry(content, [])
    else Registry(Join(lines[..k], "\n") + "\n", Finish(Run(NOTHING, lines[k..])))
  }

  lemma NextFirst(lines: seq<string>, i: nat)
    requires i < |lines|
    ensures FirstEntryLine(lines[i..]) == if StartsWith(lines[i], ENTRY) then 0 else 1 + FirstEntryLine(lines[i + 1..])
  {
    hide StartsWith;
    assert lines[i..][1..] == lines[i + 1..];
  }

  method FindFirstEntryLine(lines: seq<string>) returns (k: nat)
    ensures k == FirstEntryLine(lines)
  {
    hide StartsWith, ENTRY;
    assert lines[0..] == lines;
    for i := 0 to |lines|
      invariant i + FirstEntryLine(lines[i..]) == FirstEntryLine(lines)
    {
      NextFirst(lines, i);
      if StartsWith(lines[i], ENTRY) { return i; }
    }
    k := |lines|;
  }

  lemma NextRun(r: Reading, lines: seq<string>, i: nat)
    requires i < |lines|
    ensures Run(r, lines[i..]) == Run(Step(r, lines[i]), lines[i + 1..])
  {
    hide Step;
    assert lines[i..][1..] == lines[i + 1..];
  }

  lemma LongEnough(line: string)
    ensures KindOf(line).EntryLine? ==> |line| >= 2
    ensures KindOf(line).ItemLine? ==> |line| >= 6
  {}

  lemma RunOfNothing(r: Reading)
    ensures Run(r, []) == r
  {}

  method ReadEntries(lines: seq<string>) returns (entries: seq<Entry>)
    ensures entries == Finish(Run(NOTHING, lines))
  {
    hide Run, KindOf, Add;
    entries := [];
    var currentEntry, activeList := None, NoList;
    assert lines[0..] == lines;
    for i := 0 to |lines|
      invariant Run(Reading(entries, currentEntry, activeList), lines[i..]) == Run(NOTHING, lines)
    {
      var line := lines[i];
      NextRun(Reading(entries, currentEntry, activeList), lines, i);
      LongEnough(line);
      match KindOf(line) {
        case EntryLine =>
          if currentEntry.Some? { entries := entries + [currentEntry.value]; }
          currentEntry := Some(Entry(line[2..], [], [], []));
          activeList := NoList;
        case Header(list) => activeList := list;
        case ItemLine =>
          if currentEntry.None? { continue; }
          currentEntry := Some(Add(currentEntry.value, activeList, [line[6..]]));
        case OtherLine =>
      }
    }
    assert lines[|lines|..] == [];
    RunOfNothing(Reading(entries, currentEntry, activeList));
    if currentEntry.Some? { entries := entries + [currentEntry.value]; }
  }

  method ParseConditionalDocs(content: string) returns (registry: Registry)
    ensures registry == Parse(content)
  {
    hide Run, Finish, IsBlank, Join, Split, NOTHING;
    if IsBlank(content) { return Registry("", []); }
    var lines := Split(content, '\n');
    var firstEntryLine := FindFirstEntryLine(lines);
    if firstEntryLine == |lines| { return Registry(content, []); }
    var preamble := Join(lines[..firstEntryLine], "\n") + "\n";
    var entries := ReadEntries(lines[firstEntryLine..]);
    registry := Registry(preamble, entries);
  }

  // ---------------------------------------------------------------- printing

  function ItemLines(items: seq<string>): seq<string> {
    if items == [] then [] else [ITEM + items[0]] + ItemLines(items[1..])
  }

  function EntryLines(e: Entry): seq<string> {
    [ENTRY + e.docPath]
    + (if e.ownedGlobs != [] then [OWNS] + ItemLines(e.ownedGlobs) else [])
    + ([CONDITIONS] + ItemLines(e.conditions))
    + (if e.decisions != [] then [DECISIONS] + ItemLines(e.decisions) else [])
  }

  function EntryText(e: Entry): string {
    Join(EntryLines(e), "\n")
  }

  function EntryTexts(entries: seq<Entry>): seq<string> {
    if entries == [] then [] else [EntryText(entries[0])] + EntryTexts(entries[1..])
  }

  function Serialize(r: Registry): string {
    if r.entries == [] then r.preamble else r.preamble + Join(EntryTexts(r.entries), "\n\n") + "\n"
  }

  lemma JoinSnoc(lines: seq<string>, line: string)
    requires lines != []
    ensures Join(lines + [line], "\n") == Join(lines, "\n") + "\n" + line
  {
    JoinOfConcat(lines, [line], "\n");
  }

  lemma OneLine(line: string)
    ensures Join([line], "\n") == line
  {}

  method AppendItems(s: string, items: seq<string>, ghost lines: seq<string>) returns (t: string)
    requires lines != [] && s == Join(lines, "\n")
    ensures t == Join(lines + ItemLines(items), "\n")
  {
    hide Join, ItemLines;
    t := s;
    FirstItems(lines, items, 0);
    for i := 0 to |items|
      invariant t == Join(lines + ItemLines(items[..i]), "\n")
    {
      FirstItems(lines, items, i);
      JoinSnoc(lines + ItemLines(items[..i]), ITEM + items[i]);
      t := t + "\n" + (ITEM + items[i]);
    }
    assert items[..|items|] == items;
  }

  lemma FirstItems(lines: seq<string>, items: seq<string>, i: nat)
    requires i <= |items|
    ensures lines + ItemLines(items[..0]) == lines
    ensures i < |items| ==> (lines + ItemLines(items[..i])) + [ITEM + items[i]] == lines + ItemLines(items[..i + 1])
  {
    if i < |items| {
      assert items[..i + 1] == items[..i] + [items[i]];
      ItemLinesSnoc(items[..i], items[i]);
    }
  }

  lemma {:induction false} ItemLinesSnoc(items: seq<string>, item: string)
    ensures ItemLines(items + [item]) == ItemLines(items) + [ITEM + item]
    decreases |items|
  {
    if items != [] {
      assert (items + [item])[1..] == items[1..] + [item];
      ItemLinesSnoc(items[1..], item);
    }
  }

  method SerializeEntry(e: Entry) returns (s: string)
    ensures s == EntryText(e)
  {
    hide Join, ItemLines;
    OneLine(ENTRY + e.docPath);
    s := ENTRY + e.docPath;
    ghost var lines := [s];
    if e.ownedGlobs != [] {
      JoinSnoc(lines, OWNS);
      s := AppendItems(s + "\n" + OWNS, e.ownedGlobs, lines + [OWNS]);
      lines := lines + [OWNS] + ItemLines(e.ownedGlobs);
    }
    JoinSnoc(lines, CONDITIONS);
    s := AppendItems(s + "\n" + CONDITIONS, e.conditions, lines + [CONDITIONS]);
    lines := lines + [CONDITIONS] + ItemLines(e.conditions);
    if e.decisions != [] {
      JoinSnoc(lines, DECISIONS);
      s := AppendItems(s + "\n" + DECISIONS, e.decisions, lines + [DECISIONS]);
      lines := lines + [DECISIONS] + ItemLines(e.decisions);
    }
    assert lines == EntryLines(e);
  }

  // ---------------------------------------------------------------- the canonical form

  predicate NewlineFree(e: Entry) {
    && '\n' !in e.docPath
    && Without(e.ownedGlobs, '\n') && Without(e.conditions, '\n') && Without(e.decisions, '\n')
  }

  predicate AllNewlineFree(entries: seq<Entry>) {
    forall i :: 0 <= i < |entries| ==> NewlineFree(entries[i])
  }

  predicate HasEntryLine(text: string) {
    exists i :: 0 <= i < |Split(text, '\n')| && StartsWith(Split(text, '\n')[i], ENTRY)
  }

  /** What a registry has to be for its text to be read back as itself. */
  predicate Canonical(r: Registry) {
    if r.entries == [] then r.preamble == "" || (!IsBlank(r.preamble) && !HasEntryLine(r.preamble))
    else AllNewlineFree(r.entries) && EndsWith(r.preamble, "\n") && !HasEntryLine(r.preamble)
  }

  // ---------------------------------------------------------------- reading back what was printed

  lemma KindsOfPrintedLines(x: string)
    ensures KindOf(ENTRY + x) == EntryLine && (ENTRY + x)[2..] == x
    ensures KindOf(ITEM + x) == ItemLine && (ITEM + x)[6..] == x
    ensures KindOf(OWNS) == Header(Owns) && KindOf(CONDITIONS) == Header(Conditions) && KindOf(DECISIONS) == Header(Decisions)
    ensures KindOf("") == OtherLine
  {
    assert (ENTRY + x)[..2] == ENTRY;
    var item := ITEM + x;
    assert item[..6] == ITEM;
    assert item[..2][0] == ' ';
    assert |OWNS| <= |item| ==> item[..|OWNS|][2] == ' ';
    assert |CONDITIONS| <= |item| ==> item[..|CONDITIONS|][2] == ' ';
    assert |DECISIONS| <= |item| ==> item[..|DECISIONS|][2] == ' ';
    assert OWNS[..2][0] == ' ' && CONDITIONS[..2][0] == ' ' && DECISIONS[..2][0] == ' ';
    assert CONDITIONS[..|OWNS|][4] == 'C' && DECISIONS[..|OWNS|][4] == 'D';
    assert OWNS[..] == OWNS && CONDITIONS[..] == CONDITIONS && DECISIONS[..] == DECISIONS;
  }

  lemma {:induction false} RunOfConcat(r: Reading, a: seq<string>, b: seq<string>)
    ensures Run(r, a + b) == Run(Run(r, a), b)
    decreases |a|
  {
    if a == [] {
      assert a + b == b;
    } else {
      assert (a + b)[1..] == a[1..] + b;
      RunOfConcat(Step(r, a[0]), a[1..], b);
    }
  }

  lemma AddNothing(e: Entry, list: List)
    ensures Add(e, list, []) == e
  {
    assert e.ownedGlobs + [] == e.ownedGlobs && e.conditions + [] == e.conditions && e.decisions + [] == e.decisions;
  }

  lemma {:induction false} RunItems(r: Reading, items: seq<string>)
    requires r.current.Some? && r.active != NoList
    ensures Run(r, ItemLines(items)) == r.(current := Some(Add(r.current.value, r.active, items)))
    decreases |items|
  {
    if items == [] {
      AddNothing(r.current.value, r.active);
    } else {
      hide KindOf;
      KindsOfPrintedLines(items[0]);
      var next := Step(r, ITEM + items[0]);
      RunItems(next, items[1..]);
      assert ItemLines(items)[1..] == ItemLines(items[1..]);
      AddTwice(r.current.value, r.active, items[0], items[1..]);
      assert items == [items[0]] + items[1..];
    }
  }

  lemma AddTwice(e: Entry, list: List, item: string, items: seq<string>)
    ensures Add(Add(e, list, [item]), list, items) == Add(e, list, [item] + items)
  {
    assert e.ownedGlobs + [item] + items == e.ownedGlobs + ([item] + items);
    assert e.conditions + [item] + items == e.conditions + ([item] + items);
    assert e.decisions + [item] + items == e.decisions + ([item] + items);
  }

  /** A header and its items fill one list of the current entry. */
  lemma RunBlock(r: Reading, header: string, list: List, items: seq<string>)
    requires r.current.Some? && list != NoList && KindOf(header) == Header(list)
    ensures Run(r, [header] + ItemLines(items)) == r.(current := Some(Add(r.current.value, list, items)), active := list)
  {
    hide KindOf;
    assert ([header] + ItemLines(items))[1..] == ItemLines(items);
    RunItems(Step(r, header), items);
  }

  lemma RunEntry(r: Reading, e: Entry)
    ensures var after := Run(r, EntryLines(e) + [""]); after.entries == Finish(r) && after.current == Some(e)
  {
    KindsOfPrintedLines(e.docPath);
    hide KindOf;
    var owns := if e.ownedGlobs != [] then [OWNS] + ItemLines(e.ownedGlobs) else [];
    var conditions := [CONDITIONS] + ItemLines(e.conditions);
    var decisions := if e.decisions != [] then [DECISIONS] + ItemLines(e.decisions) else [];
    var r1 := Reading(Finish(r), Some(Entry(e.docPath, [], [], [])), NoList);
    assert Run(r, [ENTRY + e.docPath]) == r1;
    assert [] + e.ownedGlobs == e.ownedGlobs && [] + e.conditions == e.conditions && [] + e.decisions == e.decisions;
    if e.ownedGlobs != [] { RunBlock(r1, OWNS, Owns, e.ownedGlobs); }
    var r2 := Run(r1, owns);
    assert r2.entries == r1.entries && r2.current == Some(Entry(e.docPath, e.ownedGlobs, [], []));
    RunBlock(r2, CONDITIONS, Conditions, e.conditions);
    var r3 := Run(r2, conditions);
    if e.decisions != [] { RunBlock(r3, DECISIONS, Decisions, e.decisions); }
    var r4 := Run(r3, decisions);
    assert r4.entries == r1.entries && r4.current == Some(e);
    RunOfConcat(r, [ENTRY + e.docPath], owns);
    RunOfConcat(r, [ENTRY + e.docPath] + owns, conditions);
    RunOfConcat(r, [ENTRY + e.docPath] + owns + conditions, decisions);
    RunOfConcat(r, EntryLines(e), [""]);
    assert Run(r4, [""]) == r4;
  }

  function BodyLines(entries: seq<Entry>): seq<string> {
    if entries == [] then [] else EntryLines(entries[0]) + [""] + BodyLines(entries[1..])
  }

  lemma {:induction false} RunBody(r: Reading, entries: seq<Entry>)
    ensures Finish(Run(r, BodyLines(entries))) == Finish(r) + entries
    decreases |entries|
  {
    if entries != [] {
      var first := EntryLines(entries[0]) + [""];
      RunEntry(r, entries[0]);
      RunBody(Run(r, first), entries[1..]);
      RunOfConcat(r, first, BodyLines(entries[1..]));
      assert Finish(r) + [entries[0]] + entries[1..] == Finish(r) + entries;
    }
  }

  lemma {:induction false} ItemLinesWithout(items: seq<string>)
    requires Without(items, '\n')
    ensures Without(ItemLines(items), '\n')
  {
    if items != [] { ItemLinesWithout(items[1..]); }
  }

  lemma {:induction false} BodyLinesWithout(entries: seq<Entry>)
    requires AllNewlineFree(entries)
    ensures Without(BodyLines(entries), '\n')
  {
    if entries != [] {
      var e := entries[0];
      assert NewlineFree(e);
      ItemLinesWithout(e.ownedGlobs);
      ItemLinesWithout(e.conditions);
      ItemLinesWithout(e.decisions);
      assert Without(EntryLines(e), '\n');
      BodyLinesWithout(entries[1..]);
    }
  }

  /** The printed entries, blank lines and final newline are the body's lines joined. */
  lemma {:induction false} BodyText(entries: seq<Entry>)
    requires entries != []
    ensures Join(EntryTexts(entries), "\n\n") + "\n" == Join(BodyLines(entries), "\n")
  {
    hide EntryLines;
    var e, rest := entries[0], entries[1..];
    EntryTextAndBlank(e);
    if rest == [] {
      assert EntryLines(e) + [""] + BodyLines(rest) == EntryLines(e) + [""];
    } else {
      BodyText(rest);
      JoinOfConcat(EntryLines(e) + [""], BodyLines(rest), "\n");
      assert EntryTexts(entries)[1..] == EntryTexts(rest);
      hide Join, EntryText;
      TwoNewlines(EntryText(e), Join(EntryTexts(rest), "\n\n"));
    }
  }

  lemma TwoNewlines(a: string, b: string)
    ensures (a + "\n\n" + b) + "\n" == (a + "\n") + "\n" + (b + "\n")
  {
    assert "\n\n" == "\n" + "\n";
  }

  lemma EntryTextAndBlank(e: Entry)
    ensures Join(EntryLines(e) + [""], "\n") == EntryText(e) + "\n"
  {
    JoinSnoc(EntryLines(e), "");
    assert EntryText(e) + "\n" + "" == EntryText(e) + "\n";
  }

  lemma {:induction false} FirstEntryLineAfter(front: seq<string>, back: seq<string>)
    requires forall i :: 0 <= i < |front| ==> !StartsWith(front[i], ENTRY)
    requires back != [] && StartsWith(back[0], ENTRY)
    ensures FirstEntryLine(front + back) == |front|
  {
    if front == [] {
      assert front + back == back;
    } else {
      assert (front + back)[1..] == front[1..] + back;
      FirstEntryLineAfter(front[1..], back);
    }
  }

  /** The text of a canonical registry with entries, cut into lines. */
  lemma LinesOfText(r: Registry)
    requires r.entries != [] && Canonical(r)
    ensures var front := r.preamble[..|r.preamble| - 1];
            && r.preamble == front + "\n"
            && Split(Serialize(r), '\n') == Split(front, '\n') + BodyLines(r.entries)
            && forall i :: 0 <= i < |Split(front, '\n')| ==> !StartsWith(Split(front, '\n')[i], ENTRY)
  {
    var front, body := r.preamble[..|r.preamble| - 1], BodyLines(r.entries);
    BodyText(r.entries);
    BodyLinesWithout(r.entries);
    SplitOfJoin(body, '\n');
    assert Serialize(r) == front + ['\n'] + Join(body, "\n");
    SplitAround(front, Join(body, "\n"), '\n');
    assert r.preamble == front + ['\n'] + "";
    SplitAround(front, "", '\n');
    var whole := Split(r.preamble, '\n');
    assert whole == Split(front, '\n') + [""];
    forall i | 0 <= i < |Split(front, '\n')| ensures !StartsWith(Split(front, '\n')[i], ENTRY) {
      assert whole[i] == Split(front, '\n')[i];
    }
  }

  lemma CanonicalRoundTrips(r: Registry)
    requires Canonical(r)
    ensures Parse(Serialize(r)) == r
  {
    if r.entries == [] {
      if r.preamble != "" {
        var lines := Split(r.preamble, '\n');
        assert FirstEntryLine(lines) == |lines|;
      }
    } else {
      var text, front, body := Serialize(r), r.preamble[..|r.preamble| - 1], BodyLines(r.entries);
      LinesOfText(r);
      KindsOfPrintedLines(r.entries[0].docPath);
      assert StartsWith(body[0], ENTRY);
      FirstEntryLineAfter(Split(front, '\n'), body);
      var lines, k := Split(text, '\n'), |Split(front, '\n')|;
      assert lines[..k] == Split(front, '\n') && lines[k..] == body;
      JoinOfSplit(front, '\n');
      RunBody(NOTHING, r.entries);
      assert Finish(NOTHING) + r.entries == r.entries;
      NotBlank(text, k);
    }
  }

  lemma NotBlank(text: string, k: nat)
    requires k < |Split(text, '\n')| && StartsWith(Split(text, '\n')[k], ENTRY)
    ensures !IsBlank(text)
  {
    var line := Split(text, '\n')[k];
    assert line[..2][0] == '-';
    PartsAreInText(text, k, '-');
  }

  lemma {:induction false} PartsAreInText(text: string, k: nat, c: char)
    requires k < |Split(text, '\n')| && c in Split(text, '\n')[k]
    ensures c in text
  {
    if text != "" {
      var rest := Split(text[1..], '\n');
      if text[0] == '\n' {
        PartsAreInText(text[1..], k - 1, c);
      } else if k == 0 {
        if c != text[0] { PartsAreInText(text[1..], 0, c); }
      } else {
        assert Split(text, '\n')[k] == rest[k];
        PartsAreInText(text[1..], k, c);
      }
    }
  }

  // ---------------------------------------------------------------- what is read is canonical

  predicate CleanReading(r: Reading) {
    AllNewlineFree(r.entries) && (r.current.Some? ==> NewlineFree(r.current.value))
  }

  lemma {:induction false} RunIsClean(r: Reading, lines: seq<string>)
    requires CleanReading(r) && Without(lines, '\n')
    ensures CleanReading(Run(r, lines))
    decreases |lines|
  {
    if lines != [] {
      assert '\n' !in lines[0];
      RunIsClean(Step(r, lines[0]), lines[1..]);
    }
  }

  lemma {:induction false} RunKeepsAnEntry(r: Reading, lines: seq<string>)
    requires r.current.Some?
    ensures Run(r, lines).current.Some?
    decreases |lines|
  {
    if lines != [] { RunKeepsAnEntry(Step(r, lines[0]), lines[1..]); }
  }

  lemma ParseIsCanonical(content: string)
    ensures Canonical(Parse(content))
  {
    var lines := Split(content, '\n');
    var k := FirstEntryLine(lines);
    if !IsBlank(content) && k < |lines| {
      RunIsClean(NOTHING, lines[k..]);
      RunKeepsAnEntry(Step(NOTHING, lines[k]), lines[k + 1..]);
      assert lines[k..][1..] == lines[k + 1..];
      var preamble := Parse(content).preamble;
      PreambleHasNoEntryLine(lines[..k]);
    }
  }

  lemma SplitOfNone()
    ensures Split("", '\n') == [""] && Join([], "\n") == ""
  {}

  lemma BlankIsNoEntry()
    ensures !StartsWith("", ENTRY)
  {}

  lemma PreambleHasNoEntryLine(front: seq<string>)
    requires Without(front, '\n')
    requires forall i :: 0 <= i < |front| ==> !StartsWith(front[i], ENTRY)
    ensures !HasEntryLine(Join(front, "\n") + "\n")
  {
    hide Join, Split, ENTRY, StartsWith;
    var text := Join(front, "\n");
    assert text + "\n" == text + ['\n'] + "";
    SplitAround(text, "", '\n');
    SplitOfNone();
    BlankIsNoEntry();
    if front != [] { SplitOfJoin(front, '\n'); }
    assert Split(text + "\n", '\n') == (if front == [] then [""] else front) + [""];
  }

  // ---------------------------------------------------------------- the round trips

  /** A registry is read back as itself exactly when it is canonical. */
  lemma RoundTripIffCanonical(r: Registry)
    ensures Parse(Serialize(r)) == r <==> Canonical(r)
  {
    if Canonical(r) { CanonicalRoundTrips(r); }
    ParseIsCanonical(Serialize(r));
  }

  /** Reading, printing and reading again gives what the first reading gave, whatever the text. */
  lemma ParseSerializeParse(content: string)
    ensures Parse(Serialize(Parse(content))) == Parse(content)
  {
    ParseIsCanonical(content);
    CanonicalRoundTrips(Parse(content));
  }
}
