/** The text of the living-docs index: what each line of it means by its place, and what an entry looks like in print. */
module DocsText {
  import opened JsStrings
  import opened DocsRegistry

  // ---------------------------------------------------------------- reading

  predicate IsEntryLine(line: string) {
    StartsWith(line, "- ")
  }

  predicate IsItem(line: string) {
    StartsWith(line, "    - ")
  }

  /** The list a line opens. */
  function ListOf(line: string): Option<List> {
    if StartsWith(line, "  - Owns:") then Some(Owns)
    else if StartsWith(line, "  - Conditions:") then Some(Conditions)
    else if StartsWith(line, "  - Decisions:") then Some(Decisions)
    else None
  }

  /** The list an item at `i` belongs to: the one opened last since the entry began. */
  function OpenAt(lines: seq<string>, i: nat): List
    requires i <= |lines|
  {
    if i == 0 || IsEntryLine(lines[i - 1]) then NoList
    else if ListOf(lines[i - 1]).Some? then ListOf(lines[i - 1]).value
    else OpenAt(lines, i - 1)
  }

  /** The items of a list among the lines from `p` up to `q`. */
  function ItemsOf(lines: seq<string>, p: nat, q: nat, list: List): seq<string>
    requires q <= |lines|
    decreases q
  {
    if q <= p then []
    else ItemsOf(lines, p, q - 1, list) + if IsItem(lines[q - 1]) && OpenAt(lines, q - 1) == list then [lines[q - 1][6..]] else []
  }

  /** The entry that begins at `p`, as far as the lines up to `q` tell it. */
  function EntryAt(lines: seq<string>, p: nat, q: nat): Entry
    requires p < q <= |lines| && IsEntryLine(lines[p])
  {
    Entry(lines[p][2..], ItemsOf(lines, p + 1, q, Owns), ItemsOf(lines, p + 1, q, Conditions), ItemsOf(lines, p + 1, q, Decisions))
  }

  /** Where the last entry among the first `n` lines begins; `n` when there is none. */
  function LastEntry(lines: seq<string>, n: nat): (p: nat)
    requires n <= |lines|
    ensures p <= n && (p < n ==> IsEntryLine(lines[p]))
    ensures forall i :: p < i < n ==> !IsEntryLine(lines[i])
    ensures p == n ==> forall i :: 0 <= i < n ==> !IsEntryLine(lines[i])
  {
    if n == 0 then 0
    else if IsEntryLine(lines[n - 1]) then n - 1
    else var p := LastEntry(lines, n - 1); if p == n - 1 then n else p
  }

  /** Every entry runs from its own line to the next entry's, or to the end. */
  function EntriesOf(lines: seq<string>, n: nat): seq<Entry>
    requires n <= |lines|
    decreases n
  {
    var p := LastEntry(lines, n);
    if p == n then [] else EntriesOf(lines, p) + [EntryAt(lines, p, n)]
  }

  lemma KindsOfLines(line: string)
    ensures KindOf(line).EntryLine? <==> IsEntryLine(line)
    ensures KindOf(line).Header? <==> ListOf(line).Some?
    ensures ListOf(line).Some? ==> KindOf(line) == Header(ListOf(line).value)
    ensures KindOf(line).ItemLine? <==> IsItem(line)
  {
    HeadsExclude(line, "- ", "  - Owns:", 0);
    HeadsExclude(line, "- ", "  - Conditions:", 0);
    HeadsExclude(line, "- ", "  - Decisions:", 0);
    HeadsExclude(line, "- ", "    - ", 0);
    HeadsExclude(line, "  - Owns:", "    - ", 2);
    HeadsExclude(line, "  - Conditions:", "    - ", 2);
    HeadsExclude(line, "  - Decisions:", "    - ", 2);
    hide StartsWith;
  }

  lemma HeadsExclude(line: string, a: string, b: string, i: nat)
    requires i < |a| && i < |b| && a[i] != b[i]
    ensures !(StartsWith(line, a) && StartsWith(line, b))
  {
    assert |a| <= |line| ==> line[..|a|][i] == line[i];
    assert |b| <= |line| ==> line[..|b|][i] == line[i];
  }

  lemma {:induction false} RunOfOneMore(r: Reading, lines: seq<string>)
    requires lines != []
    ensures Run(r, lines) == Step(Run(r, lines[..|lines| - 1]), Last(lines))
    decreases |lines|
  {
    hide Step;
    if |lines| > 1 {
      assert lines[1..][..|lines| - 2] == lines[..|lines| - 1][1..];
      RunOfOneMore(Step(r, lines[0]), lines[1..]);
    } else {
      assert lines[1..] == [] && lines[..0] == [];
    }
  }

  /** What has been read of the first `n` lines. */
  function ReadOf(lines: seq<string>, n: nat): Reading
    requires n <= |lines|
  {
    var p := LastEntry(lines, n);
    Reading(if p == n then [] else EntriesOf(lines, p), if p == n then None else Some(EntryAt(lines, p, n)), OpenAt(lines, n))
  }

  lemma {:induction false} ReadingIsByPlace(lines: seq<string>, n: nat)
    requires n <= |lines|
    ensures Run(NOTHING, lines[..n]) == ReadOf(lines, n)
    decreases n
  {
    if n > 0 {
      ReadingIsByPlace(lines, n - 1);
      RunOfOneMore(NOTHING, lines[..n]);
      assert lines[..n][..n - 1] == lines[..n - 1] && Last(lines[..n]) == lines[n - 1];
      hide Run;
      ReadOneMore(lines, n);
    }
  }

  lemma OneLineMore(lines: seq<string>, p: nat, n: nat)
    requires p < n - 1 < |lines| && IsEntryLine(lines[p])
    ensures EntryAt(lines, p, n) ==
            if IsItem(lines[n - 1]) then Add(EntryAt(lines, p, n - 1), OpenAt(lines, n - 1), [lines[n - 1][6..]])
            else EntryAt(lines, p, n - 1)
  {
    hide OpenAt, IsItem, IsEntryLine;
    match OpenAt(lines, n - 1)
    case NoList =>
    case Owns =>
    case Conditions =>
    case Decisions =>
  }

  lemma ReadOneMore(lines: seq<string>, n: nat)
    requires 0 < n <= |lines|
    ensures ReadOf(lines, n) == Step(ReadOf(lines, n - 1), lines[n - 1])
  {
    var p := LastEntry(lines, n - 1);
    KindsOfLines(lines[n - 1]);
    LongEnough(lines[n - 1]);
    if p < n - 1 && !IsEntryLine(lines[n - 1]) { OneLineMore(lines, p, n); }
    hide KindOf, IsEntryLine, IsItem, ListOf, Add, ItemsOf;
    if IsEntryLine(lines[n - 1]) { NewEntry(lines, n); }
    hide EntryAt;
  }

  lemma NewEntry(lines: seq<string>, n: nat)
    requires 0 < n <= |lines| && IsEntryLine(lines[n - 1])
    ensures EntryAt(lines, n - 1, n) == Entry(lines[n - 1][2..], [], [], [])
  {
    hide IsEntryLine, IsItem;
  }

  /** Where the entries begin, if there are any. */
  predicate IsFirstEntry(lines: seq<string>, k: nat) {
    k < |lines| && IsEntryLine(lines[k]) && forall i :: 0 <= i < k ==> !IsEntryLine(lines[i])
  }

  /**
   * What is read of a text: the lines above its first entry, and every entry with the items that stand under each of its
   * headings. Blank and unknown lines, and items under no heading, are passed over, and a text without entries is all preamble.
   */
  lemma ParseIsByPlace(content: string)
    ensures
      var lines, registry := Split(content, '\n'), Parse(content);
      && (forall k :: 0 <= k < |lines| && IsFirstEntry(lines, k) && !IsBlank(content) ==>
            registry == Registry(Join(lines[..k], "\n") + "\n", EntriesOf(lines[k..], |lines| - k)))
      && ((forall k :: 0 <= k < |lines| ==> !IsEntryLine(lines[k])) ==> registry == Registry(if IsBlank(content) then "" else content, []))
      && (IsBlank(content) ==> registry == Registry("", []))
  {
    hide Run, IsBlank, Split, Join, EntriesOf, Finish, StartsWith;
    var lines := Split(content, '\n');
    forall k | 0 <= k < |lines| && IsFirstEntry(lines, k) && !IsBlank(content)
      ensures Parse(content) == Registry(Join(lines[..k], "\n") + "\n", EntriesOf(lines[k..], |lines| - k))
    {
      FirstEntryIs(lines, k);
      assert lines[k..][0] == lines[k];
      EntriesAreByPlace(lines[k..]);
    }
    hide IsEntryLine, FirstEntryLine;
    if forall k :: 0 <= k < |lines| ==> !IsEntryLine(lines[k]) { NoEntryIs(lines); }
  }

  lemma NoEntryIs(lines: seq<string>)
    requires forall k :: 0 <= k < |lines| ==> !IsEntryLine(lines[k])
    ensures FirstEntryLine(lines) == |lines|
  {
    hide StartsWith;
    assert FirstEntryLine(lines) < |lines| ==> IsEntryLine(lines[FirstEntryLine(lines)]);
  }

  lemma FirstEntryIs(lines: seq<string>, k: nat)
    requires IsFirstEntry(lines, k)
    ensures FirstEntryLine(lines) == k
  {
    hide StartsWith;
  }

  lemma EntriesAreByPlace(lines: seq<string>)
    requires lines != [] && IsEntryLine(lines[0])
    ensures Finish(Run(NOTHING, lines)) == EntriesOf(lines, |lines|)
  {
    ReadingIsByPlace(lines, |lines|);
    assert lines[..|lines|] == lines;
    hide Run, IsEntryLine, OpenAt, EntryAt;
  }

  // ---------------------------------------------------------------- printing

  /** Each item on a line of its own, below what comes before. */
  function Bullets(items: seq<string>): string {
    if items == [] then "" else "\n    - " + items[0] + Bullets(items[1..])
  }

  function Section(heading: string, items: seq<string>): string {
    "\n  - " + heading + ":" + Bullets(items)
  }

  lemma OneBullet(above: string, item: string, below: string)
    ensures (above + "\n" + (ITEM + item)) + below == above + ("\n    - " + item + below)
  {
    assert "\n" + ITEM == "\n    - ";
    assert "\n" + (ITEM + item) == ("\n" + ITEM) + item;
  }

  lemma FirstItem(head: seq<string>, items: seq<string>)
    requires items != []
    ensures head + ItemLines(items) == (head + [ITEM + items[0]]) + ItemLines(items[1..])
  {}

  lemma {:induction false} BulletsOfLines(head: seq<string>, items: seq<string>)
    requires head != []
    ensures Join(head + ItemLines(items), "\n") == Join(head, "\n") + Bullets(items)
    decreases |items|
  {
    if items == [] {
      assert head + [] == head && Join(head, "\n") + "" == Join(head, "\n");
    } else {
      FirstItem(head, items);
      hide ItemLines, Join, ITEM;
      JoinSnoc(head, ITEM + items[0]);
      BulletsOfLines(head + [ITEM + items[0]], items[1..]);
      OneBullet(Join(head, "\n"), items[0], Bullets(items[1..]));
    }
  }

  lemma OneHeading(above: string, heading: string, below: string)
    ensures (above + "\n" + (("  - " + heading) + ":")) + below == above + ("\n  - " + heading + ":" + below)
  {
    assert "\n" + "  - " == "\n  - ";
    assert "\n" + (("  - " + heading) + ":") == ("\n" + "  - ") + heading + ":";
  }

  lemma HeadingFirst(head: seq<string>, line: string, items: seq<string>)
    ensures head + ([line] + ItemLines(items)) == (head + [line]) + ItemLines(items)
  {}

  lemma SectionOfLines(head: seq<string>, heading: string, items: seq<string>)
    requires head != []
    ensures Join(head + ([("  - " + heading) + ":"] + ItemLines(items)), "\n") == Join(head, "\n") + Section(heading, items)
  {
    hide ItemLines, Join, Bullets;
    var line := ("  - " + heading) + ":";
    HeadingFirst(head, line, items);
    JoinSnoc(head, line);
    BulletsOfLines(head + [line], items);
    OneHeading(Join(head, "\n"), heading, Bullets(items));
  }

  lemma Headings()
    ensures OWNS == ("  - " + "Owns") + ":" && CONDITIONS == ("  - " + "Conditions") + ":" && DECISIONS == ("  - " + "Decisions") + ":"
  {}

  /** An entry in print: its path, what it owns and what was decided only where there is something, and its conditions always. */
  lemma EntryInPrint(e: Entry)
    ensures EntryText(e) ==
            "- " + e.docPath + (if e.ownedGlobs == [] then "" else Section("Owns", e.ownedGlobs))
            + Section("Conditions", e.conditions) + (if e.decisions == [] then "" else Section("Decisions", e.decisions))
  {
    Headings();
    hide Join, ItemLines, Section, OWNS, CONDITIONS, DECISIONS;
    var first := ["- " + e.docPath];
    OneLine("- " + e.docPath);
    var owns := first + if e.ownedGlobs == [] then [] else [OWNS] + ItemLines(e.ownedGlobs);
    var conditions := owns + ([CONDITIONS] + ItemLines(e.conditions));
    assert EntryLines(e) == conditions + if e.decisions == [] then [] else [DECISIONS] + ItemLines(e.decisions);
    if e.ownedGlobs != [] { SectionOfLines(first, "Owns", e.ownedGlobs); } else { assert owns == first; }
    SectionOfLines(owns, "Conditions", e.conditions);
    if e.decisions != [] { SectionOfLines(conditions, "Decisions", e.decisions); } else { assert conditions + [] == conditions; }
  }

  lemma {:induction false} EntryTextsOfMore(entries: seq<Entry>, e: Entry)
    ensures EntryTexts(entries + [e]) == EntryTexts(entries) + [EntryText(e)]
    decreases |entries|
  {
    hide EntryText;
    if entries != [] {
      assert (entries + [e])[1..] == entries[1..] + [e];
      EntryTextsOfMore(entries[1..], e);
    }
  }

  /** A registry in print: the preamble as it is, then the entries, with a blank line between two and a newline at the end. */
  lemma RegistryInPrint(preamble: string, entries: seq<Entry>, e: Entry)
    ensures Serialize(Registry(preamble, [])) == preamble
    ensures Serialize(Registry(preamble, [e])) == preamble + EntryText(e) + "\n"
    ensures entries != [] ==>
              Serialize(Registry(preamble, entries + [e])) == Serialize(Registry(preamble, entries)) + "\n" + EntryText(e) + "\n"
  {
    EntryTextsOfMore(entries, e);
    EntryTextsOfMore([], e);
    assert [] + [e] == [e];
    hide EntryText;
    var texts := EntryTexts(entries);
    if entries != [] {
      JoinOfConcat(texts, [EntryText(e)], "\n\n");
      BlankLineBetween(preamble, Join(texts, "\n\n"), EntryText(e));
    }
  }

  lemma BlankLineBetween(preamble: string, above: string, text: string)
    ensures preamble + (above + "\n\n" + text) + "\n" == (preamble + above + "\n") + "\n" + text + "\n"
  {
    assert "\n\n" == "\n" + "\n";
  }
}
