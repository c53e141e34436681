/** ADW ids and the device names made from them. Lower-casing is a parameter: nothing depends on what it does. */
module AdwIds {
  import opened JsStrings

  predicate IsAlnum(c: char) {
    'a' <= c <= 'z' || '0' <= c <= '9'
  }

  function WithoutOthers(s: string): (rest: string)
    ensures |rest| <= |s|
    ensures rest != "" ==> IsAlnum(rest[0])
  {
    if s != "" && !IsAlnum(s[0]) then WithoutOthers(s[1..]) else s
  }

  /** `s.replace(/[^a-z0-9]+/g, '-')` */
  function Collapse(s: string): string
    decreases |s|
  {
    if s == "" then ""
    else if IsAlnum(s[0]) then [s[0]] + Collapse(s[1..])
    else "-" + Collapse(WithoutOthers(s[1..]))
  }

  function WithoutLastHyphen(s: string): string {
    if s != "" && Last(s) == '-' then s[..|s| - 1] else s
  }

  /** `s.replace(/^-|-$/g, '')` */
  function WithoutEndHyphens(s: string): string {
    WithoutLastHyphen(if s != "" && s[0] == '-' then s[1..] else s)
  }

  function Slugify(lower: string -> string, text: string): string {
    Prefix(WithoutEndHyphens(Collapse(lower(text))), 50)
  }

  function Decimal(n: nat): (digits: string)
    ensures digits != "" && forall i :: 0 <= i < |digits| ==> IsAlnum(digits[i])
  {
    if n < 10 then [('0' as int + n) as char] else Decimal(n / 10) + [('0' as int + n % 10) as char]
  }

  function GenerateAdwId(lower: string -> string, random: string, summary: string, now: nat): string {
    var slug := WithoutLastHyphen(Prefix(Slugify(lower, summary), 20));
    if summary != "" && slug != "" then random + "-" + slug else random + "-" + Decimal(now)
  }

  // ---------------------------------------------------------------- the recognised shape

  predicate IsGroup(s: string) {
    s != "" && forall i :: 0 <= i < |s| ==> IsAlnum(s[i])
  }

  predicate AreGroups(parts: seq<string>) {
    forall i :: 0 <= i < |parts| ==> IsGroup(parts[i])
  }

  /** `/^[a-z0-9]+(?:-[a-z0-9]+)+$/` */
  predicate IsAdwId(id: string) {
    |Split(id, '-')| >= 2 && AreGroups(Split(id, '-'))
  }

  /** Letters, digits and hyphens, no two hyphens side by side. */
  predicate IsTidy(s: string) {
    && (forall i :: 0 <= i < |s| ==> IsAlnum(s[i]) || s[i] == '-')
    && (forall i :: 0 < i < |s| ==> !(s[i - 1] == '-' && s[i] == '-'))
  }

  lemma {:induction false} CollapseIsTidy(s: string)
    ensures IsTidy(Collapse(s))
    ensures s != "" && IsAlnum(s[0]) ==> Collapse(s) != "" && Collapse(s)[0] == s[0]
    decreases |s|
  {
    if s != "" {
      CollapseIsTidy(if IsAlnum(s[0]) then s[1..] else WithoutOthers(s[1..]));
    }
  }

  /** A tidy text that neither begins nor ends with a hyphen is made of groups. */
  lemma {:induction false} TidyIsGroups(s: string)
    requires IsTidy(s) && s != "" && s[0] != '-' && Last(s) != '-'
    ensures AreGroups(Split(s, '-'))
  {
    if |s| > 1 {
      var rest := Split(s[1..], '-');
      if s[1] == '-' {
        assert s[2] != '-';
        assert s[1..][1..] == s[2..];
        TidyIsGroups(s[2..]);
        assert rest == [""] + Split(s[2..], '-');
        assert [s[0]] + "" == [s[0]];
        assert Split(s, '-') == [[s[0]]] + Split(s[2..], '-');
      } else {
        TidyIsGroups(s[1..]);
        assert IsGroup(rest[0]);
        assert Split(s, '-') == [[s[0]] + rest[0]] + rest[1..];
      }
    } else {
      SplitWithout(s, '-');
    }
  }

  lemma {:induction false} GroupsAreTidy(s: string)
    requires AreGroups(Split(s, '-'))
    ensures IsTidy(s) && s != "" && s[0] != '-' && Last(s) != '-'
    decreases |s|
  {
    var groups := Split(s, '-');
    assert IsGroup(groups[0]);
    assert s != "" && s[0] != '-';
    var rest := Split(s[1..], '-');
    assert groups[0] == [s[0]] + rest[0] && groups[0][0] == s[0];
    assert s == [s[0]] + s[1..];
    if |s| > 1 {
      if s[1] == '-' {
        assert s[1..][1..] == s[2..] && s[1..] == "-" + s[2..];
        assert rest == [""] + Split(s[2..], '-') && [s[0]] + "" == [s[0]] && rest[1..] == Split(s[2..], '-');
        assert groups == [[s[0]]] + Split(s[2..], '-');
        BehindFirst([s[0]], Split(s[2..], '-'));
        GroupsAreTidy(s[2..]);
        hide Split;
        assert IsTidy("-" + s[2..]);
      } else {
        FirstOfGroups(s[0], rest);
        GroupsAreTidy(s[1..]);
      }
      hide Split;
    }
  }

  lemma BehindFirst(first: string, rest: seq<string>)
    requires AreGroups([first] + rest)
    ensures AreGroups(rest)
  {
    hide IsGroup;
    forall i | 0 <= i < |rest| ensures IsGroup(rest[i]) { assert IsGroup(([first] + rest)[i + 1]); }
  }

  lemma FirstOfGroups(c: char, groups: seq<string>)
    requires groups != [] && groups[0] != "" && AreGroups([[c] + groups[0]] + groups[1..])
    ensures AreGroups(groups)
  {
    var all := [[c] + groups[0]] + groups[1..];
    forall i | 0 <= i < |groups| ensures IsGroup(groups[i]) {
      assert IsGroup(all[i]);
      if i == 0 { assert forall k :: 0 <= k < |groups[0]| ==> groups[0][k] == all[0][k + 1]; }
    }
  }

  lemma {:induction false} HyphenSplits(s: string)
    ensures |Split(s, '-')| >= 2 <==> '-' in s
  {
    if s != "" { HyphenSplits(s[1..]); }
  }

  /** The shape of an id: letters, digits and hyphens, with a hyphen in it, but none at either end and no two side by side. */
  lemma AdwIdIff(id: string)
    ensures IsAdwId(id) <==>
            && '-' in id && id[0] != '-' && id[|id| - 1] != '-'
            && (forall i :: 0 <= i < |id| ==> IsAlnum(id[i]) || id[i] == '-')
            && (forall i :: 0 < i < |id| ==> !(id[i - 1] == '-' && id[i] == '-'))
  {
    HyphenSplits(id);
    if AreGroups(Split(id, '-')) { GroupsAreTidy(id); }
    if IsTidy(id) && id != "" && id[0] != '-' && Last(id) != '-' { TidyIsGroups(id); }
    hide AreGroups, Split;
  }

  predicate IsSlug(s: string) {
    IsTidy(s) && (s != "" ==> s[0] != '-' && Last(s) != '-')
  }

  lemma EndsOfTidy(s: string)
    requires IsTidy(s)
    ensures IsSlug(WithoutEndHyphens(s))
  {
    var t := if s != "" && s[0] == '-' then s[1..] else s;
    assert IsTidy(t) && (t != "" ==> t[0] != '-');
  }

  /** Cutting a slug short and dropping a hyphen left at the cut keeps it a slug. */
  lemma CutSlug(s: string, n: nat)
    requires IsTidy(s) && (s != "" ==> s[0] != '-')
    ensures IsSlug(WithoutLastHyphen(Prefix(s, n)))
  {
    var p := Prefix(s, n);
    assert forall i :: 0 <= i < |p| ==> p[i] == s[i];
  }

  lemma SlugOfSummary(lower: string -> string, summary: string)
    ensures IsSlug(WithoutLastHyphen(Prefix(Slugify(lower, summary), 20)))
  {
    CollapseIsTidy(lower(summary));
    EndsOfTidy(Collapse(lower(summary)));
    var full := WithoutEndHyphens(Collapse(lower(summary)));
    assert IsTidy(Prefix(full, 50));
    CutSlug(Prefix(full, 50), 20);
  }

  /** Whatever the summary, the id has the recognised shape exactly when the random part is not empty. */
  lemma GeneratedIdHasShape(lower: string -> string, random: string, summary: string, now: nat)
    requires forall i :: 0 <= i < |random| ==> IsAlnum(random[i])
    ensures IsAdwId(GenerateAdwId(lower, random, summary, now)) <==> random != ""
  {
    var slug := WithoutLastHyphen(Prefix(Slugify(lower, summary), 20));
    var tail := if summary != "" && slug != "" then slug else Decimal(now);
    SlugOfSummary(lower, summary);
    if tail == slug && slug != "" {
      TidyIsGroups(slug);
    } else {
      SplitWithout(tail, '-');
    }
    assert random + "-" + tail == random + ['-'] + tail;
    SplitAround(random, tail, '-');
    SplitWithout(random, '-');
    assert AreGroups(Split(tail, '-'));
    assert Split(random + "-" + tail, '-')[0] == random;
  }

  // ---------------------------------------------------------------- what an id says

  function Alnums(s: string): string {
    if s == "" then "" else (if IsAlnum(s[0]) then [s[0]] else "") + Alnums(s[1..])
  }

  lemma AlnumsOfCons(c: char, s: string)
    ensures Alnums([c] + s) == (if IsAlnum(c) then [c] else "") + Alnums(s)
  {
    assert ([c] + s)[1..] == s;
  }

  lemma {:induction false} AlnumsOfConcat(a: string, b: string)
    ensures Alnums(a + b) == Alnums(a) + Alnums(b)
    decreases |a|
  {
    if a == "" {
      assert a + b == b;
    } else {
      AlnumsOfCons(a[0], a[1..]);
      AlnumsOfCons(a[0], a[1..] + b);
      hide Alnums, IsAlnum;
      assert a == [a[0]] + a[1..] && a + b == [a[0]] + (a[1..] + b);
      AlnumsOfConcat(a[1..], b);
    }
  }

  lemma {:induction false} OthersCarryNothing(s: string)
    ensures Alnums(WithoutOthers(s)) == Alnums(s)
  {
    if s != "" && !IsAlnum(s[0]) { OthersCarryNothing(s[1..]); }
  }

  lemma {:induction false} CollapseKeepsAlnums(s: string)
    ensures Alnums(Collapse(s)) == Alnums(s)
    decreases |s|
  {
    if s != "" {
      var rest := if IsAlnum(s[0]) then s[1..] else WithoutOthers(s[1..]);
      CollapseKeepsAlnums(rest);
      OthersCarryNothing(s[1..]);
      assert Collapse(s)[1..] == Collapse(rest);
    }
  }

  lemma HyphensCarryNothing(s: string)
    ensures Alnums(WithoutLastHyphen(s)) == Alnums(s)
    ensures Alnums(WithoutEndHyphens(s)) == Alnums(s)
  {
    LastHyphenCarriesNothing(s);
    LastHyphenCarriesNothing(if s != "" && s[0] == '-' then s[1..] else s);
  }

  lemma LastHyphenCarriesNothing(s: string)
    ensures Alnums(WithoutLastHyphen(s)) == Alnums(s)
  {
    if s != "" {
      assert s == s[..|s| - 1] + [Last(s)];
      AlnumsOfConcat(s[..|s| - 1], [Last(s)]);
    }
  }

  lemma PrefixCarriesAPrefix(s: string, n: nat)
    ensures Alnums(Prefix(s, n)) <= Alnums(s)
  {
    assert s == Prefix(s, n) + s[Min(n, |s|)..];
    AlnumsOfConcat(Prefix(s, n), s[Min(n, |s|)..]);
  }

  /**
   * An id is its random part and a hyphen, then the beginning of the summary's letters and digits in at most 20 characters,
   * or the time, exactly when the summary has no letter or digit.
   */
  lemma {:induction false} IdTellsTheSummary(lower: string -> string, random: string, summary: string, now: nat) returns (tail: string)
    requires lower("") == ""
    ensures GenerateAdwId(lower, random, summary, now) == random + "-" + tail
    ensures if Alnums(lower(summary)) == "" then tail == Decimal(now)
            else 0 < |tail| <= 20 && IsSlug(tail) && Alnums(tail) <= Alnums(lower(summary))
  {
    var text := lower(summary);
    var collapsed := Collapse(text);
    var full := WithoutEndHyphens(collapsed);
    var cut := Prefix(Prefix(full, 50), 20);
    var slug := WithoutLastHyphen(cut);
    tail := if summary != "" && slug != "" then slug else Decimal(now);
    SlugOfSummary(lower, summary);
    CollapseKeepsAlnums(text);
    CollapseIsTidy(text);
    HyphensCarryNothing(collapsed);
    HyphensCarryNothing(cut);
    EndsOfTidy(collapsed);
    PrefixCarriesAPrefix(full, 50);
    PrefixCarriesAPrefix(Prefix(full, 50), 20);
    if full == "" {
      assert Alnums(text) == Alnums("") == "";
    } else {
      assert cut != "" && cut[0] == full[0] && IsAlnum(full[0]);
    }
    hide Collapse, WithoutEndHyphens, IsTidy;
  }

  // ---------------------------------------------------------------- the words of a summary

  function WordEnd(s: string): (n: nat)
    ensures n <= |s| && (forall i :: 0 <= i < n ==> IsAlnum(s[i])) && (n < |s| ==> !IsAlnum(s[n]))
  {
    if s == "" || !IsAlnum(s[0]) then 0 else 1 + WordEnd(s[1..])
  }

  /** The longest runs of letters and digits, in order. */
  function Words(s: string): seq<string>
    decreases |s|
  {
    if s == "" then []
    else if !IsAlnum(s[0]) then Words(s[1..])
    else [s[..WordEnd(s)]] + Words(s[WordEnd(s)..])
  }

  lemma {:induction false} OthersAreNoWords(s: string)
    ensures Words(WithoutOthers(s)) == Words(s)
    ensures WithoutOthers(s) != "" ==> s != "" && Last(WithoutOthers(s)) == Last(s)
    ensures WithoutOthers(s) == "" && s != "" ==> !IsAlnum(Last(s))
  {
    hide IsAlnum;
    if s != "" && !IsAlnum(s[0]) { OthersAreNoWords(s[1..]); }
  }

  lemma {:induction false} CollapseOfWord(word: string, rest: string)
    requires forall i :: 0 <= i < |word| ==> IsAlnum(word[i])
    ensures Collapse(word + rest) == word + Collapse(rest)
    decreases |word|
  {
    if word == "" {
      assert word + rest == rest;
    } else {
      assert (word + rest)[1..] == word[1..] + rest;
      CollapseOfWord(word[1..], rest);
      assert [word[0]] + (word[1..] + Collapse(rest)) == word + Collapse(rest);
    }
  }

  function TailHyphen(s: string): string
    requires s != ""
  {
    if IsAlnum(Last(s)) then "" else "-"
  }

  /** From its first letter or digit on, a collapsed text is its words with hyphens between them, and one behind what follows them. */
  lemma {:induction false} CollapseIsWords(s: string)
    requires s != "" && IsAlnum(s[0])
    ensures Words(s) != [] && Collapse(s) == Join(Words(s), "-") + TailHyphen(s)
    decreases |s|
  {
    var word, rest := FirstWord(s);
    CollapseOfWord(word, rest);
    if rest != "" {
      var next := BehindWord(rest);
      if next != "" {
        CollapseIsWords(next);
        hide Collapse, Words, IsAlnum;
        JoinedWithFirst(word, Words(next), TailHyphen(next));
      }
    }
  }

  lemma FirstWord(s: string) returns (word: string, rest: string)
    requires s != "" && IsAlnum(s[0])
    ensures s == word + rest && word != "" && (forall i :: 0 <= i < |word| ==> IsAlnum(word[i]))
    ensures rest != "" ==> !IsAlnum(rest[0])
    ensures Words(s) == [word] + Words(rest)
    ensures |rest| < |s|
    ensures rest == "" ==> Collapse(rest) == "" && Words(rest) == [] && Last(s) == Last(word)
    ensures rest != "" ==> Last(s) == Last(rest)
  {
    word, rest := s[..WordEnd(s)], s[WordEnd(s)..];
  }

  lemma BehindWord(rest: string) returns (next: string)
    requires rest != "" && !IsAlnum(rest[0])
    ensures |next| < |rest| && Collapse(rest) == "-" + Collapse(next) && Words(rest) == Words(next)
    ensures next != "" ==> IsAlnum(next[0]) && Last(next) == Last(rest)
    ensures next == "" ==> Collapse(next) == "" && Words(next) == [] && !IsAlnum(Last(rest))
  {
    next := WithoutOthers(rest[1..]);
    OthersAreNoWords(rest[1..]);
  }

  lemma JoinedWithFirst(word: string, words: seq<string>, tail: string)
    requires words != []
    ensures word + ("-" + (Join(words, "-") + tail)) == Join([word] + words, "-") + tail
  {
    assert ([word] + words)[1..] == words;
    assert word + ("-" + (Join(words, "-") + tail)) == (word + "-" + Join(words, "-")) + tail;
  }

  /** A slug, before it is cut, is the words of the text with hyphens between them. */
  lemma SlugIsWords(s: string)
    ensures WithoutEndHyphens(Collapse(s)) == Join(Words(s), "-")
  {
    var text := WithoutOthers(s);
    OthersAreNoWords(s);
    if text != "" { CollapseIsWords(text); }
    var joined := Join(Words(s), "-");
    JoinedWordsEnd(s);
    hide Words, Join;
    if s != "" && !IsAlnum(s[0]) {
      assert WithoutOthers(s) == WithoutOthers(s[1..]);
      assert Collapse(s) == "-" + Collapse(text);
    } else {
      assert text == s;
    }
    assert Collapse(text) == "" || Collapse(text) == joined + TailHyphen(text);
    hide Collapse, IsAlnum;
    if text != "" { HyphensGo(joined, TailHyphen(text)); }
  }

  lemma HyphensGo(joined: string, tail: string)
    requires joined != "" && joined[0] != '-' && Last(joined) != '-' && tail in ["", "-"]
    ensures WithoutEndHyphens(joined + tail) == WithoutEndHyphens("-" + (joined + tail)) == joined
  {
    assert ("-" + (joined + tail))[1..] == joined + tail;
    assert tail == "-" ==> (joined + tail)[..|joined|] == joined;
    assert tail == "" ==> joined + tail == joined;
  }

  lemma {:induction false} JoinedWordsEnd(s: string)
    ensures var joined := Join(Words(s), "-"); joined != "" ==> joined[0] != '-' && Last(joined) != '-'
    ensures Words(s) != [] ==> Join(Words(s), "-") != ""
    decreases |s|
  {
    if s != "" {
      if !IsAlnum(s[0]) {
        JoinedWordsEnd(s[1..]);
      } else {
        var word, rest := s[..WordEnd(s)], s[WordEnd(s)..];
        JoinedWordsEnd(rest);
        assert word != "" && word[0] != '-' && Last(word) != '-';
        assert ([word] + Words(rest))[1..] == Words(rest);
      }
    }
  }

  /**
   * The id in full: the random part, a hyphen, and the words of the summary in lower case with hyphens between them, cut after
   * 20 characters, or before a hyphen that would be the last of them; or the time when there are no words.
   */
  lemma IdInWords(lower: string -> string, random: string, summary: string, now: nat)
    requires lower("") == ""
    ensures
      var words := Join(Words(lower(summary)), "-");
      GenerateAdwId(lower, random, summary, now) ==
        random + "-" + (if words == "" then Decimal(now)
                        else if |words| <= 20 then words
                        else if words[19] == '-' then words[..19] else words[..20])
  {
    var words := Join(Words(lower(summary)), "-");
    SlugIsWords(lower(summary));
    JoinedWordsEnd(lower(summary));
    if summary == "" { assert Words("") == []; }
    assert Prefix(Prefix(words, 50), 20) == Prefix(words, 20);
    hide Words, Collapse, WithoutEndHyphens, Decimal;
    if |words| > 20 {
      assert Prefix(words, 20) == words[..20];
      assert words[..20][..19] == words[..19];
    } else {
      assert Prefix(words, 20) == words;
    }
  }

  function Value(digits: string): int {
    if digits == "" then 0 else Value(digits[..|digits| - 1]) * 10 + (Last(digits) as int - '0' as int)
  }

  /** The time reads back, so ids made at different times differ. */
  lemma {:induction false} DecimalReadsBack(n: nat)
    ensures Value(Decimal(n)) == n
  {
    if n >= 10 {
      DecimalReadsBack(n / 10);
      var front, last := Decimal(n / 10), ('0' as int + n % 10) as char;
      assert (front + [last])[..|front|] == front;
    } else {
      assert Decimal(n)[..0] == "";
    }
  }

  // ---------------------------------------------------------------- device names

  const DEVICE_NAME_PREFIX := "adw-"

  function DeviceNameFor(adwId: string): string {
    DEVICE_NAME_PREFIX + adwId
  }

  function AdwIdOfDeviceName(name: string): Option<string> {
    if !StartsWith(name, DEVICE_NAME_PREFIX) then None
    else
      var adwId := name[|DEVICE_NAME_PREFIX|..];
      if IsAdwId(adwId) then Some(adwId) else None
  }

  /** A name is read as an id exactly when it is the name made for that id and the id has the shape. */
  lemma NamesAndIdsCorrespond(name: string, adwId: string)
    ensures AdwIdOfDeviceName(name) == Some(adwId) <==> name == DeviceNameFor(adwId) && IsAdwId(adwId)
  {
    hide IsAdwId;
    assert DeviceNameFor(adwId)[..4] == DEVICE_NAME_PREFIX && DeviceNameFor(adwId)[4..] == adwId;
    if StartsWith(name, DEVICE_NAME_PREFIX) {
      assert name == name[..4] + name[4..];
    }
  }

  /** The janitor recognises every device that is named for a generated id. */
  lemma GeneratedDevicesAreRecognised(lower: string -> string, random: string, summary: string, now: nat)
    requires IsGroup(random)
    ensures var adwId := GenerateAdwId(lower, random, summary, now); AdwIdOfDeviceName(DeviceNameFor(adwId)) == Some(adwId)
  {
    GeneratedIdHasShape(lower, random, summary, now);
    NamesAndIdsCorrespond(DeviceNameFor(GenerateAdwId(lower, random, summary, now)), GenerateAdwId(lower, random, summary, now));
  }

  /** An empty random part, which `Math.random()` can give, makes an id whose device no janitor will find. */
  lemma EmptyRandomPartIsNotRecognised(lower: string -> string, summary: string, now: nat)
    ensures AdwIdOfDeviceName(DeviceNameFor(GenerateAdwId(lower, "", summary, now))) == None
  {
    var adwId := GenerateAdwId(lower, "", summary, now);
    GeneratedIdHasShape(lower, "", summary, now);
    hide IsAdwId, GenerateAdwId;
    assert DeviceNameFor(adwId)[4..] == adwId;
  }
}
