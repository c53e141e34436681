/** What counts as a tag line, a marker and a feature line, said character by character. */
module PromotionText {
  import opened JsStrings
  import opened PromotionTags

  // ---------------------------------------------------------------- lines

  /** The place where a word begins. */
  predicate IsWordStart(line: string, i: nat) {
    i < |line| && !IsSpace(line[i]) && (i == 0 || IsSpace(line[i - 1]))
  }

  predicate EveryWordIsTag(line: string) {
    forall i :: 0 <= i < |line| && IsWordStart(line, i) ==> line[i] == '@'
  }

  lemma WordsBehindSpace(line: string)
    requires line != "" && IsSpace(line[0])
    ensures EveryWordIsTag(line) <==> EveryWordIsTag(line[1..])
  {
    hide IsSpace;
    var rest := line[1..];
    if EveryWordIsTag(line) {
      forall i | 0 <= i < |rest| && IsWordStart(rest, i) ensures rest[i] == '@' { assert IsWordStart(line, i + 1); }
    }
    if EveryWordIsTag(rest) {
      forall i | 0 <= i < |line| && IsWordStart(line, i) ensures line[i] == '@' { assert i > 0 && IsWordStart(rest, i - 1); }
    }
  }

  lemma WordsBehindWord(line: string)
    requires line != "" && !IsSpace(line[0])
    ensures WordLength(line) > 0
    ensures EveryWordIsTag(line) <==> line[0] == '@' && EveryWordIsTag(line[WordLength(line)..])
  {
    var w := WordLength(line);
    assert w > 0;
    hide IsSpace, WordLength;
    var rest := line[w..];
    assert IsWordStart(line, 0);
    if EveryWordIsTag(line) {
      forall i | 0 <= i < |rest| && IsWordStart(rest, i) ensures rest[i] == '@' {
        assert i > 0;
        assert IsWordStart(line, w + i);
      }
    }
    if line[0] == '@' && EveryWordIsTag(rest) {
      forall i | 0 <= i < |line| && IsWordStart(line, i) ensures line[i] == '@' {
        if i > 0 {
          assert i > w;
          assert IsWordStart(rest, i - w);
        }
      }
    }
  }

  lemma {:induction false} TokensAreTags(line: string)
    ensures AllTags(Tokens(line)) <==> EveryWordIsTag(line)
    decreases |line|
  {
    if line != "" {
      if IsSpace(line[0]) {
        WordsBehindSpace(line);
        TokensAreTags(line[1..]);
      } else {
        WordsBehindWord(line);
        TokensUnfold(line);
        var w := WordLength(line);
        TokensAreTags(line[w..]);
        hide Tokens, EveryWordIsTag, WordLength, IsSpace;
        FirstIsTag(line[..w], Tokens(line[w..]));
      }
    }
  }

  lemma FirstIsTag(first: string, rest: seq<string>)
    ensures AllTags([first] + rest) <==> IsTag(first) && AllTags(rest)
  {
    hide IsTag;
    assert ([first] + rest)[0] == first;
    assert forall i :: 0 <= i < |rest| ==> ([first] + rest)[i + 1] == rest[i];
    if AllTags([first] + rest) { forall i | 0 <= i < |rest| ensures IsTag(rest[i]) { assert IsTag(([first] + rest)[i + 1]); } }
  }

  /** A tag line is not blank, and each of its words begins with an at sign. */
  lemma TagLineIff(line: string)
    ensures IsTagLine(line) <==> !IsBlank(line) && EveryWordIsTag(line)
  {
    BlankIffNoTokens(line);
    TokensAreTags(line);
    hide Tokens, IsBlank, AllTags, EveryWordIsTag;
  }

  lemma {:induction false} TrimStartBehind(space: string, text: string)
    requires IsBlank(space) && (text == "" || !IsSpace(text[0]))
    ensures TrimStart(space + text) == text
    ensures Indent(space + text) == space
    decreases |space|
  {
    hide IsSpace;
    if space == "" {
      assert space + text == text;
    } else {
      assert (space + text)[1..] == space[1..] + text;
      TrimStartBehind(space[1..], text);
    }
  }

  lemma {:induction false} IndentAndRest(line: string)
    ensures line == Indent(line) + TrimStart(line)
  {
    hide IsSpace;
    if line != "" && IsSpace(line[0]) {
      IndentAndRest(line[1..]);
      assert [line[0]] + line[1..] == line;
    }
  }

  /** The feature line is the word with its colon, behind nothing but spaces; and that space is its indentation. */
  lemma FeatureLineIff(line: string)
    ensures IsFeatureLine(line) <==> exists n :: 0 <= n <= |line| && IsBlank(line[..n]) && StartsWith(line[n..], "Feature:")
  {
    IndentAndRest(line);
    if IsFeatureLine(line) {
      var n := |Indent(line)|;
      assert line[..n] == Indent(line) && line[n..] == TrimStart(line);
    }
    if n :| 0 <= n <= |line| && IsBlank(line[..n]) && StartsWith(line[n..], "Feature:") {
      assert line[n..][0] == line[n..][..8][0] == 'F';
      TrimStartBehind(line[..n], line[n..]);
      assert line[..n] + line[n..] == line;
    }
  }

  // ---------------------------------------------------------------- markers

  predicate AreDigits(s: string, n: nat) {
    |s| == n && forall i :: 0 <= i < n ==> '0' <= s[i] <= '9'
  }

  /** A date is four digits, two and two, with hyphens between them. */
  lemma DateIff(s: string)
    ensures IsDate(s) <==> exists year: string, month: string, day: string ::
              s == year + "-" + month + "-" + day && AreDigits(year, 4) && AreDigits(month, 2) && AreDigits(day, 2)
  {
    if IsDate(s) {
      var year, month, day := s[..4], s[5..7], s[8..];
      assert s == year + "-" + month + "-" + day;
      assert AreDigits(year, 4) && AreDigits(month, 2) && AreDigits(day, 2);
    }
    if year: string, month: string, day: string :|
      s == year + "-" + month + "-" + day && AreDigits(year, 4) && AreDigits(month, 2) && AreDigits(day, 2) {
      assert s[4] == '-' && s[7] == '-' && s[..4] == year && s[5..7] == month && s[8..] == day;
      forall i | 0 <= i < 10 ensures if i == 4 || i == 7 then s[i] == '-' else IsDigit(s[i]) {
        if i < 4 { assert s[i] == year[i]; } else if 4 < i < 7 { assert s[i] == month[i - 5]; } else if i > 7 { assert s[i] == day[i - 8]; }
      }
    }
  }

  /** The two kinds of markers, as they are written. */
  lemma MarkerIff(token: string)
    ensures IsMarker(token) <==>
            token == "@promotion-declined" || exists date :: IsDate(date) && token == "@promotion-suggested-" + date
    ensures IsSuggestion(token) <==> exists date :: IsDate(date) && token == "@promotion-suggested-" + date
  {
    var head := "@promotion-suggested-";
    hide IsDate;
    if IsSuggestion(token) {
      assert token == head + token[|head|..];
    }
    if date :| IsDate(date) && token == head + date {
      assert token[|head|..] == date && token[..|head|] == head;
    }
  }

  /** The tokens that count are those of the tag lines. */
  lemma {:induction false} TagTokenIff(lines: seq<string>, t: string)
    ensures t in TagTokens(lines) <==> exists i :: 0 <= i < |lines| && IsTagLine(lines[i]) && t in Tokens(lines[i])
  {
    hide IsTagLine, Tokens;
    if lines != [] {
      TagTokenIff(lines[1..], t);
      if i :| 0 <= i < |lines[1..]| && IsTagLine(lines[1..][i]) && t in Tokens(lines[1..][i]) {
        assert lines[i + 1] == lines[1..][i];
      }
      if i :| 0 <= i < |lines| && IsTagLine(lines[i]) && t in Tokens(lines[i]) { assert i > 0 ==> lines[1..][i - 1] == lines[i]; }
    }
  }

  /** The marker stands on some tag line of the file. */
  predicate IsTagged(content: string, t: string) {
    var lines := Split(content, '\n');
    exists i :: 0 <= i < |lines| && IsTagLine(lines[i]) && t in Tokens(lines[i])
  }

  /** A file reads as declined when it is tagged so anywhere, as suggested when it is tagged so with some date, and else as neither. */
  lemma ParseIff(content: string)
    ensures Parse(content) == Declined <==> IsTagged(content, "@promotion-declined")
    ensures Parse(content) == Suggested <==>
            !IsTagged(content, "@promotion-declined") && exists date :: IsDate(date) && IsTagged(content, "@promotion-suggested-" + date)
  {
    var lines := Split(content, '\n');
    var tokens := TagTokens(lines);
    forall t ensures t in tokens <==> IsTagged(content, t) { TagTokenIff(lines, t); }
    hide TagTokens, IsTagged, IsDate, Split, IsSuggestion;
    if HasSuggestion(tokens) {
      var i :| 0 <= i < |tokens| && IsSuggestion(tokens[i]);
      MarkerIff(tokens[i]);
      assert tokens[i] in tokens;
    }
    if date :| IsDate(date) && IsTagged(content, "@promotion-suggested-" + date) {
      MarkerIff("@promotion-suggested-" + date);
      var i :| 0 <= i < |tokens| && tokens[i] == "@promotion-suggested-" + date;
    }
  }
}
