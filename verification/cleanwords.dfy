/** The cleaner keeps the words: every stage of `_general_clean` and the
    final `strip()` of `clean_text` only rewrite, shorten or drop
    whitespace runs, so `str.split()` of the cleaned text is `str.split()`
    of its input; and the cleaned text never holds a tab or two spaces in a
    row. */
module CleanWords {

  import opened Seqs
  import opened Text
  import opened WordsKept
  import opened Cleaner

  lemma {:induction false} ReplaceCrLfWords(s: String)
    ensures Words(ReplaceCrLf(s)) == Words(s) && StartsWord(ReplaceCrLf(s)) == StartsWord(s)
    decreases |s|
  {
    var r := ReplaceCrLf(s);
    if |s| >= 2 && s[0] == '\r' && s[1] == '\n' {
      var rest := ReplaceCrLf(s[2..]);
      ReplaceCrLfWords(s[2..]);
      assert r == "\n" + rest;
      WordsSpaceCons('\n', rest);
      WordsSkip(s, 2);
    } else if |s| > 0 {
      var rest := ReplaceCrLf(s[1..]);
      ReplaceCrLfWords(s[1..]);
      assert r == [s[0]] + rest;
      WordsCongruent(s[0], rest, s[1..]);
      assert s == [s[0]] + s[1..];
    }
  }

  /** Both line-ending replacements keep the words. */
  lemma {:induction false} NormalizeNewlinesWords(s: String)
    ensures Words(NormalizeNewlines(s)) == Words(s) && StartsWord(NormalizeNewlines(s)) == StartsWord(s)
  {
    var t := ReplaceCrLf(s);
    ReplaceCrLfWords(s);
    WordsPointwise(CrToLf(t), t);
  }

  lemma {:induction false} CollapseBlanksWords(s: String)
    ensures Words(CollapseBlanks(s)) == Words(s) && StartsWord(CollapseBlanks(s)) == StartsWord(s)
    decreases |s|
  {
    if |s| > 0 {
      if IsBlank(s[0]) {
        var j := SpanEnd(s, 0, IsBlank);
        var rest := CollapseBlanks(s[j..]);
        CollapseBlanksWords(s[j..]);
        assert CollapseBlanks(s) == [' '] + rest;
        WordsSpaceCons(' ', rest);
        WordsSkip(s, j);
      } else {
        var rest := CollapseBlanks(s[1..]);
        CollapseBlanksWords(s[1..]);
        assert CollapseBlanks(s) == [s[0]] + rest;
        WordsCongruent(s[0], rest, s[1..]);
        assert s == [s[0]] + s[1..];
      }
    }
  }

  lemma {:induction false} CollapseNewlinesWords(s: String)
    ensures Words(CollapseNewlines(s)) == Words(s) && StartsWord(CollapseNewlines(s)) == StartsWord(s)
    decreases |s|
  {
    if |s| > 0 {
      if s[0] == '\n' {
        var j := SpanEnd(s, 0, IsNewline);
        var rest := CollapseNewlines(s[j..]);
        CollapseNewlinesWords(s[j..]);
        var run := RunOf(s, j);
        assert CollapseNewlines(s) == run + rest;
        assert (run + rest)[|run|..] == rest;
        WordsSkip(run + rest, |run|);
        WordsSkip(s, j);
      } else {
        var rest := CollapseNewlines(s[1..]);
        CollapseNewlinesWords(s[1..]);
        assert CollapseNewlines(s) == [s[0]] + rest;
        WordsCongruent(s[0], rest, s[1..]);
        assert s == [s[0]] + s[1..];
      }
    }
  }

  lemma {:induction false} StripLinesWords(s: String)
    ensures Words(StripLines(s)) == Words(s)
  {
    var parts := Split(s, '\n');
    var lines := StripEach(parts);
    assert StripLines(s) == Join(lines, '\n');
    forall k | 0 <= k < |lines|
      ensures Words(lines[k]) == Words(parts[k])
    {
      WordsStrip(parts[k]);
    }
    WordsJoinSame(lines, parts, '\n');
  }

  /** `_general_clean` keeps the words. */
  lemma {:induction false} GeneralCleanWords(s: String)
    ensures Words(GeneralClean(s)) == Words(s)
  {
    var a := NormalizeNewlines(s);
    var b := CollapseBlanks(a);
    var c := CollapseNewlines(b);
    assert GeneralClean(s) == StripLines(c);
    NormalizeNewlinesWords(s);
    CollapseBlanksWords(a);
    CollapseNewlinesWords(b);
    StripLinesWords(c);
  }

  // ---------------------------------------------------------------------
  // No tab and no double space
  // ---------------------------------------------------------------------

  lemma {:induction false} BlanksSlice(s: String, a: nat, b: nat)
    requires a <= b <= |s| && BlanksCollapsed(s)
    ensures BlanksCollapsed(s[a..b])
  {
    var t := s[a..b];
    forall i | 0 <= i < |t| - 1
      ensures !(t[i] == ' ' && t[i + 1] == ' ')
    {
      assert t[i] == s[a + i] && t[i + 1] == s[a + i + 1];
    }
    assert forall i :: 0 <= i < |t| ==> t[i] == s[a + i];
  }

  lemma {:induction false} BlanksInfix(needle: String, hay: String)
    requires IsInfix(needle, hay) && BlanksCollapsed(hay)
    ensures BlanksCollapsed(needle)
    decreases |hay|
  {
    if needle <= hay {
      assert needle == hay[..|needle|];
      BlanksSlice(hay, 0, |needle|);
    } else {
      BlanksSlice(hay, 1, |hay|);
      assert hay[1..|hay|] == hay[1..];
      BlanksInfix(needle, hay[1..]);
    }
  }

  /** Joining with newlines keeps the form. */
  lemma {:induction false} BlanksJoin(ps: seq<String>)
    requires forall k :: 0 <= k < |ps| ==> BlanksCollapsed(ps[k])
    ensures BlanksCollapsed(Join(ps, '\n'))
    decreases |ps|
  {
    if |ps| > 1 {
      var tail := Join(ps[1..], '\n');
      BlanksJoin(ps[1..]);
      var s := ps[0] + ['\n'] + tail;
      assert Join(ps, '\n') == s;
      forall i | 0 <= i < |s| - 1
        ensures !(s[i] == ' ' && s[i + 1] == ' ')
      {
        if i + 1 < |ps[0]| {
          assert s[i] == ps[0][i] && s[i + 1] == ps[0][i + 1];
        } else if i > |ps[0]| {
          assert s[i] == tail[i - |ps[0]| - 1] && s[i + 1] == tail[i - |ps[0]|];
        }
      }
      assert '\t' !in s by {
        forall i | 0 <= i < |s|
          ensures s[i] != '\t'
        {
          if i < |ps[0]| {
            assert s[i] == ps[0][i];
          } else if i > |ps[0]| {
            assert s[i] == tail[i - |ps[0]| - 1];
          }
        }
      }
    }
  }

  lemma {:induction false} StripLinesBlanks(s: String)
    requires BlanksCollapsed(s)
    ensures BlanksCollapsed(StripLines(s))
  {
    var parts := Split(s, '\n');
    var lines := StripEach(parts);
    assert StripLines(s) == Join(lines, '\n');
    forall k | 0 <= k < |lines|
      ensures BlanksCollapsed(lines[k])
    {
      JoinContainsParts(parts, '\n', k);
      BlanksInfix(parts[k], s);
      BlanksSlice(parts[k], StripStart(parts[k]), StripEnd(parts[k]));
    }
    BlanksJoin(lines);
  }

  /** Cutting newline runs never brings two spaces together; a leading
      character other than a newline stays in front. */
  lemma {:induction false} CollapseNewlinesBlanks(s: String)
    requires BlanksCollapsed(s)
    ensures BlanksCollapsed(CollapseNewlines(s))
    ensures |s| > 0 && s[0] != '\n' ==> CollapseNewlines(s)[0] == s[0]
    decreases |s|
  {
    var r := CollapseNewlines(s);
    if |s| > 0 {
      assert '\t' !in r;
      if s[0] == '\n' {
        var j := SpanEnd(s, 0, IsNewline);
        var rest := CollapseNewlines(s[j..]);
        BlanksSlice(s, j, |s|);
        assert s[j..|s|] == s[j..];
        CollapseNewlinesBlanks(s[j..]);
        var run := RunOf(s, j);
        assert r == run + rest;
        forall i | 0 <= i < |r| - 1
          ensures !(r[i] == ' ' && r[i + 1] == ' ')
        {
          if i >= |run| {
            assert r[i] == rest[i - |run|] && r[i + 1] == rest[i - |run| + 1];
          } else {
            assert r[i] == '\n';
          }
        }
      } else {
        var rest := CollapseNewlines(s[1..]);
        BlanksSlice(s, 1, |s|);
        assert s[1..|s|] == s[1..];
        CollapseNewlinesBlanks(s[1..]);
        assert r == [s[0]] + rest;
        forall i | 0 <= i < |r| - 1
          ensures !(r[i] == ' ' && r[i + 1] == ' ')
        {
          if i > 0 {
            assert r[i] == rest[i - 1] && r[i + 1] == rest[i];
          } else if s[1] != '\n' {
            assert r[1] == s[1];
          }
        }
      }
    }
  }

  /** `_general_clean` leaves no tab and no two spaces in a row. */
  lemma {:induction false} GeneralCleanBlanks(s: String)
    ensures BlanksCollapsed(GeneralClean(s))
  {
    var a := NormalizeNewlines(s);
    var b := CollapseBlanks(a);
    var c := CollapseNewlines(b);
    assert GeneralClean(s) == StripLines(c);
    CollapseNewlinesBlanks(b);
    StripLinesBlanks(c);
  }

  /** `clean_text` keeps the words of its format pass, and of the input
      itself for plain text; the result holds no tab and no two spaces in
      a row. */
  lemma {:induction false} CleanTextWords(text: String, sourceType: String, html: String -> String, minLineLength: int)
    ensures !AllSpace(text) ==>
              Words(CleanText(text, sourceType, html, minLineLength))
              == Words(FormatPass(text, sourceType, html, minLineLength))
    ensures sourceType == "txt" ==> Words(CleanText(text, sourceType, html, minLineLength)) == Words(text)
    ensures BlanksCollapsed(CleanText(text, sourceType, html, minLineLength))
  {
    if AllSpace(text) {
      WordsAllSpace(text);
    } else {
      var f := FormatPass(text, sourceType, html, minLineLength);
      var g := GeneralClean(f);
      assert CleanText(text, sourceType, html, minLineLength) == Strip(g);
      GeneralCleanWords(f);
      WordsStrip(g);
      GeneralCleanBlanks(f);
      BlanksSlice(g, StripStart(g), StripEnd(g));
    }
  }
}
