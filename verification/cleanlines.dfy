/** The cleaner keeps the line structure. Each CRLF and each lone CR
    becomes exactly one LF and every LF stays; a maximal run of `k`
    newlines becomes `min(k, 2)` newlines; and in text with neither a
    carriage return nor a run of three newlines, `_general_clean` keeps
    every line in place, with its blanks collapsed and its ends stripped. */
module CleanLines {

  import opened Seqs
  import opened Text
  import opened WordsKept
  import opened Cleaner
  import opened CleanWords

  // ---------------------------------------------------------------------
  // Line endings
  // ---------------------------------------------------------------------

  /** Regrouping a concatenation: `h + (p + q) == (h + p) + q`, stated
      over names so that the strings on either side stay abstract. */
  lemma {:induction false} Regroup(x: String, y: String, z: String, h: String, p: String, q: String)
    requires x == h + y && y == p + q && z == h + p
    ensures x == z + q
  {
    assert h + (p + q) == (h + p) + q;
  }

  /** One step of `replace('\r\n', '\n')` at a leading CRLF. */
  lemma {:induction false} ReplaceCrLfPair(s: String)
    requires |s| >= 2 && s[0] == '\r' && s[1] == '\n'
    ensures ReplaceCrLf(s) == "\n" + ReplaceCrLf(s[2..])
  {
  }

  /** One step of `replace('\r\n', '\n')` at any other first character. */
  lemma {:induction false} ReplaceCrLfSingle(s: String)
    requires |s| >= 1 && !(|s| >= 2 && s[0] == '\r' && s[1] == '\n')
    ensures ReplaceCrLf(s) == [s[0]] + ReplaceCrLf(s[1..])
  {
  }

  /** `replace('\r\n', '\n')` works piecewise when the cut does not split
      a CRLF. */
  lemma {:induction false} ReplaceCrLfAppend(a: String, t: String)
    requires |a| == 0 || |t| == 0 || a[|a| - 1] != '\r' || t[0] != '\n'
    ensures ReplaceCrLf(a + t) == ReplaceCrLf(a) + ReplaceCrLf(t)
    decreases |a|
  {
    if |a| == 0 {
      assert a + t == t;
    } else if |a| >= 2 && a[0] == '\r' && a[1] == '\n' {
      ReplaceCrLfAppend(a[2..], t);
      ReplaceCrLfAppendPair(a, t);
    } else {
      ReplaceCrLfAppend(a[1..], t);
      ReplaceCrLfAppendSingle(a, t);
    }
  }

  lemma {:induction false} ReplaceCrLfAppendPair(a: String, t: String)
    requires |a| >= 2 && a[0] == '\r' && a[1] == '\n'
    requires ReplaceCrLf(a[2..] + t) == ReplaceCrLf(a[2..]) + ReplaceCrLf(t)
    ensures ReplaceCrLf(a + t) == ReplaceCrLf(a) + ReplaceCrLf(t)
  {
    ReplaceCrLfPairHead(a, t);
    ReplaceCrLfPair(a);
    Regroup(ReplaceCrLf(a + t), ReplaceCrLf(a[2..] + t), ReplaceCrLf(a), "\n", ReplaceCrLf(a[2..]), ReplaceCrLf(t));
  }

  lemma {:induction false} ReplaceCrLfPairHead(a: String, t: String)
    requires |a| >= 2 && a[0] == '\r' && a[1] == '\n'
    ensures ReplaceCrLf(a + t) == "\n" + ReplaceCrLf(a[2..] + t)
  {
    var s := a + t;
    assert s[2..] == a[2..] + t;
    ReplaceCrLfPair(s);
  }

  lemma {:induction false} ReplaceCrLfAppendSingle(a: String, t: String)
    requires |a| >= 1 && !(|a| >= 2 && a[0] == '\r' && a[1] == '\n')
    requires |a| == 0 || |t| == 0 || a[|a| - 1] != '\r' || t[0] != '\n'
    requires ReplaceCrLf(a[1..] + t) == ReplaceCrLf(a[1..]) + ReplaceCrLf(t)
    ensures ReplaceCrLf(a + t) == ReplaceCrLf(a) + ReplaceCrLf(t)
  {
    ReplaceCrLfSingleHead(a, t);
    ReplaceCrLfSingle(a);
    Regroup(ReplaceCrLf(a + t), ReplaceCrLf(a[1..] + t), ReplaceCrLf(a), [a[0]], ReplaceCrLf(a[1..]), ReplaceCrLf(t));
  }

  lemma {:induction false} ReplaceCrLfSingleHead(a: String, t: String)
    requires |a| >= 1 && !(|a| >= 2 && a[0] == '\r' && a[1] == '\n')
    requires |a| == 0 || |t| == 0 || a[|a| - 1] != '\r' || t[0] != '\n'
    ensures ReplaceCrLf(a + t) == [a[0]] + ReplaceCrLf(a[1..] + t)
  {
    var s := a + t;
    assert s[0] == a[0] && s[1..] == a[1..] + t;
    assert |s| >= 2 ==> s[1] == (if |a| >= 2 then a[1] else t[0]);
    ReplaceCrLfSingle(s);
  }

  lemma {:induction false} CrToLfAppend(a: String, t: String)
    ensures CrToLf(a + t) == CrToLf(a) + CrToLf(t)
  {
  }

  /** Both line-ending replacements work piecewise when the cut does not
      split a CRLF. */
  lemma {:induction false} NormalizeNewlinesAppend(a: String, t: String)
    requires |a| == 0 || |t| == 0 || a[|a| - 1] != '\r' || t[0] != '\n'
    ensures NormalizeNewlines(a + t) == NormalizeNewlines(a) + NormalizeNewlines(t)
  {
    ReplaceCrLfAppend(a, t);
    CrToLfAppend(ReplaceCrLf(a), ReplaceCrLf(t));
  }

  /** `replace('\r\n', '\n')` then `replace('\r', '\n')`. */
  lemma {:induction false} NormalizeNewlinesIs(s: String)
    ensures NormalizeNewlines(s) == CrToLf(ReplaceCrLf(s))
  {
  }

  /** A leading CRLF becomes one LF. */
  lemma {:induction false} NormalizeCrLfHead(b: String)
    ensures NormalizeNewlines("\r\n" + b) == "\n" + NormalizeNewlines(b)
  {
    var t := "\r\n" + b;
    assert t[2..] == b;
    assert ReplaceCrLf(t) == "\n" + ReplaceCrLf(b);
    CrToLfAppend("\n", ReplaceCrLf(b));
    NormalizeNewlinesIs(t);
    NormalizeNewlinesIs(b);
  }

  /** A leading CR not followed by LF becomes one LF. */
  lemma {:induction false} NormalizeCrHead(b: String)
    requires |b| == 0 || b[0] != '\n'
    ensures NormalizeNewlines("\r" + b) == "\n" + NormalizeNewlines(b)
  {
    var t := "\r" + b;
    assert t[1..] == b;
    assert ReplaceCrLf(t) == "\r" + ReplaceCrLf(b);
    CrToLfAppend("\r", ReplaceCrLf(b));
    NormalizeNewlinesIs(t);
    NormalizeNewlinesIs(b);
  }

  /** A leading LF stays one LF. */
  lemma {:induction false} NormalizeLfHead(b: String)
    ensures NormalizeNewlines("\n" + b) == "\n" + NormalizeNewlines(b)
  {
    var t := "\n" + b;
    assert t[1..] == b;
    assert ReplaceCrLf(t) == "\n" + ReplaceCrLf(b);
    CrToLfAppend("\n", ReplaceCrLf(b));
    NormalizeNewlinesIs(t);
    NormalizeNewlinesIs(b);
  }

  /** Each line break becomes exactly one LF, and the text on either side
      is normalised on its own: a CRLF, a CR not followed by LF, and an LF
      not preceded by CR. */
  lemma {:induction false} NormalizeNewlinesBreaks(a: String, b: String)
    ensures NormalizeNewlines(a + "\r\n" + b) == NormalizeNewlines(a) + "\n" + NormalizeNewlines(b)
    ensures |b| == 0 || b[0] != '\n' ==>
              NormalizeNewlines(a + "\r" + b) == NormalizeNewlines(a) + "\n" + NormalizeNewlines(b)
    ensures |a| == 0 || a[|a| - 1] != '\r' ==>
              NormalizeNewlines(a + "\n" + b) == NormalizeNewlines(a) + "\n" + NormalizeNewlines(b)
  {
    BreakCrLf(a, b);
    if |b| == 0 || b[0] != '\n' {
      BreakCr(a, b);
    }
    if |a| == 0 || a[|a| - 1] != '\r' {
      BreakLf(a, b);
    }
  }

  lemma {:induction false} BreakCrLf(a: String, b: String)
    ensures NormalizeNewlines(a + "\r\n" + b) == NormalizeNewlines(a) + "\n" + NormalizeNewlines(b)
  {
    var t := "\r\n" + b;
    assert a + "\r\n" + b == a + t;
    NormalizeNewlinesAppend(a, t);
    NormalizeCrLfHead(b);
    Regroup(NormalizeNewlines(a + t), NormalizeNewlines(t), NormalizeNewlines(a) + "\n",
            NormalizeNewlines(a), "\n", NormalizeNewlines(b));
  }

  lemma {:induction false} BreakCr(a: String, b: String)
    requires |b| == 0 || b[0] != '\n'
    ensures NormalizeNewlines(a + "\r" + b) == NormalizeNewlines(a) + "\n" + NormalizeNewlines(b)
  {
    var t := "\r" + b;
    assert a + "\r" + b == a + t;
    NormalizeNewlinesAppend(a, t);
    NormalizeCrHead(b);
    Regroup(NormalizeNewlines(a + t), NormalizeNewlines(t), NormalizeNewlines(a) + "\n",
            NormalizeNewlines(a), "\n", NormalizeNewlines(b));
  }

  lemma {:induction false} BreakLf(a: String, b: String)
    requires |a| == 0 || a[|a| - 1] != '\r'
    ensures NormalizeNewlines(a + "\n" + b) == NormalizeNewlines(a) + "\n" + NormalizeNewlines(b)
  {
    var t := "\n" + b;
    assert a + "\n" + b == a + t;
    NormalizeNewlinesAppend(a, t);
    NormalizeLfHead(b);
    Regroup(NormalizeNewlines(a + t), NormalizeNewlines(t), NormalizeNewlines(a) + "\n",
            NormalizeNewlines(a), "\n", NormalizeNewlines(b));
  }

  // ---------------------------------------------------------------------
  // Newline runs
  // ---------------------------------------------------------------------

  /** One step of the newline collapse at a leading run of newlines. */
  lemma {:induction false} CollapseNewlinesRunStep(s: String, j: nat)
    requires |s| > 0 && s[0] == '\n' && j == SpanEnd(s, 0, IsNewline)
    ensures 0 < j <= |s|
    ensures CollapseNewlines(s) == RunOf(s, j) + CollapseNewlines(s[j..])
  {
  }

  /** One step of the newline collapse at any other first character. */
  lemma {:induction false} CollapseNewlinesKeepStep(s: String)
    requires |s| > 0 && s[0] != '\n'
    ensures CollapseNewlines(s) == [s[0]] + CollapseNewlines(s[1..])
  {
  }

  /** A newline run never straddles a cut after a character other than a
      newline. */
  lemma {:induction false} CollapseNewlinesAppend(a: String, t: String)
    requires |a| == 0 || a[|a| - 1] != '\n'
    ensures CollapseNewlines(a + t) == CollapseNewlines(a) + CollapseNewlines(t)
    decreases |a|
  {
    if |a| == 0 {
      assert a + t == t;
    } else if a[0] == '\n' {
      var j := SpanEnd(a, 0, IsNewline);
      CollapseNewlinesAppend(a[j..], t);
      CollapseNewlinesAppendRun(a, t, j);
    } else {
      CollapseNewlinesAppend(a[1..], t);
      CollapseNewlinesAppendKeep(a, t);
    }
  }

  lemma {:induction false} CollapseNewlinesAppendRun(a: String, t: String, j: nat)
    requires |a| > 0 && a[0] == '\n' && a[|a| - 1] != '\n'
    requires j == SpanEnd(a, 0, IsNewline)
    requires j <= |a| && CollapseNewlines(a[j..] + t) == CollapseNewlines(a[j..]) + CollapseNewlines(t)
    ensures CollapseNewlines(a + t) == CollapseNewlines(a) + CollapseNewlines(t)
  {
    CollapseNewlinesRunStep(a, j);
    CollapseNewlinesRunHead(a, t, j);
    Regroup(CollapseNewlines(a + t), CollapseNewlines(a[j..] + t), CollapseNewlines(a), RunOf(a, j),
            CollapseNewlines(a[j..]), CollapseNewlines(t));
  }

  lemma {:induction false} CollapseNewlinesRunHead(a: String, t: String, j: nat)
    requires |a| > 0 && a[0] == '\n' && a[|a| - 1] != '\n'
    requires j == SpanEnd(a, 0, IsNewline)
    ensures 0 < j < |a|
    ensures CollapseNewlines(a + t) == RunOf(a, j) + CollapseNewlines(a[j..] + t)
  {
    var s := a + t;
    SpanEndAt(s, 0, j, IsNewline);
    assert s[j..] == a[j..] + t;
    CollapseNewlinesRunStep(s, j);
    assert RunOf(s, j) == RunOf(a, j);
  }

  lemma {:induction false} CollapseNewlinesAppendKeep(a: String, t: String)
    requires |a| > 0 && a[0] != '\n'
    requires CollapseNewlines(a[1..] + t) == CollapseNewlines(a[1..]) + CollapseNewlines(t)
    ensures CollapseNewlines(a + t) == CollapseNewlines(a) + CollapseNewlines(t)
  {
    CollapseNewlinesKeepHead(a, t);
    CollapseNewlinesKeepStep(a);
    Regroup(CollapseNewlines(a + t), CollapseNewlines(a[1..] + t), CollapseNewlines(a), [a[0]],
            CollapseNewlines(a[1..]), CollapseNewlines(t));
  }

  lemma {:induction false} CollapseNewlinesKeepHead(a: String, t: String)
    requires |a| > 0 && a[0] != '\n'
    ensures CollapseNewlines(a + t) == [a[0]] + CollapseNewlines(a[1..] + t)
  {
    var s := a + t;
    assert s[0] == a[0] && s[1..] == a[1..] + t;
    CollapseNewlinesKeepStep(s);
  }

  /** A leading run of `k` newlines becomes `min(k, 2)` newlines. */
  lemma {:induction false} CollapseNewlinesLead(k: nat, b: String)
    requires |b| == 0 || b[0] != '\n'
    ensures CollapseNewlines(Repeat('\n', k) + b) == Repeat('\n', Min(k, 2)) + CollapseNewlines(b)
  {
    var s := Repeat('\n', k) + b;
    if k == 0 {
      assert s == b;
    } else {
      SpanEndAt(s, 0, k, IsNewline);
      assert s[k..] == b;
      assert RunOf(s, k) == Repeat('\n', Min(k, 2));
    }
  }

  /** `re.sub(r'\n{3,}', '\n\n', ...)` on a maximal run of `k` newlines:
      the run becomes exactly `min(k, 2)` newlines, and the text on either
      side is collapsed on its own. */
  lemma {:induction false} CollapseNewlinesRun(a: String, k: nat, b: String)
    requires |a| == 0 || a[|a| - 1] != '\n'
    requires |b| == 0 || b[0] != '\n'
    ensures CollapseNewlines(a + Repeat('\n', k) + b)
            == CollapseNewlines(a) + Repeat('\n', Min(k, 2)) + CollapseNewlines(b)
  {
    var run := Repeat('\n', k);
    var tail := run + b;
    var left := CollapseNewlines(a);
    var kept := Repeat('\n', Min(k, 2));
    var right := CollapseNewlines(b);
    assert a + run + b == a + tail;
    CollapseNewlinesAppend(a, tail);
    CollapseNewlinesLead(k, b);
    assert CollapseNewlines(a + tail) == left + (kept + right);
    assert left + (kept + right) == left + kept + right;
  }

  // ---------------------------------------------------------------------
  // Lines under the blank collapse
  // ---------------------------------------------------------------------

  /** A blank run never straddles a character that is not a blank. */
  lemma {:induction false} CollapseBlanksAround(a: String, c: char, t: String)
    requires !IsBlank(c)
    ensures CollapseBlanks(a + [c] + t) == CollapseBlanks(a) + [c] + CollapseBlanks(t)
    decreases |a|
  {
    var s := a + [c] + t;
    if |a| == 0 {
      assert s == [c] + t;
      assert s[1..] == t;
    } else if IsBlank(a[0]) {
      var j := SpanEnd(a, 0, IsBlank);
      SpanEndAt(s, 0, j, IsBlank);
      assert s[j..] == a[j..] + [c] + t;
      CollapseBlanksAround(a[j..], c, t);
    } else {
      assert s[1..] == a[1..] + [c] + t;
      CollapseBlanksAround(a[1..], c, t);
    }
  }

  /** Every line with its blank runs collapsed. */
  function CollapseEach(lines: seq<String>): (r: seq<String>)
    ensures |r| == |lines|
    ensures forall k :: 0 <= k < |r| ==> r[k] == CollapseBlanks(lines[k])
  {
    seq(|lines|, k requires 0 <= k < |lines| => CollapseBlanks(lines[k]))
  }

  lemma {:induction false} CollapseBlanksJoin(parts: seq<String>)
    ensures CollapseBlanks(Join(parts, '\n')) == Join(CollapseEach(parts), '\n')
    decreases |parts|
  {
    var r := CollapseEach(parts);
    if |parts| > 1 {
      CollapseBlanksJoin(parts[1..]);
      assert CollapseEach(parts[1..]) == r[1..];
      CollapseBlanksAround(parts[0], '\n', Join(parts[1..], '\n'));
    }
  }

  /** `re.sub(r'[ \t]+', ' ', ...)` works line by line: the lines of the
      result are the input lines, each with its blanks collapsed. */
  lemma {:induction false} CollapseBlanksLines(s: String)
    ensures Split(CollapseBlanks(s), '\n') == CollapseEach(Split(s, '\n'))
  {
    var parts := Split(s, '\n');
    var r := CollapseEach(parts);
    CollapseBlanksJoin(parts);
    forall k | 0 <= k < |r|
      ensures '\n' !in r[k]
    {
      assert '\n' !in parts[k];
    }
    SplitJoin(r, '\n');
  }

  /** The collapsed text opens with a newline exactly when the input does. */
  lemma {:induction false} CollapseBlanksHead(s: String)
    requires |s| > 0
    ensures |CollapseBlanks(s)| > 0 && (CollapseBlanks(s)[0] == '\n' <==> s[0] == '\n')
  {
  }

  /** The blank collapse creates no run of three newlines. */
  lemma {:induction false} CollapseBlanksNewlines(s: String)
    requires NewlinesCollapsed(s)
    ensures NewlinesCollapsed(CollapseBlanks(s))
    decreases |s|
  {
    if |s| > 0 {
      if IsBlank(s[0]) {
        var j := SpanEnd(s, 0, IsBlank);
        NewlinesCollapsedSuffix(s, j);
        CollapseBlanksNewlines(s[j..]);
        BlankLead(s, j);
      } else {
        NewlinesCollapsedSuffix(s, 1);
        CollapseBlanksNewlines(s[1..]);
        KeptLead(s);
      }
    }
  }

  lemma {:induction false} NewlinesCollapsedSuffix(s: String, j: nat)
    requires j <= |s| && NewlinesCollapsed(s)
    ensures NewlinesCollapsed(s[j..])
  {
    var t := s[j..];
    forall i | 0 <= i < |t| - 2
      ensures !(t[i] == '\n' && t[i + 1] == '\n' && t[i + 2] == '\n')
    {
      assert t[i] == s[j + i] && t[i + 1] == s[j + i + 1] && t[i + 2] == s[j + i + 2];
    }
  }

  /** A space in front of collapsed text keeps it collapsed. */
  lemma {:induction false} BlankLead(s: String, j: nat)
    requires 0 < j <= |s| && IsBlank(s[0]) && j == SpanEnd(s, 0, IsBlank)
    requires NewlinesCollapsed(CollapseBlanks(s[j..]))
    ensures NewlinesCollapsed(CollapseBlanks(s))
  {
    var rest := CollapseBlanks(s[j..]);
    var r := CollapseBlanks(s);
    assert r == [' '] + rest;
    forall i | 0 <= i < |r| - 2
      ensures !(r[i] == '\n' && r[i + 1] == '\n' && r[i + 2] == '\n')
    {
      if i > 0 {
        assert r[i] == rest[i - 1] && r[i + 1] == rest[i] && r[i + 2] == rest[i + 1];
      }
    }
  }

  /** A kept character in front of collapsed text adds no run of three
      newlines that the input lacks. */
  lemma {:induction false} KeptLead(s: String)
    requires |s| > 0 && !IsBlank(s[0]) && NewlinesCollapsed(s)
    requires NewlinesCollapsed(CollapseBlanks(s[1..]))
    ensures NewlinesCollapsed(CollapseBlanks(s))
  {
    var t := s[1..];
    var rest := CollapseBlanks(t);
    var r := CollapseBlanks(s);
    assert r == [s[0]] + rest;
    forall i | 0 <= i < |r| - 2
      ensures !(r[i] == '\n' && r[i + 1] == '\n' && r[i + 2] == '\n')
    {
      if i > 0 {
        assert r[i] == rest[i - 1] && r[i + 1] == rest[i] && r[i + 2] == rest[i + 1];
      } else if s[0] == '\n' && rest[0] == '\n' {
        CollapseBlanksHead(t);
        assert t[0] == '\n';
        KeptHead(t);
        assert !(s[0] == '\n' && s[1] == '\n' && s[2] == '\n');
      }
    }
  }

  /** Two newlines at the head of the collapsed text come from two at the
      head of the input. */
  lemma {:induction false} KeptHead(t: String)
    requires |t| > 0 && t[0] == '\n'
    ensures |CollapseBlanks(t)| > 1 && CollapseBlanks(t)[1] == '\n' ==> |t| > 1 && t[1] == '\n'
  {
    var rest := CollapseBlanks(t[1..]);
    assert CollapseBlanks(t) == [t[0]] + rest;
    if |t| > 1 {
      CollapseBlanksHead(t[1..]);
    }
  }

  /** In text with no carriage return and no run of three newlines,
      `_general_clean` keeps every line in place: line `k` of the result
      is line `k` of the input with its blanks collapsed and its ends
      stripped, and it holds the same words. */
  lemma {:induction false} GeneralCleanLines(s: String)
    requires '\r' !in s && NewlinesCollapsed(s)
    ensures |Split(GeneralClean(s), '\n')| == |Split(s, '\n')|
    ensures forall k :: 0 <= k < |Split(s, '\n')| ==>
              && Split(GeneralClean(s), '\n')[k] == Strip(CollapseBlanks(Split(s, '\n')[k]))
              && Words(Split(GeneralClean(s), '\n')[k]) == Words(Split(s, '\n')[k])
  {
    var b := CollapseBlanks(s);
    CollapseBlanksNewlines(s);
    assert GeneralClean(s) == StripLines(b);
    CollapseBlanksLines(s);
    var parts := Split(s, '\n');
    var lines := Split(GeneralClean(s), '\n');
    forall k | 0 <= k < |parts|
      ensures lines[k] == Strip(CollapseBlanks(parts[k]))
      ensures Words(lines[k]) == Words(parts[k])
    {
      CollapseBlanksWords(parts[k]);
      WordsStrip(CollapseBlanks(parts[k]));
    }
  }
}
