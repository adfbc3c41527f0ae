/** The cleaning half of `EnhancedDocumentCleaner`: the PDF boilerplate
    filter, whitespace normalisation (with an empty `remove_patterns` list),
    the `clean_text` entry point and the base metadata fields (word and
    character counts, title, summary). */
module Cleaner {

  import opened Wrappers
  import opened Seqs
  import opened Text

  // ---------------------------------------------------------------------
  // PDF boilerplate lines
  // ---------------------------------------------------------------------

  predicate IsDashOrSpace(c: char)
  {
    c == '-' || IsSpace(c)
  }

  /** The line matches `^[-\s]*\d+[-\s]*$` with its digit run at `[i, j)`. */
  predicate PageNumberShape(l: String, i: nat, j: nat)
  {
    && i < j <= |l|
    && (forall k :: 0 <= k < i ==> IsDashOrSpace(l[k]))
    && (forall k :: i <= k < j ==> IsDigit(l[k]))
    && (forall k :: j <= k < |l| ==> IsDashOrSpace(l[k]))
  }

  /** A bare page number such as `- 12 -`. Digits are never dashes or
      whitespace, so the pattern can be matched greedily, run by run. */
  predicate IsPageNumber(l: String)
  {
    var a := SpanEnd(l, 0, IsDashOrSpace);
    var b := SpanEnd(l, a, IsDigit);
    a < b && SpanEnd(l, b, IsDashOrSpace) == |l|
  }

  /** The greedy matcher accepts exactly the lines the pattern describes. */
  lemma {:induction false} PageNumberMatches(l: String)
    ensures IsPageNumber(l) <==> exists i, j :: PageNumberShape(l, i, j)
  {
    var a := SpanEnd(l, 0, IsDashOrSpace);
    var b := SpanEnd(l, a, IsDigit);
    if IsPageNumber(l) {
      assert PageNumberShape(l, a, b);
    }
    if exists i, j :: PageNumberShape(l, i, j) {
      var i, j :| PageNumberShape(l, i, j);
      PageNumberRuns(l, i, j);
    }
  }

  lemma {:induction false} PageNumberRuns(l: String, i: nat, j: nat)
    requires PageNumberShape(l, i, j)
    ensures SpanEnd(l, 0, IsDashOrSpace) == i
    ensures SpanEnd(l, i, IsDigit) == j
    ensures SpanEnd(l, j, IsDashOrSpace) == |l|
  {
    SpanEndAt(l, 0, i, IsDashOrSpace);
    SpanEndAt(l, i, j, IsDigit);
    SpanEndAt(l, j, |l|, IsDashOrSpace);
  }

  /** `Page X of Y` in any letter case, matched run by run as for
      `IsPageNumber`: `^Page\s+\d+\s+of\s+\d+$`. */
  predicate IsPageOfTotal(l: String)
  {
    && |l| >= 4 && Lower(l[..4]) == "page"
    && var a := SpanEnd(l, 4, IsSpace);
       var b := SpanEnd(l, a, IsDigit);
       var c := SpanEnd(l, b, IsSpace);
       && 4 < a < b < c && c + 2 <= |l| && Lower(l[c..c + 2]) == "of"
       && var d := SpanEnd(l, c + 2, IsSpace);
          d > c + 2 && SpanEnd(l, d, IsDigit) == |l| > d
  }

  predicate StartsWithCopyright(l: String)
  {
    |l| >= 9 && Lower(l[..9]) == "copyright"
  }

  const CopyrightSign: char := '©'
  const RightsReserved: String := "All rights reserved"

  /** Lines `_clean_pdf` removes regardless of their length. */
  predicate Boilerplate(l: String)
  {
    || IsPageNumber(l)
    || IsPageOfTotal(l)
    || StartsWithCopyright(l)
    || (|l| > 0 && l[0] == CopyrightSign)
    || IsInfix(RightsReserved, l)
  }

  /** A stripped line survives `_clean_pdf`. */
  predicate KeepLine(l: String, minLineLength: int)
  {
    |l| > 0 && !Boilerplate(l) && |l| >= minLineLength
  }

  function StripEach(lines: seq<String>): (r: seq<String>)
    ensures |r| == |lines|
    ensures forall k :: 0 <= k < |r| ==> r[k] == Strip(lines[k])
  {
    seq(|lines|, k requires 0 <= k < |lines| => Strip(lines[k]))
  }

  /** The line filter of `_clean_pdf`: the kept lines are an in-order
      subsequence of the input, every kept line passes, and every passing
      line is kept. */
  function KeepLines(lines: seq<String>, minLineLength: int): (kept: seq<String>)
    ensures IsSubsequence(kept, lines)
    ensures forall k :: 0 <= k < |kept| ==> KeepLine(kept[k], minLineLength)
    ensures forall k :: 0 <= k < |lines| && KeepLine(lines[k], minLineLength) ==> lines[k] in kept
    decreases |lines|
  {
    if |lines| == 0 then []
    else
      var rest := KeepLines(lines[1..], minLineLength);
      assert forall k :: 1 <= k < |lines| ==> lines[k] == lines[1..][k - 1];
      if KeepLine(lines[0], minLineLength) then
        assert ([lines[0]] + rest)[1..] == rest;
        [lines[0]] + rest
      else
        rest
  }

  /** The positions from `i` on whose line passes the filter. */
  function PassingPositions(lines: seq<String>, minLineLength: int, i: nat): set<nat>
  {
    set k: nat | i <= k < |lines| && KeepLine(lines[k], minLineLength)
  }

  /** Multiplicity: `KeepLines` keeps one line per passing position, so a
      passing line that occurs several times is kept as many times. */
  lemma {:induction false} KeepLinesCountsPassing(lines: seq<String>, minLineLength: int, i: nat)
    requires i <= |lines|
    ensures |KeepLines(lines[i..], minLineLength)| == |PassingPositions(lines, minLineLength, i)|
    decreases |lines| - i
  {
    if i < |lines| {
      KeepLinesCountsPassing(lines, minLineLength, i + 1);
      assert lines[i..][1..] == lines[i + 1..];
      var later := PassingPositions(lines, minLineLength, i + 1);
      if KeepLine(lines[i], minLineLength) {
        assert PassingPositions(lines, minLineLength, i) == {i} + later;
      } else {
        assert PassingPositions(lines, minLineLength, i) == later;
      }
    } else {
      assert PassingPositions(lines, minLineLength, i) == {};
    }
  }

  /** Joining non-empty lines gives a non-empty text. */
  lemma {:induction false} JoinNonEmpty(parts: seq<String>, sep: char)
    requires |parts| > 0 && |parts[0]| > 0
    ensures |Join(parts, sep)| > 0
  {
  }

  /** `_clean_pdf(text)`: the surviving stripped lines, newline-joined. The
      result is empty exactly when no line survives; otherwise its lines are
      precisely the surviving lines. */
  function CleanPdf(text: String, minLineLength: int): (r: String)
    ensures var kept := KeepLines(StripEach(Split(text, '\n')), minLineLength);
            && (|r| == 0 <==> |kept| == 0)
            && (|kept| > 0 ==> Split(r, '\n') == kept)
  {
    var lines := StripEach(Split(text, '\n'));
    var kept := KeepLines(lines, minLineLength);
    if |kept| == 0 then []
    else
      NoNewlineInLines(text);
      SubsequenceMembers(kept, lines);
      assert forall k :: 0 <= k < |kept| ==> kept[k] in lines;
      SplitJoin(kept, '\n');
      JoinNonEmpty(kept, '\n');
      Join(kept, '\n')
  }

  lemma {:induction false} NoNewlineInLines(text: String)
    ensures forall l :: l in StripEach(Split(text, '\n')) ==> '\n' !in l
  {
    var parts := Split(text, '\n');
    forall k | 0 <= k < |parts|
      ensures '\n' !in Strip(parts[k])
    {
      StripKeepsOut(parts[k], '\n');
    }
  }

  /** Every line of a non-empty `_clean_pdf` result is a stripped input line
      that passed every filter; the lines keep their input order. */
  lemma {:induction false} CleanPdfLines(text: String, minLineLength: int)
    requires |CleanPdf(text, minLineLength)| > 0
    ensures var out := Split(CleanPdf(text, minLineLength), '\n');
            && IsSubsequence(out, StripEach(Split(text, '\n')))
            && forall k :: 0 <= k < |out| ==> KeepLine(out[k], minLineLength) && Stripped(out[k])
  {
    var out := Split(CleanPdf(text, minLineLength), '\n');
    var lines := StripEach(Split(text, '\n'));
    SubsequenceMembers(out, lines);
    forall k | 0 <= k < |out|
      ensures Stripped(out[k])
    {
      assert out[k] in lines;
    }
  }

  /** A stripped input line that passes every filter appears in the output. */
  lemma {:induction false} CleanPdfKeeps(text: String, minLineLength: int, k: nat)
    requires k < |Split(text, '\n')|
    requires KeepLine(Strip(Split(text, '\n')[k]), minLineLength)
    ensures Strip(Split(text, '\n')[k]) in Split(CleanPdf(text, minLineLength), '\n')
  {
    var lines := StripEach(Split(text, '\n'));
    assert lines[k] == Strip(Split(text, '\n')[k]);
  }

  // ---------------------------------------------------------------------
  // Whitespace normalisation (`_general_clean`)
  // ---------------------------------------------------------------------

  /** `s` with every character satisfying `p` removed. */
  function Drop(s: String, p: char -> bool): String
  {
    if |s| == 0 then [] else (if p(s[0]) then [] else [s[0]]) + Drop(s[1..], p)
  }

  /** Removing characters that are all dropped anyway changes nothing. */
  lemma {:induction false} DropRun(s: String, i: nat, j: nat, p: char -> bool)
    requires i <= j <= |s|
    requires forall k :: i <= k < j ==> p(s[k])
    ensures Drop(s[i..], p) == Drop(s[j..], p)
    decreases j - i
  {
    if i < j {
      DropRun(s, i + 1, j, p);
      assert s[i..][1..] == s[i + 1..];
    }
  }

  /** `text.replace('\r\n', '\n')`: each non-overlapping CRLF, scanned
      from the left, becomes LF. */
  function ReplaceCrLf(s: String): (r: String)
    ensures forall c :: c in r ==> c in s
    ensures '\r' !in s ==> r == s
    ensures Drop(r, IsSpace) == Drop(s, IsSpace)
    decreases |s|
  {
    if |s| == 0 then []
    else if |s| >= 2 && s[0] == '\r' && s[1] == '\n' then
      var rest := ReplaceCrLf(s[2..]);
      assert forall c :: c in rest ==> c in s;
      DropRun(s, 0, 2, IsSpace);
      assert ("\n" + rest)[1..] == rest;
      "\n" + rest
    else
      var rest := ReplaceCrLf(s[1..]);
      assert forall c :: c in rest ==> c in s;
      assert '\r' !in s ==> '\r' !in s[1..];
      assert ([s[0]] + rest)[1..] == rest;
      [s[0]] + rest
  }

  /** `.replace('\r', '\n')`. */
  function CrToLf(s: String): (r: String)
    ensures |r| == |s| && '\r' !in r
    ensures forall i :: 0 <= i < |s| ==> r[i] == (if s[i] == '\r' then '\n' else s[i])
  {
    seq(|s|, i requires 0 <= i < |s| => if s[i] == '\r' then '\n' else s[i])
  }

  /** Two strings of equal length that agree on which positions `p` drops
      and on every kept character drop to the same string. */
  lemma {:induction false} DropPointwise(a: String, b: String, p: char -> bool)
    requires |a| == |b|
    requires forall i :: 0 <= i < |a| ==> p(a[i]) == p(b[i]) && (!p(a[i]) ==> a[i] == b[i])
    ensures Drop(a, p) == Drop(b, p)
    decreases |a|
  {
    if |a| > 0 {
      DropPointwise(a[1..], b[1..], p);
    }
  }

  /** Both line-ending replacements: no carriage return survives, text
      without one is left alone, and only whitespace changes. */
  function NormalizeNewlines(s: String): (r: String)
    ensures '\r' !in r
    ensures forall c :: c in r ==> c == '\n' || c in s
    ensures '\r' !in s ==> r == s
    ensures Drop(r, IsSpace) == Drop(s, IsSpace)
  {
    var t := ReplaceCrLf(s);
    var r := CrToLf(t);
    assert forall i :: 0 <= i < |r| ==> r[i] == '\n' || r[i] == t[i];
    assert '\r' !in s ==> '\r' !in t;
    DropPointwise(r, t, IsSpace);
    r
  }

  predicate IsBlank(c: char)
  {
    c == ' ' || c == '\t'
  }

  /** No tab and no two spaces in a row: what `re.sub(r'[ \t]+', ' ', ...)`
      leaves. */
  predicate BlanksCollapsed(s: String)
  {
    && '\t' !in s
    && forall i :: 0 <= i < |s| - 1 ==> !(s[i] == ' ' && s[i + 1] == ' ')
  }

  /** `re.sub(r'[ \t]+', ' ', text)`: every maximal run of spaces and tabs
      becomes one space. Everything else is kept in order, and text already
      in that form is a fixed point. */
  function CollapseBlanks(s: String): (r: String)
    ensures BlanksCollapsed(r)
    ensures Drop(r, IsBlank) == Drop(s, IsBlank)
    ensures forall c :: c in r ==> c == ' ' || c in s
    ensures |s| > 0 ==> |r| > 0 && (r[0] == ' ' <==> IsBlank(s[0]))
    ensures BlanksCollapsed(s) ==> r == s
    decreases |s|
  {
    if |s| == 0 then []
    else if IsBlank(s[0]) then
      var j := SpanEnd(s, 0, IsBlank);
      var rest := CollapseBlanks(s[j..]);
      DropRun(s, 0, j, IsBlank);
      assert j == |s| ==> rest == [];
      BlankRunCollapsed(s, j, rest);
      [' '] + rest
    else
      var rest := CollapseBlanks(s[1..]);
      KeptBeforeBlanks(s, rest);
      [s[0]] + rest
  }

  /** A run of blanks becomes one space in front of the collapsed tail. */
  lemma {:induction false} BlankRunCollapsed(s: String, j: nat, rest: String)
    requires 0 < j <= |s| && forall k :: 0 <= k < j ==> IsBlank(s[k])
    requires j < |s| ==> !IsBlank(s[j])
    requires BlanksCollapsed(rest) && (|rest| == 0 || rest[0] != ' ')
    requires BlanksCollapsed(s[j..]) ==> rest == s[j..]
    requires forall c :: c in rest ==> c == ' ' || c in s[j..]
    ensures BlanksCollapsed([' '] + rest)
    ensures Drop([' '] + rest, IsBlank) == Drop(rest, IsBlank)
    ensures forall c :: c in [' '] + rest ==> c == ' ' || c in s
    ensures BlanksCollapsed(s) ==> [' '] + rest == s
  {
    var r := [' '] + rest;
    assert r[1..] == rest;
    forall i | 0 <= i < |r| - 1
      ensures !(r[i] == ' ' && r[i + 1] == ' ')
    {
      if i > 0 {
        assert r[i] == rest[i - 1] && r[i + 1] == rest[i];
      }
    }
    if j >= 2 {
      TwoBlanks(s);
    }
    if BlanksCollapsed(s) {
      assert j == 1;
      assert BlanksCollapsed(s[1..]);
      assert s == [' '] + s[1..];
    }
  }

  /** Text that opens with two blanks is not in collapsed form. */
  lemma {:induction false} TwoBlanks(s: String)
    requires |s| >= 2 && IsBlank(s[0]) && IsBlank(s[1])
    ensures !BlanksCollapsed(s)
  {
    if '\t' !in s {
      assert s[0] == ' ' && s[1] == ' ';
    }
  }

  /** A character other than a blank is copied in front of the collapsed
      tail. */
  lemma {:induction false} KeptBeforeBlanks(s: String, rest: String)
    requires |s| > 0 && !IsBlank(s[0])
    requires BlanksCollapsed(rest) && Drop(rest, IsBlank) == Drop(s[1..], IsBlank)
    requires BlanksCollapsed(s[1..]) ==> rest == s[1..]
    requires forall c :: c in rest ==> c == ' ' || c in s[1..]
    ensures BlanksCollapsed([s[0]] + rest)
    ensures Drop([s[0]] + rest, IsBlank) == Drop(s, IsBlank)
    ensures forall c :: c in [s[0]] + rest ==> c == ' ' || c in s
    ensures BlanksCollapsed(s) ==> [s[0]] + rest == s
  {
    var r := [s[0]] + rest;
    assert r[1..] == rest;
    forall i | 0 <= i < |r| - 1
      ensures !(r[i] == ' ' && r[i + 1] == ' ')
    {
      if i > 0 {
        assert r[i] == rest[i - 1] && r[i + 1] == rest[i];
      }
    }
    if BlanksCollapsed(s) {
      assert BlanksCollapsed(s[1..]);
      assert s == [s[0]] + s[1..];
    }
  }

  predicate IsNewline(c: char)
  {
    c == '\n'
  }

  /** No run of three or more newlines. */
  predicate NewlinesCollapsed(s: String)
  {
    forall i :: 0 <= i < |s| - 2 ==> !(s[i] == '\n' && s[i + 1] == '\n' && s[i + 2] == '\n')
  }

  /** `re.sub(r'\n{3,}', '\n\n', text)`: every run of three or more
      newlines becomes exactly two. Everything else is kept in order, and
      text without such a run is a fixed point. */
  function CollapseNewlines(s: String): (r: String)
    ensures NewlinesCollapsed(r)
    ensures Drop(r, IsNewline) == Drop(s, IsNewline)
    ensures forall c :: c in r ==> c in s
    ensures |s| > 0 ==> |r| > 0 && (r[0] == '\n' <==> s[0] == '\n')
    ensures NewlinesCollapsed(s) ==> r == s
    decreases |s|
  {
    if |s| == 0 then []
    else if s[0] == '\n' then
      var j := SpanEnd(s, 0, IsNewline);
      var rest := CollapseNewlines(s[j..]);
      DropRun(s, 0, j, IsNewline);
      assert forall c :: c in rest ==> c in s;
      CollapseRun(s, j, rest)
    else
      var rest := CollapseNewlines(s[1..]);
      assert forall c :: c in rest ==> c in s;
      ConsKept(s, rest);
      [s[0]] + rest
  }

  /** A leading non-newline character is copied in front of the collapsed
      tail. */
  lemma {:induction false} ConsKept(s: String, rest: String)
    requires |s| > 0 && s[0] != '\n'
    requires NewlinesCollapsed(rest)
    requires Drop(rest, IsNewline) == Drop(s[1..], IsNewline)
    requires NewlinesCollapsed(s[1..]) ==> rest == s[1..]
    ensures NewlinesCollapsed([s[0]] + rest)
    ensures Drop([s[0]] + rest, IsNewline) == Drop(s, IsNewline)
    ensures NewlinesCollapsed(s) ==> [s[0]] + rest == s
  {
    assert ([s[0]] + rest)[1..] == rest;
    assert NewlinesCollapsed(s) ==> NewlinesCollapsed(s[1..]);
    assert s == [s[0]] + s[1..];
  }

  /** The output for a leading run of `j` newlines followed by text whose
      collapsed form is `rest`. */
  function CollapseRun(s: String, j: nat, rest: String): (r: String)
    requires 0 < j <= |s|
    requires forall k :: 0 <= k < j ==> s[k] == '\n'
    requires j < |s| ==> s[j] != '\n'
    requires NewlinesCollapsed(rest)
    requires |s| > j ==> |rest| > 0 && rest[0] != '\n'
    requires |s| == j ==> rest == []
    requires Drop(rest, IsNewline) == Drop(s[j..], IsNewline)
    requires Drop(s[j..], IsNewline) == Drop(s, IsNewline)
    requires forall c :: c in rest ==> c in s
    requires NewlinesCollapsed(s) ==> rest == s[j..]
    ensures NewlinesCollapsed(r)
    ensures Drop(r, IsNewline) == Drop(s, IsNewline)
    ensures forall c :: c in r ==> c in s
    ensures |r| > 0 && r[0] == '\n'
    ensures NewlinesCollapsed(s) ==> r == s
  {
    var run := RunOf(s, j);
    RunFixedPoint(s, j, rest);
    RunCollapsed(run, rest);
    DropNewlines(run, rest);
    RunMembers(run, rest, s);
    assert (run + rest)[0] == run[0];
    run + rest
  }

  /** What a leading run of `j` newlines becomes: itself, or two newlines
      when it is three or more long. */
  function RunOf(s: String, j: nat): (run: String)
    requires 0 < j <= |s| && forall k :: 0 <= k < j ==> s[k] == '\n'
    ensures 0 < |run| <= 2 && forall k :: 0 <= k < |run| ==> run[k] == '\n'
  {
    if j >= 3 then "\n\n" else s[..j]
  }

  /** Newlines in front of `rest` add no character that `s` lacks when `s`
      starts with a newline. */
  lemma {:induction false} RunMembers(run: String, rest: String, s: String)
    requires forall k :: 0 <= k < |run| ==> run[k] == '\n'
    requires |s| > 0 && s[0] == '\n'
    requires forall c :: c in rest ==> c in s
    ensures forall c :: c in run + rest ==> c in s
  {
  }

  /** Collapsed text keeps its leading run of newlines, which is at most
      two long. */
  lemma {:induction false} RunFixedPoint(s: String, j: nat, rest: String)
    requires 0 < j <= |s| && forall k :: 0 <= k < j ==> s[k] == '\n'
    requires NewlinesCollapsed(s) ==> rest == s[j..]
    ensures NewlinesCollapsed(s) ==> RunOf(s, j) + rest == s
  {
    if j >= 3 {
      ThreeNewlines(s);
    } else {
      assert s == s[..j] + s[j..];
    }
  }

  /** Text that opens with three newlines is not in collapsed form. */
  lemma {:induction false} ThreeNewlines(s: String)
    requires |s| >= 3 && s[0] == '\n' && s[1] == '\n' && s[2] == '\n'
    ensures !NewlinesCollapsed(s)
  {
  }

  /** At most two newlines in front of collapsed text that does not start
      with a newline leave it collapsed. */
  lemma {:induction false} RunCollapsed(run: String, rest: String)
    requires |run| <= 2 && forall k :: 0 <= k < |run| ==> run[k] == '\n'
    requires NewlinesCollapsed(rest) && (|rest| == 0 || rest[0] != '\n')
    ensures NewlinesCollapsed(run + rest)
  {
    var r := run + rest;
    forall i | 0 <= i < |r| - 2
      ensures !(r[i] == '\n' && r[i + 1] == '\n' && r[i + 2] == '\n')
    {
      if i >= |run| {
        assert r[i] == rest[i - |run|] && r[i + 1] == rest[i + 1 - |run|] && r[i + 2] == rest[i + 2 - |run|];
      } else if i + 1 == |run| {
        assert r[i + 1] == rest[0];
      } else {
        assert r[i + 2] == rest[0];
      }
    }
  }

  lemma {:induction false} DropNewlines(run: String, rest: String)
    requires forall k :: 0 <= k < |run| ==> run[k] == '\n'
    ensures Drop(run + rest, IsNewline) == Drop(rest, IsNewline)
  {
    DropRun(run + rest, 0, |run|, IsNewline);
    assert (run + rest)[0..] == run + rest;
    assert (run + rest)[|run|..] == rest;
  }

  lemma {:induction false} DropAppend(a: String, b: String, p: char -> bool)
    ensures Drop(a + b, p) == Drop(a, p) + Drop(b, p)
    decreases |a|
  {
    if |a| > 0 {
      DropAppend(a[1..], b, p);
      assert (a + b)[1..] == a[1..] + b;
    } else {
      assert a + b == b;
    }
  }

  lemma {:induction false} DropAll(a: String, p: char -> bool)
    requires forall k :: 0 <= k < |a| ==> p(a[k])
    ensures Drop(a, p) == []
  {
    DropRun(a, 0, |a|, p);
    assert a[0..] == a;
  }

  /** Dropping a smaller class of characters first does not change what a
      whitespace drop leaves. */
  lemma {:induction false} DropWithin(a: String, p: char -> bool)
    requires forall c :: p(c) ==> IsSpace(c)
    ensures Drop(Drop(a, p), IsSpace) == Drop(a, IsSpace)
    decreases |a|
  {
    if |a| > 0 {
      DropWithin(a[1..], p);
      DropAppend(if p(a[0]) then [] else [a[0]], Drop(a[1..], p), IsSpace);
    }
  }

  /** `strip()` removes only whitespace. */
  lemma {:induction false} DropStrip(x: String)
    ensures Drop(Strip(x), IsSpace) == Drop(x, IsSpace)
  {
    var r := Strip(x);
    var a := StripStart(x);
    var b := StripEnd(x);
    StripSplits(x);
    DropAppend(x[..a] + r, x[b..], IsSpace);
    DropAppend(x[..a], r, IsSpace);
    DropAll(x[..a], IsSpace);
    DropAll(x[b..], IsSpace);
  }

  /** Stripping every line of a newline-joined text removes only whitespace. */
  lemma {:induction false} DropStripEach(parts: seq<String>)
    ensures Drop(Join(StripEach(parts), '\n'), IsSpace) == Drop(Join(parts, '\n'), IsSpace)
    decreases |parts|
  {
    if |parts| == 1 {
      DropStrip(parts[0]);
    } else if |parts| > 1 {
      var stripped := StripEach(parts);
      DropStripEach(parts[1..]);
      assert stripped[1..] == StripEach(parts[1..]);
      var tail := Join(parts[1..], '\n');
      var stail := Join(stripped[1..], '\n');
      DropAppend(parts[0] + ['\n'], tail, IsSpace);
      DropAppend(parts[0], ['\n'], IsSpace);
      DropAppend(stripped[0] + ['\n'], stail, IsSpace);
      DropAppend(stripped[0], ['\n'], IsSpace);
      DropStrip(parts[0]);
    }
  }

  /** The line pass of `_general_clean`: every line stripped, newline-joined.
      The lines of the result are the stripped input lines, one for one. */
  function StripLines(s: String): (r: String)
    ensures Split(r, '\n') == StripEach(Split(s, '\n'))
    ensures Drop(r, IsSpace) == Drop(s, IsSpace)
  {
    var lines := StripEach(Split(s, '\n'));
    NoNewlineInLines(s);
    assert forall k :: 0 <= k < |lines| ==> lines[k] in lines;
    SplitJoin(lines, '\n');
    DropStripEach(Split(s, '\n'));
    Join(lines, '\n')
  }

  /** Stripping lines never introduces a character other than a newline. */
  lemma {:induction false} StripLinesKeepsOut(s: String, c: char)
    requires c != '\n' && c !in s
    ensures c !in StripLines(s)
  {
    var parts := Split(s, '\n');
    var lines := StripEach(parts);
    SplitKeepsOut(s, '\n', c);
    forall k | 0 <= k < |lines|
      ensures c !in lines[k]
    {
      StripKeepsOut(parts[k], c);
    }
    JoinChars(lines, '\n', c);
  }

  /** `_general_clean` with no removal patterns: line endings normalised,
      blank runs collapsed, runs of three or more newlines cut to two, then
      every line stripped. No carriage return or tab survives, every line is
      stripped, and the non-whitespace characters are exactly those of the
      input, in order. */
  function GeneralClean(s: String): (r: String)
    ensures '\r' !in r && '\t' !in r
    ensures forall k :: 0 <= k < |Split(r, '\n')| ==> Stripped(Split(r, '\n')[k])
    ensures Drop(r, IsSpace) == Drop(s, IsSpace)
  {
    var a := NormalizeNewlines(s);
    var b := CollapseBlanks(a);
    var c := CollapseNewlines(b);
    var r := StripLines(c);
    assert '\r' !in b;
    StripLinesKeepsOut(c, '\r');
    StripLinesKeepsOut(c, '\t');
    DropWithin(b, IsBlank);
    DropWithin(a, IsBlank);
    DropWithin(c, IsNewline);
    DropWithin(b, IsNewline);
    r
  }

  /** Text in the form `_general_clean` produces, with no run of three
      newlines, is a fixed point of it. */
  lemma {:induction false} GeneralCleanFixedPoint(s: String)
    requires '\r' !in s && BlanksCollapsed(s) && NewlinesCollapsed(s)
    requires forall k :: 0 <= k < |Split(s, '\n')| ==> Stripped(Split(s, '\n')[k])
    ensures GeneralClean(s) == s
  {
    var parts := Split(s, '\n');
    forall k | 0 <= k < |parts|
      ensures Strip(parts[k]) == parts[k]
    {
      StripStripped(parts[k]);
    }
    assert StripEach(parts) == parts;
  }

  /** Newline runs are cut before lines are stripped, so lines holding only
      blanks still leave more than one empty line behind. */
  lemma {:induction false} BlankLinesSurvive()
    ensures GeneralClean("a\n \n \nb") == "a\n\n\nb"
  {
    var s := "a\n \n \nb";
    BlankLinesInput();
    var a := NormalizeNewlines(s);
    assert a == s;
    var b := CollapseBlanks(a);
    assert b == s;
    assert CollapseNewlines(b) == s;
    StripLinesExample();
  }

  lemma {:induction false} StripLinesExample()
    ensures StripLines("a\n \n \nb") == "a\n\n\nb"
  {
    var parts := ["a", " ", " ", "b"];
    assert parts[1..][1..][1..] == ["b"];
    assert Join(parts, '\n') == "a\n \n \nb";
    StripExamples();
    var stripped := ["a", "", "", "b"];
    assert stripped[1..][1..][1..] == ["b"];
    assert Join(stripped, '\n') == "a\n\n\nb";
    StripLinesOf("a\n \n \nb", parts, stripped, "a\n\n\nb");
  }

  /** The stripped lines of a text given as its separator-free lines. */
  lemma {:induction false} StripLinesOf(s: String, parts: seq<String>, stripped: seq<String>, r: String)
    requires |parts| >= 1 && forall k :: 0 <= k < |parts| ==> '\n' !in parts[k]
    requires Join(parts, '\n') == s
    requires |stripped| == |parts| && forall k :: 0 <= k < |parts| ==> stripped[k] == Strip(parts[k])
    requires Join(stripped, '\n') == r
    ensures StripLines(s) == r
  {
    SplitJoin(parts, '\n');
    assert StripEach(parts) == stripped;
  }

  lemma {:induction false} BlankLinesInput()
    ensures BlanksCollapsed("a\n \n \nb") && NewlinesCollapsed("a\n \n \nb") && '\r' !in "a\n \n \nb"
  {
    var s := "a\n \n \nb";
    assert s[0] == 'a' && s[1] == '\n' && s[2] == ' ' && s[3] == '\n' && s[4] == ' ' && s[5] == '\n' && s[6] == 'b';
  }

  lemma {:induction false} StripExamples()
    ensures Strip(" ") == [] && Strip("a") == "a" && Strip("b") == "b" && Strip("") == ""
  {
    StripStripped("a");
    StripStripped("b");
  }

  /** A run of three newlines, as the example above leaves, is cut to two. */
  lemma {:induction false} CollapseExample()
    ensures CollapseNewlines("a\n\n\nb") == "a\n\nb"
  {
    var t := "a\n\n\nb";
    var tail := t[1..];
    SpanEndAt(tail, 0, 3, IsNewline);
    assert tail[3..] == "b";
    assert CollapseNewlines("b") == "b";
    assert CollapseNewlines(tail) == "\n\nb";
  }

  // ---------------------------------------------------------------------
  // `clean_text`
  // ---------------------------------------------------------------------

  /** The format-specific pass of `clean_text`: HTML goes through the
      markup cleaner (a parameter here), PDF through `_clean_pdf`, anything
      else is passed on unchanged. */
  function FormatPass(text: String, sourceType: String, html: String -> String, minLineLength: int): String
  {
    if sourceType == "html" || sourceType == "htm" then html(text)
    else if sourceType == "pdf" then CleanPdf(text, minLineLength)
    else text
  }

  /** `clean_text(text, source_type)`: blank input gives the empty string;
      otherwise the format pass, `_general_clean` and a final `strip()`. The
      result is stripped, holds no carriage return or tab, and keeps exactly
      the non-whitespace characters of the format pass, in order. */
  function CleanText(text: String, sourceType: String, html: String -> String, minLineLength: int): (r: String)
    ensures AllSpace(text) ==> r == []
    ensures Stripped(r) && '\r' !in r && '\t' !in r
    ensures !AllSpace(text) ==>
              Drop(r, IsSpace) == Drop(FormatPass(text, sourceType, html, minLineLength), IsSpace)
  {
    if AllSpace(text) then []
    else
      var g := GeneralClean(FormatPass(text, sourceType, html, minLineLength));
      StripKeepsOut(g, '\r');
      StripKeepsOut(g, '\t');
      DropStrip(g);
      Strip(g)
  }

  /** Plain text loses nothing but whitespace. */
  lemma {:induction false} CleanTextKeepsContent(text: String, html: String -> String, minLineLength: int)
    ensures Drop(CleanText(text, "txt", html, minLineLength), IsSpace) == Drop(text, IsSpace)
  {
    if AllSpace(text) {
      DropAll(text, IsSpace);
    }
  }

  /** Plain text already in cleaned form comes back unchanged. */
  lemma {:induction false} CleanTextFixedPoint(text: String, html: String -> String, minLineLength: int)
    requires Stripped(text) && '\r' !in text && BlanksCollapsed(text) && NewlinesCollapsed(text)
    requires forall k :: 0 <= k < |Split(text, '\n')| ==> Stripped(Split(text, '\n')[k])
    ensures CleanText(text, "txt", html, minLineLength) == text
  {
    assert FormatPass(text, "txt", html, minLineLength) == text;
    if |text| > 0 {
      assert !IsSpace(text[0]);
      GeneralCleanFixedPoint(text);
      StripStripped(text);
    }
  }

  // ---------------------------------------------------------------------
  // Base metadata of `extract_metadata_enhanced`
  // ---------------------------------------------------------------------

  datatype BaseMetadata = BaseMetadata(source: String, wordCount: nat, charCount: nat, title: Option<String>, summary: String)

  /** A line qualifies as a title when its stripped form is longer than 10
      and shorter than 200 characters and does not start with a digit. */
  predicate IsTitleLine(line: String)
  {
    TitleShape(Strip(line))
  }

  predicate TitleShape(t: String)
  {
    10 < |t| < 200 && !IsDigit(t[0])
  }

  /** Index of the first stripped line at or after `from` that has the
      shape of a title, or `|lines|` when there is none. */
  function FirstTitle(lines: seq<String>, from: nat): (i: nat)
    requires from <= |lines|
    ensures from <= i <= |lines|
    ensures i < |lines| ==> TitleShape(lines[i])
    ensures forall j :: from <= j < i ==> !TitleShape(lines[j])
    decreases |lines| - from
  {
    if from == |lines| then from
    else if TitleShape(lines[from]) then from
    else FirstTitle(lines, from + 1)
  }

  const TitleScanLines := 10

  /** The title: the first of the first ten lines that qualifies, stripped;
      absent when none of them does. */
  function Title(text: String): (t: Option<String>)
    ensures var lines := Split(text, '\n');
            var n := Min(TitleScanLines, |lines|);
            && (t.None? <==> forall k :: 0 <= k < n ==> !IsTitleLine(lines[k]))
            && (t.Some? ==> exists k :: 0 <= k < n && IsFirstTitle(lines, k) && t.value == Strip(lines[k]))
    ensures t.Some? ==> 10 < |t.value| < 200 && Stripped(t.value) && !IsDigit(t.value[0])
  {
    var lines := Split(text, '\n');
    var head := StripEach(lines[..Min(TitleScanLines, |lines|)]);
    var i := FirstTitle(head, 0);
    assert forall k :: 0 <= k < |head| ==> head[k] == Strip(lines[k]);
    if i < |head| then
      assert IsFirstTitle(lines, i);
      Some(head[i])
    else None
  }

  /** Line `k` qualifies as a title and no earlier line does. */
  predicate IsFirstTitle(lines: seq<String>, k: nat)
    requires k < |lines|
  {
    IsTitleLine(lines[k]) && forall j :: 0 <= j < k ==> !IsTitleLine(lines[j])
  }

  const SummaryLength := 200

  /** The summary: the text with whitespace runs collapsed to single spaces;
      when that is longer than 200 characters, its first 200 followed by
      `...`. A summary that was not cut has exactly the words of the text. */
  function Summary(text: String): (s: String)
    ensures var collapsed := Join(Words(text), ' ');
            && (|collapsed| <= SummaryLength ==> s == collapsed && Words(s) == Words(text))
            && (|collapsed| > SummaryLength ==>
                  |s| == SummaryLength + 3 && s[..SummaryLength] == collapsed[..SummaryLength] && s[SummaryLength..] == "...")
  {
    var collapsed := Join(Words(text), ' ');
    WordsOfJoin(Words(text));
    if |collapsed| > SummaryLength then collapsed[..SummaryLength] + "..." else collapsed
  }

  /** The base fields of `extract_metadata_enhanced`: the source path, the
      number of whitespace-separated words, the character count, the title
      and the summary. */
  function ExtractBaseMetadata(text: String, sourcePath: String): (m: BaseMetadata)
    ensures m.source == sourcePath && m.charCount == |text|
    ensures m.wordCount == |Words(text)|
    ensures m.wordCount == 0 <==> AllSpace(text)
    ensures m.title == Title(text) && m.summary == Summary(text)
  {
    WordsEmpty(text);
    BaseMetadata(sourcePath, |Words(text)|, |text|, Title(text), Summary(text))
  }
}
