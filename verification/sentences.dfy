/** The sentence sources of the chunker: the regular-expression splitter
    `_chunk_by_sentences_regex` and the batch slicing of `_chunk_by_spacy`.
    spaCy and NLTK themselves are foreign: a segmenter is any function from
    text to a list of sentences, or `None` when it raises. */
module Sentences {

  import opened Wrappers
  import opened Seqs
  import opened Text
  import opened Batching

  type Segmenter = String -> Option<seq<String>>

  /** The class `[.!?。！？]`. */
  predicate IsTerminal(c: char)
  {
    c == '.' || c == '!' || c == '?' || c == '\U{3002}' || c == '\U{FF01}' || c == '\U{FF1F}'
  }

  /** The pattern `[.!?。！？]\s+` can start matching at `i`. */
  predicate DelimAt(text: String, i: nat)
  {
    i + 1 < |text| && IsTerminal(text[i]) && IsSpace(text[i + 1])
  }

  /** A complete match of the delimiter pattern. */
  predicate IsDelimiter(d: String)
  {
    |d| >= 2 && IsTerminal(d[0]) && AllSpace(d[1..])
  }

  /** A piece between two delimiters: the pattern matches nowhere in it. */
  predicate NoDelimiter(s: String)
  {
    forall i :: 0 <= i < |s| ==> !DelimAt(s, i)
  }

  /** Where the next match starts, searching from `from`; `|text|` if none. */
  function NextDelim(text: String, from: nat): (i: nat)
    requires from <= |text|
    ensures from <= i <= |text|
    ensures i < |text| ==> DelimAt(text, i)
    ensures forall j :: from <= j < i ==> !DelimAt(text, j)
    decreases |text| - from
  {
    if from == |text| then from
    else if DelimAt(text, from) then from
    else NextDelim(text, from + 1)
  }

  /** A stretch of the text where no match starts holds no match. */
  lemma {:induction false} NoDelimiterSlice(text: String, a: nat, b: nat)
    requires a <= b <= |text|
    requires forall j :: a <= j < b ==> !DelimAt(text, j)
    ensures NoDelimiter(text[a..b])
  {
    forall m | 0 <= m < b - a
      ensures !DelimAt(text[a..b], m)
    {
      if m + 1 < b - a {
        assert text[a..b][m] == text[a + m] && text[a..b][m + 1] == text[a + m + 1];
        assert !DelimAt(text, a + m);
      }
    }
  }

  lemma {:induction false} DelimiterSlice(text: String, i: nat, j: nat)
    requires DelimAt(text, i) && j == LeadEnd(text, i + 1)
    ensures IsDelimiter(text[i..j])
  {
    assert text[i..j][1..] == text[i + 1..j];
  }

  /** The shape of a `re.split` result with one capturing group: an odd
      number of pieces, text at even positions and delimiters at odd ones. */
  predicate Shaped(pieces: seq<String>)
  {
    && |pieces| % 2 == 1
    && (forall k :: 0 <= k < |pieces| && k % 2 == 1 ==> IsDelimiter(pieces[k]))
    && (forall k :: 0 <= k < |pieces| && k % 2 == 0 ==> NoDelimiter(pieces[k]))
  }

  /** The delimiter pattern's `\s+` is greedy: a text piece after a
      delimiter is empty or opens with a character that is not whitespace. */
  predicate Greedy(pieces: seq<String>)
  {
    forall k :: 0 < k < |pieces| && k % 2 == 0 ==> |pieces[k]| == 0 || !IsSpace(pieces[k][0])
  }

  /** A terminal mark is not whitespace. */
  lemma {:induction false} TerminalNotSpace(c: char)
    requires IsTerminal(c)
    ensures !IsSpace(c)
  {
  }

  /** Consing two pieces in front shifts the positions by two, which keeps
      their parity. */
  lemma {:induction false} ConsTwo(x: String, y: String, rest: seq<String>)
    requires IsDelimiter(y) && NoDelimiter(x) && Shaped(rest)
    ensures Shaped([x, y] + rest)
    ensures Flatten([x, y] + rest) == x + (y + Flatten(rest))
  {
    var p := [x, y] + rest;
    forall k | 2 <= k < |p|
      ensures p[k] == rest[k - 2]
    {
    }
    assert p[1..][1..] == rest;
  }

  lemma {:induction false} SplitStep(text: String, from: nat, i: nat, j: nat, rest: seq<String>)
    requires from <= i && DelimAt(text, i) && j == LeadEnd(text, i + 1)
    requires forall m :: from <= m < i ==> !DelimAt(text, m)
    requires Shaped(rest) && Greedy(rest) && Flatten(rest) == text[j..]
    ensures Shaped([text[from..i], text[i..j]] + rest)
    ensures Greedy([text[from..i], text[i..j]] + rest)
    ensures Flatten([text[from..i], text[i..j]] + rest) == text[from..]
  {
    NoDelimiterSlice(text, from, i);
    DelimiterSlice(text, i, j);
    ConsTwo(text[from..i], text[i..j], rest);
    assert text[from..] == text[from..i] + (text[i..j] + text[j..]);
    assert Flatten(rest) == rest[0] + Flatten(rest[1..]);
    if |rest[0]| > 0 {
      assert rest[0][0] == text[j];
    }
    ConsTwoGreedy(text[from..i], text[i..j], rest);
  }

  /** Two pieces in front keep the pieces after them greedy when the
      first of those does not open with whitespace. */
  lemma {:induction false} ConsTwoGreedy(x: String, y: String, rest: seq<String>)
    requires |rest| > 0 && Greedy(rest) && (|rest[0]| == 0 || !IsSpace(rest[0][0]))
    ensures Greedy([x, y] + rest)
  {
    var p := [x, y] + rest;
    forall k | 0 < k < |p| && k % 2 == 0
      ensures |p[k]| == 0 || !IsSpace(p[k][0])
    {
      assert p[k] == rest[k - 2];
    }
  }

  lemma {:induction false} SplitBase(text: String, from: nat)
    requires from <= |text|
    requires forall m :: from <= m < |text| ==> !DelimAt(text, m)
    ensures Shaped([text[from..]]) && Flatten([text[from..]]) == text[from..]
  {
    NoDelimiterSlice(text, from, |text|);
    assert text[from..|text|] == text[from..];
    assert Flatten([text[from..]]) == text[from..] + Flatten([]);
    assert [text[from..]][0] == text[from..];
  }

  /** `re.split(r'([.!?。！？]\s+)', text[from:])`: text pieces at even
      positions and the captured delimiters at odd positions; concatenated
      they give back the text. */
  function RegexSplit(text: String, from: nat): (pieces: seq<String>)
    requires from <= |text|
    ensures Shaped(pieces) && Greedy(pieces)
    ensures Flatten(pieces) == text[from..]
    decreases |text| - from
  {
    var i := NextDelim(text, from);
    if i == |text| then
      SplitBase(text, from);
      [text[from..]]
    else
      var j := LeadEnd(text, i + 1);
      var rest := RegexSplit(text, j);
      SplitStep(text, from, i, j, rest);
      [text[from..i], text[i..j]] + rest
  }

  /** The first match at or after `from` starts at `i` when none starts
      before it and one starts there or the text ends there. */
  lemma {:induction false} NextDelimAt(text: String, from: nat, i: nat)
    requires from <= i <= |text|
    requires forall m :: from <= m < i ==> !DelimAt(text, m)
    requires i == |text| || DelimAt(text, i)
    ensures NextDelim(text, from) == i
    decreases i - from
  {
    if from < i {
      NextDelimAt(text, from + 1, i);
    }
  }

  /** A match in a suffix is a match in the text. */
  lemma {:induction false} DelimAtSuffix(text: String, from: nat, m: nat)
    requires from <= m <= |text|
    ensures DelimAt(text[from..], m - from) == DelimAt(text, m)
  {
  }

  /** Dropping the first two pieces keeps the shape, the greed and the
      rest of the concatenation. */
  lemma {:induction false} ShapedTail(p: seq<String>)
    requires |p| >= 3 && Shaped(p) && Greedy(p)
    ensures Shaped(p[2..]) && Greedy(p[2..])
    ensures Flatten(p) == p[0] + p[1] + Flatten(p[2..])
  {
    var t := p[2..];
    forall k | 0 <= k < |t|
      ensures t[k] == p[k + 2]
    {
    }
    assert p[1..][1..] == t;
  }

  /** Where the text after two leading pieces starts: at the end of the
      text or at a character that is not whitespace. */
  lemma {:induction false} AfterDelimiter(p: seq<String>)
    requires |p| >= 3 && Shaped(p) && Greedy(p)
    ensures var f := Flatten(p[2..]); |f| == 0 || !IsSpace(f[0])
  {
    var t := p[2..];
    assert t[0] == p[2];
    assert Flatten(t) == t[0] + Flatten(t[1..]);
    if |t[0]| == 0 && |t| > 1 {
      assert t[1] == p[3] && IsDelimiter(p[3]);
      assert Flatten(t[1..]) == t[1] + Flatten(t[1..][1..]);
      TerminalNotSpace(p[3][0]);
    } else if |t[0]| == 0 {
      assert Flatten(t[1..]) == [];
    }
  }

  /** For a text piece `x` and a delimiter `y` at the head of the rest of
      the text, the first match is `y`, and its whitespace run ends where
      `y` does. */
  lemma {:induction false} HeadMatch(text: String, from: nat, x: String, y: String, f: String)
    requires from <= |text| && text[from..] == x + y + f
    requires NoDelimiter(x) && IsDelimiter(y) && (|f| == 0 || !IsSpace(f[0]))
    ensures NextDelim(text, from) == from + |x|
    ensures LeadEnd(text, from + |x| + 1) == from + |x| + |y|
  {
    var i := from + |x|;
    var e := i + |y|;
    var t := text[from..];
    assert forall m :: 0 <= m < |x| ==> t[m] == x[m];
    assert forall m :: 0 <= m < |y| ==> t[|x| + m] == y[m];
    assert forall m :: 0 <= m < |f| ==> t[|x| + |y| + m] == f[m];
    forall m | from <= m < i
      ensures !DelimAt(text, m)
    {
      DelimAtSuffix(text, from, m);
      if m + 1 < i {
        assert !DelimAt(x, m - from);
      } else {
        TerminalNotSpace(y[0]);
      }
    }
    assert y[1..][0] == y[1];
    NextDelimAt(text, from, i);
    forall m | i + 1 <= m < e
      ensures IsSpace(text[m])
    {
      assert y[1..][m - i - 1] == y[m - i];
    }
    LeadEndAt(text, i + 1, e);
  }

  /** `RegexSplit` is the only shaped, greedy split that concatenates back
      to the text: its contract pins where the text is cut. */
  lemma {:induction false} SplitUnique(text: String, from: nat, p: seq<String>)
    requires from <= |text|
    requires Shaped(p) && Greedy(p) && Flatten(p) == text[from..]
    ensures p == RegexSplit(text, from)
  {
    SplitsEqual(text, from, p, RegexSplit(text, from));
  }

  /** Two shaped, greedy splits of the same text are the same split. */
  lemma {:induction false} SplitsEqual(text: String, from: nat, p: seq<String>, q: seq<String>)
    requires from <= |text|
    requires Shaped(p) && Greedy(p) && Flatten(p) == text[from..]
    requires Shaped(q) && Greedy(q) && Flatten(q) == text[from..]
    ensures p == q
    decreases |p|
  {
    SameCut(text, from, p, q);
    if |p| != 1 {
      TailSplits(text, from, p);
      TailSplits(text, from, q);
      SplitsEqual(text, from + |p[0]| + |p[1]|, p[2..], q[2..]);
      assert p == [p[0], p[1]] + p[2..];
      assert q == [q[0], q[1]] + q[2..];
    }
  }

  /** Two shaped, greedy splits of the same text cut it first at the same
      place: both are the whole text, or both open with the same text
      piece and the same delimiter. */
  lemma {:induction false} SameCut(text: String, from: nat, p: seq<String>, q: seq<String>)
    requires from <= |text|
    requires Shaped(p) && Greedy(p) && Flatten(p) == text[from..]
    requires Shaped(q) && Greedy(q) && Flatten(q) == text[from..]
    ensures |p| == 1 <==> |q| == 1
    ensures |p| == 1 ==> p == q
    ensures |p| != 1 ==> |q| >= 2 && p[0] == q[0] && p[1] == q[1]
  {
    CutOf(text, from, p);
    CutOf(text, from, q);
  }

  /** Where a shaped, greedy split cuts the text first: nowhere when it is
      one piece, else at the first match. */
  lemma {:induction false} CutOf(text: String, from: nat, p: seq<String>)
    requires from <= |text|
    requires Shaped(p) && Greedy(p) && Flatten(p) == text[from..]
    ensures |p| == 1 ==> p == [text[from..]] && NextDelim(text, from) == |text|
    ensures |p| != 1 ==> FirstCut(text, from, p)
  {
    if |p| == 1 {
      SingleCut(text, from, p);
    } else {
      LeadingPieces(text, from, p);
    }
  }

  /** A single piece is the whole text, which then holds no match. */
  lemma {:induction false} SingleCut(text: String, from: nat, p: seq<String>)
    requires from <= |text| && |p| == 1
    requires Shaped(p) && Flatten(p) == text[from..]
    ensures p == [text[from..]] && NextDelim(text, from) == |text|
  {
    assert Flatten(p) == p[0] + Flatten(p[1..]);
    assert p[0] == text[from..];
    forall m | from <= m < |text|
      ensures !DelimAt(text, m)
    {
      DelimAtSuffix(text, from, m);
    }
    NextDelimAt(text, from, |text|);
  }

  /** The two leading pieces are where `RegexSplit` cuts first: the text
      before the first match, and the match with its whole whitespace run. */
  predicate FirstCut(text: String, from: nat, p: seq<String>)
  {
    && |p| >= 2 && from + |p[0]| + |p[1]| <= |text|
    && NextDelim(text, from) == from + |p[0]| < |text|
    && LeadEnd(text, from + |p[0]| + 1) == from + |p[0]| + |p[1]|
    && text[from..from + |p[0]|] == p[0]
    && text[from + |p[0]|..from + |p[0]| + |p[1]|] == p[1]
  }

  /** The pieces after the two leading ones of a shaped, greedy split of
      the text are a shaped, greedy split of the rest of the text. */
  lemma {:induction false} TailSplits(text: String, from: nat, p: seq<String>)
    requires from <= |text| && |p| != 1
    requires Shaped(p) && Greedy(p) && Flatten(p) == text[from..]
    ensures |p| >= 3 && |p[1]| >= 2 && from + |p[0]| + |p[1]| <= |text|
    ensures Shaped(p[2..]) && Greedy(p[2..]) && Flatten(p[2..]) == text[from + |p[0]| + |p[1]|..]
  {
    assert IsDelimiter(p[1]);
    ShapedTail(p);
    PiecesAt(text, from, p[0], p[1], Flatten(p[2..]));
  }

  /** The two leading pieces of a shaped, greedy split of the text are
      where `RegexSplit` cuts first. */
  lemma {:induction false} LeadingPieces(text: String, from: nat, p: seq<String>)
    requires from <= |text| && |p| != 1
    requires Shaped(p) && Greedy(p) && Flatten(p) == text[from..]
    ensures FirstCut(text, from, p)
  {
    var x, y, f := p[0], p[1], Flatten(p[2..]);
    assert NoDelimiter(x) && IsDelimiter(y);
    ShapedTail(p);
    AfterDelimiter(p);
    HeadMatch(text, from, x, y, f);
    PiecesAt(text, from, x, y, f);
  }

  /** The slices of the text at the two leading pieces. */
  lemma {:induction false} PiecesAt(text: String, from: nat, x: String, y: String, f: String)
    requires from <= |text| && text[from..] == x + y + f
    ensures from + |x| + |y| <= |text|
    ensures text[from..from + |x|] == x && text[from + |x|..from + |x| + |y|] == y
    ensures text[from + |x| + |y|..] == f
  {
    var t := text[from..];
    assert t[..|x|] == x && t[|x|..|x| + |y|] == y && t[|x| + |y|..] == f;
  }

  /** The pairing loop: piece `2i` and delimiter `2i+1` form one sentence;
      an odd last piece stands alone. */
  function PairUp(pieces: seq<String>): (sentences: seq<String>)
    ensures Flatten(sentences) == Flatten(pieces)
    ensures |sentences| == (|pieces| + 1) / 2
    ensures forall k :: 0 <= k < |pieces| / 2 ==> sentences[k] == pieces[2 * k] + pieces[2 * k + 1]
    ensures |pieces| % 2 == 1 ==> sentences[|sentences| - 1] == pieces[|pieces| - 1]
  {
    if |pieces| == 0 then []
    else if |pieces| == 1 then pieces
    else
      var rest := PairUp(pieces[2..]);
      PairCons(pieces, rest);
      [pieces[0] + pieces[1]] + rest
  }

  /** One step of the pairing loop: the first two pieces in front of the
      sentences paired from the rest. */
  lemma {:induction false} PairCons(pieces: seq<String>, rest: seq<String>)
    requires |pieces| >= 2
    requires Flatten(rest) == Flatten(pieces[2..]) && |rest| == (|pieces| - 1) / 2
    requires forall k :: 0 <= k < (|pieces| - 2) / 2 ==> rest[k] == pieces[2..][2 * k] + pieces[2..][2 * k + 1]
    requires |pieces| % 2 == 1 ==> rest[|rest| - 1] == pieces[2..][|pieces| - 3]
    ensures var r := [pieces[0] + pieces[1]] + rest;
            && Flatten(r) == Flatten(pieces)
            && |r| == (|pieces| + 1) / 2
            && (forall k :: 0 <= k < |pieces| / 2 ==> r[k] == pieces[2 * k] + pieces[2 * k + 1])
            && (|pieces| % 2 == 1 ==> r[|r| - 1] == pieces[|pieces| - 1])
  {
    PairConsFlatten(pieces, rest);
    PairConsPairs(pieces, rest);
    PairConsLast(pieces, rest);
  }

  lemma {:induction false} PairConsFlatten(pieces: seq<String>, rest: seq<String>)
    requires |pieces| >= 2 && Flatten(rest) == Flatten(pieces[2..])
    ensures Flatten([pieces[0] + pieces[1]] + rest) == Flatten(pieces)
  {
    var r := [pieces[0] + pieces[1]] + rest;
    assert r[1..] == rest;
    assert pieces[1..][1..] == pieces[2..];
  }

  lemma {:induction false} PairConsPairs(pieces: seq<String>, rest: seq<String>)
    requires |pieces| >= 2 && |rest| == (|pieces| - 1) / 2
    requires forall k :: 0 <= k < (|pieces| - 2) / 2 ==> rest[k] == pieces[2..][2 * k] + pieces[2..][2 * k + 1]
    ensures var r := [pieces[0] + pieces[1]] + rest;
            forall k :: 0 <= k < |pieces| / 2 ==> r[k] == pieces[2 * k] + pieces[2 * k + 1]
  {
    var r := [pieces[0] + pieces[1]] + rest;
    forall k | 0 <= k < |pieces| / 2
      ensures r[k] == pieces[2 * k] + pieces[2 * k + 1]
    {
      if k > 0 {
        assert r[k] == rest[k - 1];
        assert pieces[2..][2 * (k - 1)] == pieces[2 * k];
        assert pieces[2..][2 * (k - 1) + 1] == pieces[2 * k + 1];
      }
    }
  }

  lemma {:induction false} PairConsLast(pieces: seq<String>, rest: seq<String>)
    requires |pieces| >= 2 && |rest| == (|pieces| - 1) / 2
    requires |pieces| % 2 == 1 ==> rest[|rest| - 1] == pieces[2..][|pieces| - 3]
    ensures var r := [pieces[0] + pieces[1]] + rest;
            && |r| == (|pieces| + 1) / 2
            && (|pieces| % 2 == 1 ==> r[|r| - 1] == pieces[|pieces| - 1])
  {
  }

  /** Text up to the first match of the delimiter pattern, then that
      match. */
  predicate Delimited(s: String)
  {
    exists i :: 0 <= i <= |s| && NoDelimiter(s[..i]) && IsDelimiter(s[i..])
  }

  /** The `full_sentences` that `_chunk_by_sentences_regex` passes on:
      concatenated they give back the text exactly; every sentence but the
      last is delimiter-free text followed by one whole match of the
      pattern, so it ends in whitespace; the last holds no match; and a
      sentence after the first never opens with whitespace, since the
      match before it took the whole run. */
  function RegexSentences(text: String): (sentences: seq<String>)
    ensures |sentences| >= 1
    ensures Flatten(sentences) == text
    ensures forall k :: 0 <= k < |sentences| - 1 ==>
              |sentences[k]| >= 2 && IsSpace(sentences[k][|sentences[k]| - 1])
    ensures forall k :: 0 <= k < |sentences| - 1 ==> Delimited(sentences[k])
    ensures NoDelimiter(sentences[|sentences| - 1])
    ensures forall k :: 0 < k < |sentences| ==> |sentences[k]| == 0 || !IsSpace(sentences[k][0])
  {
    var pieces := RegexSplit(text, 0);
    assert text[0..] == text;
    PairedSentences(pieces);
    PairUp(pieces)
  }

  /** One text piece and the delimiter after it form a delimited sentence. */
  lemma {:induction false} PieceThenDelimiter(x: String, d: String)
    requires NoDelimiter(x) && IsDelimiter(d)
    ensures Delimited(x + d)
  {
    assert (x + d)[..|x|] == x && (x + d)[|x|..] == d;
  }

  /** Positions `2k` and `2k+1` are a text piece and a delimiter. */
  lemma {:induction false} Parity(k: nat)
    ensures (2 * k) % 2 == 0 && (2 * k + 1) % 2 == 1
  {
  }

  /** A sentence the pattern closed: text up to one whole match, so it
      ends in whitespace. */
  predicate Closed(s: String)
  {
    Delimited(s) && |s| >= 2 && IsSpace(s[|s| - 1])
  }

  /** Empty, or opening with a character that is not whitespace. */
  predicate OpensUnspaced(s: String)
  {
    |s| == 0 || !IsSpace(s[0])
  }

  /** Sentence `k` of a greedy `re.split` result, when it is not the last:
      closed, and after the first not opening with whitespace. */
  lemma {:induction false} PairedSentence(pieces: seq<String>, k: nat)
    requires Shaped(pieces) && Greedy(pieces) && k < |pieces| / 2
    ensures Closed(PairUp(pieces)[k])
    ensures k > 0 ==> |PairUp(pieces)[k]| > 0 && OpensUnspaced(PairUp(pieces)[k])
  {
    var x := pieces[2 * k];
    var d := pieces[2 * k + 1];
    Parity(k);
    assert IsDelimiter(d) && NoDelimiter(x);
    assert PairUp(pieces)[k] == x + d;
    PieceThenDelimiter(x, d);
    TerminalNotSpace(d[0]);
    assert d[|d| - 1] == d[1..][|d| - 2];
    if k > 0 {
      assert |x| == 0 || !IsSpace(x[0]);
    }
  }

  /** The last sentence of a greedy `re.split` result is its last piece. */
  lemma {:induction false} PairedLast(pieces: seq<String>)
    requires Shaped(pieces) && Greedy(pieces)
    ensures var r := PairUp(pieces);
            && NoDelimiter(r[|r| - 1])
            && (|r| > 1 ==> OpensUnspaced(r[|r| - 1]))
  {
    var m := |pieces| / 2;
    Parity(m);
    assert |pieces| - 1 == 2 * m;
    assert NoDelimiter(pieces[2 * m]);
  }

  /** Every sentence but the last of a greedy `re.split` result is
      closed. */
  lemma {:induction false} PairedInner(pieces: seq<String>)
    requires Shaped(pieces) && Greedy(pieces)
    ensures var r := PairUp(pieces);
            forall k :: 0 <= k < |r| - 1 ==> Closed(r[k])
  {
    var r := PairUp(pieces);
    forall k | 0 <= k < |r| - 1
      ensures Closed(r[k])
    {
      PairedSentence(pieces, k);
    }
  }

  /** Every sentence after the first of a greedy `re.split` result opens
      with a character that is not whitespace, if any. */
  lemma {:induction false} PairedOpens(pieces: seq<String>)
    requires Shaped(pieces) && Greedy(pieces)
    ensures var r := PairUp(pieces);
            forall k :: 0 < k < |r| ==> |r[k]| == 0 || !IsSpace(r[k][0])
  {
    var r := PairUp(pieces);
    PairedLast(pieces);
    forall k | 0 < k < |r|
      ensures OpensUnspaced(r[k])
    {
      if k < |r| - 1 {
        PairedSentence(pieces, k);
      }
    }
  }

  /** Every sentence but the last is text up to one whole match. */
  lemma {:induction false} PairedDelimited(pieces: seq<String>)
    requires Shaped(pieces) && Greedy(pieces)
    ensures var r := PairUp(pieces);
            forall k :: 0 <= k < |r| - 1 ==> Delimited(r[k])
  {
    PairedInner(pieces);
  }

  /** Every sentence but the last ends in whitespace. */
  lemma {:induction false} PairedEnds(pieces: seq<String>)
    requires Shaped(pieces) && Greedy(pieces)
    ensures var r := PairUp(pieces);
            forall k :: 0 <= k < |r| - 1 ==> |r[k]| >= 2 && IsSpace(r[k][|r[k]| - 1])
  {
    PairedInner(pieces);
  }

  /** The sentences paired from a greedy `re.split` result. */
  lemma {:induction false} PairedSentences(pieces: seq<String>)
    requires Shaped(pieces) && Greedy(pieces)
    ensures var r := PairUp(pieces);
            && (forall k :: 0 <= k < |r| - 1 ==> Delimited(r[k]))
            && (forall k :: 0 <= k < |r| - 1 ==> |r[k]| >= 2 && IsSpace(r[k][|r[k]| - 1]))
            && NoDelimiter(r[|r| - 1])
            && (forall k :: 0 < k < |r| ==> |r[k]| == 0 || !IsSpace(r[k][0]))
  {
    PairedDelimited(pieces);
    PairedEnds(pieces);
    PairedLast(pieces);
    PairedOpens(pieces);
  }

  /** `max_chars_per_batch` of `_chunk_by_spacy`. */
  const SpacyBatchChars := 100000

  /** What the segmenter returns for each slice, when no call raises. */
  function Outputs(slices: seq<String>, nlp: Segmenter): (outs: seq<seq<String>>)
    requires forall k :: 0 <= k < |slices| ==> nlp(slices[k]).Some?
    ensures |outs| == |slices|
    ensures forall k :: 0 <= k < |slices| ==> outs[k] == nlp(slices[k]).value
  {
    seq(|slices|, k requires 0 <= k < |slices| => nlp(slices[k]).value)
  }

  /** Runs the segmenter over each slice and concatenates the sentences in
      slice order; `None` as soon as one call raises. */
  function SegmentAll(slices: seq<String>, nlp: Segmenter): (r: Option<seq<String>>)
    ensures r.Some? <==> forall k :: 0 <= k < |slices| ==> nlp(slices[k]).Some?
    ensures r.Some? ==> r.value == Flatten(Outputs(slices, nlp))
  {
    if |slices| == 0 then Some([])
    else
      match nlp(slices[0])
      case None => None
      case Some(first) =>
        match SegmentAll(slices[1..], nlp)
        case None =>
          assert exists k :: 0 <= k < |slices[1..]| && nlp(slices[1..][k]).None?;
          None
        case Some(rest) =>
          assert forall k :: 1 <= k < |slices| ==> slices[k] == slices[1..][k - 1];
          assert Outputs(slices, nlp)[1..] == Outputs(slices[1..], nlp);
          Some(first + rest)
  }

  /** The sentence list `_chunk_by_spacy` builds: the segmenter sees the
      text in consecutive slices of 100000 characters that together are the
      text; a raise anywhere makes the whole call fail. */
  function SpacySentences(text: String, nlp: Segmenter): (r: Option<seq<String>>)
    ensures var slices := BatchIterator(text, SpacyBatchChars);
            && Flatten(slices) == text
            && (forall k :: 0 <= k < |slices| ==> 0 < |slices[k]| <= SpacyBatchChars)
            && (r.Some? <==> forall k :: 0 <= k < |slices| ==> nlp(slices[k]).Some?)
            && (r.Some? ==> r.value == Flatten(Outputs(slices, nlp)))
  {
    SegmentAll(BatchIterator(text, SpacyBatchChars), nlp)
  }
}
