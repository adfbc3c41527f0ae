/** Python `str` operations used throughout the pipeline, on `seq<char>`:
    whitespace classification (`str.isspace`), `strip`, `split(sep)`,
    `split()`, `sep.join`, the `in` substring test, ASCII `lower`,
    slicing with Python's index normalisation, and `str(n)` for naturals. */
module Text {

  import opened Seqs

  type String = seq<char>

  /** The characters for which Python's `str.isspace` is true; the regular
      expression class `\s` on `str` patterns matches the same set. */
  predicate IsSpace(c: char)
  {
    || c == ' ' || c == '\t' || c == '\n' || c == '\r' || c == '\U{B}' || c == '\U{C}'
    || ('\U{1C}' <= c <= '\U{1F}') || c == '\U{85}' || c == '\U{A0}' || c == '\U{1680}'
    || ('\U{2000}' <= c <= '\U{200A}') || c == '\U{2028}' || c == '\U{2029}'
    || c == '\U{202F}' || c == '\U{205F}' || c == '\U{3000}'
  }

  predicate IsDigit(c: char)
  {
    '0' <= c <= '9'
  }

  predicate AllSpace(s: String)
  {
    forall i :: 0 <= i < |s| ==> IsSpace(s[i])
  }

  predicate NoSpace(s: String)
  {
    forall i :: 0 <= i < |s| ==> !IsSpace(s[i])
  }

  /** No leading and no trailing whitespace: what `strip()` leaves. */
  predicate Stripped(s: String)
  {
    |s| == 0 || (!IsSpace(s[0]) && !IsSpace(s[|s| - 1]))
  }

  function LowerChar(c: char): char
  {
    if 'A' <= c <= 'Z' then (c as int + 32) as char else c
  }

  /** `str.lower()` restricted to ASCII letters. */
  function Lower(s: String): (r: String)
    ensures |r| == |s|
    ensures forall i :: 0 <= i < |s| ==> r[i] == LowerChar(s[i])
  {
    seq(|s|, i requires 0 <= i < |s| => LowerChar(s[i]))
  }

  /** Index of the first non-whitespace character at or after `i`. */
  function LeadEnd(s: String, i: nat): (j: nat)
    requires i <= |s|
    ensures i <= j <= |s|
    ensures forall k :: i <= k < j ==> IsSpace(s[k])
    ensures j < |s| ==> !IsSpace(s[j])
    decreases |s| - i
  {
    if i < |s| && IsSpace(s[i]) then LeadEnd(s, i + 1) else i
  }

  /** The whitespace run from `i` ends at the first character that is
      not whitespace. */
  lemma {:induction false} LeadEndAt(s: String, i: nat, e: nat)
    requires i <= e <= |s|
    requires forall k :: i <= k < e ==> IsSpace(s[k])
    requires e == |s| || !IsSpace(s[e])
    ensures LeadEnd(s, i) == e
    decreases e - i
  {
    if i < e {
      LeadEndAt(s, i + 1, e);
    }
  }

  /** Start of the whitespace run that ends at `j`, not going below `lo`. */
  function TrailStart(s: String, lo: nat, j: nat): (i: nat)
    requires lo <= j <= |s|
    ensures lo <= i <= j
    ensures forall k :: i <= k < j ==> IsSpace(s[k])
    ensures i > lo ==> !IsSpace(s[i - 1])
    decreases j - lo
  {
    if j > lo && IsSpace(s[j - 1]) then TrailStart(s, lo, j - 1) else j
  }

  /** Where the slice `strip()` keeps begins and ends. */
  function StripStart(s: String): nat
  {
    LeadEnd(s, 0)
  }

  function StripEnd(s: String): (e: nat)
    ensures StripStart(s) <= e <= |s|
  {
    TrailStart(s, StripStart(s), |s|)
  }

  /** `str.strip()`: the slice of `s` between its first and last
      non-whitespace characters; everything cut off is whitespace. */
  function Strip(s: String): (r: String)
    ensures Stripped(r)
    ensures |r| <= |s|
    ensures |r| == 0 <==> AllSpace(s)
    ensures r == s[StripStart(s)..StripEnd(s)]
    ensures forall k :: 0 <= k < StripStart(s) ==> IsSpace(s[k])
    ensures forall k :: StripEnd(s) <= k < |s| ==> IsSpace(s[k])
  {
    var a := StripStart(s);
    var b := StripEnd(s);
    assert a < |s| ==> b > a;
    s[a..b]
  }

  /** What `strip()` removes: a whitespace prefix and a whitespace suffix
      around the kept slice. */
  lemma {:induction false} StripSplits(s: String)
    ensures s == s[..StripStart(s)] + Strip(s) + s[StripEnd(s)..]
    ensures AllSpace(s[..StripStart(s)]) && AllSpace(s[StripEnd(s)..])
  {
    var a := StripStart(s);
    var b := StripEnd(s);
    assert s == s[..a] + s[a..b] + s[b..];
  }

  /** `strip()` only removes characters. */
  lemma {:induction false} StripKeepsOut(s: String, c: char)
    requires c !in s
    ensures c !in Strip(s)
  {
    var r := Strip(s);
    assert forall i :: 0 <= i < |r| ==> r[i] == s[StripStart(s) + i];
  }

  /** `strip()` leaves an already stripped string unchanged. */
  lemma {:induction false} StripStripped(s: String)
    requires Stripped(s)
    ensures Strip(s) == s
  {
    if |s| > 0 {
      assert StripStart(s) == 0;
      assert StripEnd(s) == |s|;
    }
  }

  /** Index of the first `c` in `s`, or `|s|` when there is none. */
  function IndexOf(s: String, c: char): (i: nat)
    ensures i <= |s|
    ensures i < |s| ==> s[i] == c
    ensures forall j :: 0 <= j < i ==> s[j] != c
  {
    if |s| == 0 then 0 else if s[0] == c then 0 else 1 + IndexOf(s[1..], c)
  }

  /** `sep.join(parts)` for a one-character separator. */
  function Join(parts: seq<String>, sep: char): String
  {
    if |parts| == 0 then [] else if |parts| == 1 then parts[0] else parts[0] + [sep] + Join(parts[1..], sep)
  }

  /** `s.split(sep)` for a one-character separator: never empty, no piece
      holds the separator, and joining the pieces gives `s` back. */
  function Split(s: String, sep: char): (parts: seq<String>)
    ensures |parts| >= 1
    ensures forall k :: 0 <= k < |parts| ==> sep !in parts[k]
    ensures Join(parts, sep) == s
    decreases |s|
  {
    var i := IndexOf(s, sep);
    if i == |s| then
      [s]
    else
      var rest := Split(s[i + 1..], sep);
      assert ([s[..i]] + rest)[1..] == rest;
      assert s == s[..i] + [sep] + s[i + 1..];
      [s[..i]] + rest
  }

  /** The other round trip: splitting a join of separator-free pieces gives
      the pieces back. */
  lemma {:induction false} SplitJoin(parts: seq<String>, sep: char)
    requires |parts| >= 1
    requires forall k :: 0 <= k < |parts| ==> sep !in parts[k]
    ensures Split(Join(parts, sep), sep) == parts
    decreases |parts|
  {
    var s := Join(parts, sep);
    if |parts| == 1 {
      assert IndexOf(s, sep) == |s|;
    } else {
      var p := parts[0];
      var rest := Join(parts[1..], sep);
      assert s == p + [sep] + rest;
      assert s[|p|] == sep;
      assert forall j :: 0 <= j < |p| ==> s[j] == p[j];
      var i := IndexOf(s, sep);
      assert i == |p|;
      assert s[..i] == p;
      assert s[i + 1..] == rest;
      SplitJoin(parts[1..], sep);
      assert parts == [p] + parts[1..];
    }
  }

  lemma {:induction false} JoinSnoc(parts: seq<String>, x: String, sep: char)
    ensures Join(parts + [x], sep) == if |parts| == 0 then x else Join(parts, sep) + [sep] + x
    decreases |parts|
  {
    if |parts| == 0 {
      assert parts + [x] == [x];
    } else if |parts| == 1 {
      assert parts + [x] == [parts[0], x];
      assert [parts[0], x][1..] == [x];
    } else {
      assert (parts + [x])[1..] == parts[1..] + [x];
      JoinSnoc(parts[1..], x, sep);
    }
  }

  /** Joining a concatenation of two non-empty lists puts one separator
      between the two joins. */
  lemma {:induction false} JoinAppend(a: seq<String>, b: seq<String>, sep: char)
    requires |a| > 0 && |b| > 0
    ensures Join(a + b, sep) == Join(a, sep) + [sep] + Join(b, sep)
    decreases |a|
  {
    if |a| == 1 {
      assert (a + b)[1..] == b;
      assert a + b == [a[0]] + b;
    } else {
      assert (a + b)[1..] == a[1..] + b;
      JoinAppend(a[1..], b, sep);
    }
  }

  /** A join contains no character that is neither the separator nor in
      one of the parts. */
  lemma {:induction false} JoinChars(parts: seq<String>, sep: char, c: char)
    requires c != sep
    requires forall k :: 0 <= k < |parts| ==> c !in parts[k]
    ensures c !in Join(parts, sep)
    decreases |parts|
  {
    if |parts| > 1 {
      JoinChars(parts[1..], sep, c);
    }
  }

  /** Python's `needle in hay` on strings. */
  predicate IsInfix(needle: String, hay: String)
    decreases |hay|
  {
    needle <= hay || (|hay| > 0 && IsInfix(needle, hay[1..]))
  }

  lemma {:induction false} InfixLength(needle: String, hay: String)
    requires IsInfix(needle, hay)
    ensures |needle| <= |hay|
    decreases |hay|
  {
    if !(needle <= hay) {
      InfixLength(needle, hay[1..]);
    }
  }

  lemma {:induction false} InfixExtendLeft(needle: String, x: String, hay: String)
    requires IsInfix(needle, hay)
    ensures IsInfix(needle, x + hay)
    decreases |x|
  {
    if |x| > 0 {
      assert (x + hay)[1..] == x[1..] + hay;
      InfixExtendLeft(needle, x[1..], hay);
      assert IsInfix(needle, (x + hay)[1..]);
    } else {
      assert x + hay == hay;
    }
  }

  /** Every character of an occurring needle occurs in the haystack. */
  lemma {:induction false} InfixMember(needle: String, hay: String, i: nat)
    requires IsInfix(needle, hay) && i < |needle|
    ensures needle[i] in hay
    decreases |hay|
  {
    if needle <= hay {
      assert hay[i] == needle[i];
    } else {
      InfixMember(needle, hay[1..], i);
    }
  }

  /** A needle with a character the haystack lacks does not occur in it. */
  lemma {:induction false} NotInfix(needle: String, hay: String, i: nat)
    requires i < |needle| && needle[i] !in hay
    ensures !IsInfix(needle, hay)
  {
    if IsInfix(needle, hay) {
      InfixMember(needle, hay, i);
    }
  }

  lemma {:induction false} InfixPrefix(needle: String, hay: String)
    requires needle <= hay
    ensures IsInfix(needle, hay)
  {
  }

  /** Every part of a join occurs in it. */
  lemma {:induction false} JoinContainsParts(parts: seq<String>, sep: char, k: nat)
    requires k < |parts|
    ensures IsInfix(parts[k], Join(parts, sep))
    decreases k
  {
    if |parts| == 1 {
      assert parts[k] <= Join(parts, sep);
    } else if k == 0 {
      assert parts[0] <= Join(parts, sep);
    } else {
      JoinContainsParts(parts[1..], sep, k - 1);
      assert Join(parts, sep) == (parts[0] + [sep]) + Join(parts[1..], sep);
      InfixExtendLeft(parts[k], parts[0] + [sep], Join(parts[1..], sep));
    }
  }

  /** First index at or after `i` that is whitespace, or `|s|`. */
  function WordEnd(s: String, i: nat): (j: nat)
    requires i <= |s|
    ensures i <= j <= |s|
    ensures forall k :: i <= k < j ==> !IsSpace(s[k])
    ensures j < |s| ==> IsSpace(s[j])
    decreases |s| - i
  {
    if i < |s| && !IsSpace(s[i]) then WordEnd(s, i + 1) else i
  }

  /** `str.split()` with no argument: the maximal runs of non-whitespace. */
  function Words(s: String): (ws: seq<String>)
    ensures forall k :: 0 <= k < |ws| ==> |ws[k]| > 0 && NoSpace(ws[k])
    decreases |s|
  {
    if |s| == 0 then []
    else if IsSpace(s[0]) then Words(s[1..])
    else
      var j := WordEnd(s, 0);
      [s[..j]] + Words(s[j..])
  }

  /** The message of the IndexError Python raises for `xs[i]` out of range. */
  const IndexErrorMessage: String := "list index out of range"

  /** Python slice bound normalisation for a sequence of length `n`. */
  function PyIndex(i: int, n: nat): (r: nat)
    ensures r <= n
  {
    if i < 0 then (if i + n < 0 then 0 else i + n) else if i > n then n else i
  }

  /** `s[a:b]` with Python's treatment of negative and out-of-range bounds. */
  function PySlice(s: String, a: int, b: int): (r: String)
    ensures 0 <= a <= b <= |s| ==> r == s[a..b]
    ensures 0 <= a <= b ==> |r| <= b - a
  {
    var i := PyIndex(a, |s|);
    var j := PyIndex(b, |s|);
    if i < j then s[i..j] else []
  }

  function DigitChar(d: nat): char
    requires d < 10
  {
    ('0' as int + d) as char
  }

  /** `str(n)` for a natural number. */
  function NatToString(n: nat): (s: String)
    ensures |s| > 0
    ensures forall k :: 0 <= k < |s| ==> IsDigit(s[k])
  {
    if n < 10 then [DigitChar(n)] else NatToString(n / 10) + [DigitChar(n % 10)]
  }

  /** `int(s)` for a string of ASCII digits. */
  function ParseNat(s: String): nat
    requires forall k :: 0 <= k < |s| ==> IsDigit(s[k])
  {
    if |s| == 0 then 0
    else
      var d := s[|s| - 1];
      assert IsDigit(d);
      ParseNat(s[..|s| - 1]) * 10 + (d as int - '0' as int)
  }

  lemma {:induction false} ParseNatToString(n: nat)
    ensures ParseNat(NatToString(n)) == n
  {
    if n >= 10 {
      var s := NatToString(n);
      assert s[..|s| - 1] == NatToString(n / 10);
      ParseNatToString(n / 10);
    }
  }

  /** Decimal rendering is injective. */
  lemma {:induction false} NatToStringInjective(m: nat, n: nat)
    requires NatToString(m) == NatToString(n)
    ensures m == n
  {
    ParseNatToString(m);
    ParseNatToString(n);
  }

  /** End of the run of characters satisfying `p` that starts at `i`. */
  function SpanEnd(s: String, i: nat, p: char -> bool): (j: nat)
    requires i <= |s|
    ensures i <= j <= |s|
    ensures forall k :: i <= k < j ==> p(s[k])
    ensures j < |s| ==> !p(s[j])
    decreases |s| - i
  {
    if i < |s| && p(s[i]) then SpanEnd(s, i + 1, p) else i
  }

  /** The run satisfying `p` from `i` ends at the first character that
      fails `p`. */
  lemma {:induction false} SpanEndAt(s: String, i: nat, e: nat, p: char -> bool)
    requires i <= e <= |s|
    requires forall k :: i <= k < e ==> p(s[k])
    requires e == |s| || !p(s[e])
    ensures SpanEnd(s, i, p) == e
    decreases e - i
  {
    if i < e {
      SpanEndAt(s, i + 1, e, p);
    }
  }

  /** A character absent from `s` is absent from every piece of its split. */
  lemma {:induction false} SplitKeepsOut(s: String, sep: char, c: char)
    requires c !in s
    ensures forall k :: 0 <= k < |Split(s, sep)| ==> c !in Split(s, sep)[k]
    decreases |s|
  {
    var i := IndexOf(s, sep);
    if i < |s| {
      SplitKeepsOut(s[i + 1..], sep, c);
      assert c !in s[..i];
      assert Split(s, sep) == [s[..i]] + Split(s[i + 1..], sep);
    } else {
      assert Split(s, sep) == [s];
    }
  }

  /** A word followed by nothing or by whitespace is the first word. */
  lemma {:induction false} WordsCons(w: String, rest: String)
    requires |w| > 0 && NoSpace(w)
    requires |rest| == 0 || IsSpace(rest[0])
    ensures Words(w + rest) == [w] + Words(rest)
  {
    var s := w + rest;
    assert forall k :: 0 <= k < |w| ==> s[k] == w[k];
    WordEndAt(s, 0, |w|);
    assert s[..|w|] == w && s[|w|..] == rest;
  }

  /** The word starting at `i` ends at the first whitespace. */
  lemma {:induction false} WordEndAt(s: String, i: nat, e: nat)
    requires i <= e <= |s|
    requires forall k :: i <= k < e ==> !IsSpace(s[k])
    requires e == |s| || IsSpace(s[e])
    ensures WordEnd(s, i) == e
    decreases e - i
  {
    if i < e {
      WordEndAt(s, i + 1, e);
    }
  }

  /** Splitting the single-space join of words gives the words back. */
  lemma {:induction false} WordsOfJoin(ws: seq<String>)
    requires forall k :: 0 <= k < |ws| ==> |ws[k]| > 0 && NoSpace(ws[k])
    ensures Words(Join(ws, ' ')) == ws
    decreases |ws|
  {
    if |ws| == 1 {
      WordsCons(ws[0], "");
      assert ws[0] + "" == ws[0];
    } else if |ws| > 1 {
      var rest := Join(ws[1..], ' ');
      WordsOfJoin(ws[1..]);
      assert Join(ws, ' ') == ws[0] + ([' '] + rest);
      WordsCons(ws[0], [' '] + rest);
      assert ([' '] + rest)[1..] == rest;
      assert ws == [ws[0]] + ws[1..];
    }
  }

  /** A text has no words exactly when it is all whitespace. */
  lemma {:induction false} WordsEmpty(s: String)
    ensures |Words(s)| == 0 <==> AllSpace(s)
    decreases |s|
  {
    if |s| > 0 && IsSpace(s[0]) {
      WordsEmpty(s[1..]);
      assert AllSpace(s) <==> AllSpace(s[1..]);
    }
  }
}
