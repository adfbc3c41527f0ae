/** Which edits keep the words of a text, `str.split()` with no argument.
    Two texts with the same words that also agree on whether they open
    with a word character stay interchangeable when a character is put in
    front of both; from that the whitespace-only edits of the cleaner are
    shown to keep the words. */
module WordsKept {

  import opened Seqs
  import opened Text

  /** The text opens with a character that belongs to a word. */
  predicate StartsWord(s: String)
  {
    |s| > 0 && !IsSpace(s[0])
  }

  /** A leading whitespace character is not part of any word. */
  lemma {:induction false} WordsSpaceCons(c: char, x: String)
    requires IsSpace(c)
    ensures Words([c] + x) == Words(x)
  {
    assert ([c] + x)[1..] == x;
  }

  /** A whitespace prefix is not part of any word. */
  lemma {:induction false} WordsSkip(s: String, j: nat)
    requires j <= |s| && forall k :: 0 <= k < j ==> IsSpace(s[k])
    ensures Words(s) == Words(s[j..])
    decreases j
  {
    if j > 0 {
      WordsSkip(s[1..], j - 1);
      assert s[1..][j - 1..] == s[j..];
    }
  }

  /** An all-whitespace text has no words. */
  lemma {:induction false} WordsAllSpace(s: String)
    requires AllSpace(s)
    ensures Words(s) == []
  {
    WordsSkip(s, |s|);
  }

  /** A word character in front of `x` either starts a new word or joins
      the first word of `x`. */
  lemma {:induction false} WordsConsChar(c: char, x: String)
    requires !IsSpace(c)
    ensures StartsWord(x) ==> |Words(x)| > 0 && Words([c] + x) == [[c] + Words(x)[0]] + Words(x)[1..]
    ensures !StartsWord(x) ==> Words([c] + x) == [[c]] + Words(x)
  {
    if StartsWord(x) {
      var j := WordEnd(x, 0);
      var s := [c] + x;
      assert Words(x) == [x[..j]] + Words(x[j..]);
      forall k | 0 <= k < j + 1
        ensures !IsSpace(s[k])
      {
        if k > 0 {
          assert s[k] == x[k - 1];
        }
      }
      WordEndAt(s, 0, j + 1);
      assert s[..j + 1] == [c] + x[..j];
      assert s[j + 1..] == x[j..];
    } else {
      WordsCons([c], x);
    }
  }

  /** Texts with the same words that agree on opening with a word
      character still agree after the same character is put in front. */
  lemma {:induction false} WordsCongruent(c: char, x: String, y: String)
    requires Words(x) == Words(y) && StartsWord(x) == StartsWord(y)
    ensures Words([c] + x) == Words([c] + y)
  {
    if IsSpace(c) {
      WordsSpaceCons(c, x);
      WordsSpaceCons(c, y);
    } else {
      WordsConsChar(c, x);
      WordsConsChar(c, y);
    }
  }

  /** Words do not run across whitespace: when `b` is empty or opens with
      whitespace, the words of `a + b` are those of `a` then those of `b`. */
  lemma {:induction false} WordsAppendSpaced(a: String, b: String)
    requires |b| == 0 || IsSpace(b[0])
    ensures Words(a + b) == Words(a) + Words(b)
    decreases |a|
  {
    var s := a + b;
    if |a| == 0 {
      assert s == b;
    } else if IsSpace(a[0]) {
      assert s[1..] == a[1..] + b;
      WordsAppendSpaced(a[1..], b);
    } else {
      var j := WordEnd(a, 0);
      forall k | 0 <= k < j
        ensures !IsSpace(s[k])
      {
        assert s[k] == a[k];
      }
      WordEndAt(s, 0, j);
      assert s[..j] == a[..j];
      assert s[j..] == a[j..] + b;
      WordsAppendSpaced(a[j..], b);
    }
  }

  /** `strip()` keeps the words. */
  lemma {:induction false} WordsStrip(s: String)
    ensures Words(Strip(s)) == Words(s)
  {
    var a := StripStart(s);
    var b := StripEnd(s);
    StripSplits(s);
    WordsSkip(s, a);
    assert s[a..] == Strip(s) + s[b..];
    WordsTrailing(Strip(s), s[b..]);
  }

  /** Trailing whitespace is not part of any word. */
  lemma {:induction false} WordsTrailing(t: String, tail: String)
    requires AllSpace(tail)
    ensures Words(t + tail) == Words(t)
  {
    if |tail| > 0 {
      assert IsSpace(tail[0]);
    }
    WordsAppendSpaced(t, tail);
    WordsAllSpace(tail);
    assert Words(t) + [] == Words(t);
  }

  /** Joining with a whitespace separator: parts with the same words give
      joins with the same words. */
  lemma {:induction false} WordsJoinSame(ps: seq<String>, qs: seq<String>, sep: char)
    requires IsSpace(sep) && |ps| == |qs|
    requires forall k :: 0 <= k < |ps| ==> Words(ps[k]) == Words(qs[k])
    ensures Words(Join(ps, sep)) == Words(Join(qs, sep))
    decreases |ps|
  {
    if |ps| > 1 {
      var jp := Join(ps[1..], sep);
      var jq := Join(qs[1..], sep);
      WordsJoinSame(ps[1..], qs[1..], sep);
      assert Join(ps, sep) == ps[0] + ([sep] + jp);
      assert Join(qs, sep) == qs[0] + ([sep] + jq);
      WordsAppendSpaced(ps[0], [sep] + jp);
      WordsAppendSpaced(qs[0], [sep] + jq);
      WordsSpaceCons(sep, jp);
      WordsSpaceCons(sep, jq);
    }
  }

  /** Replacing whitespace by whitespace, position by position, keeps the
      words. */
  lemma {:induction false} WordsPointwise(a: String, b: String)
    requires |a| == |b|
    requires forall i :: 0 <= i < |a| ==> IsSpace(a[i]) == IsSpace(b[i]) && (!IsSpace(a[i]) ==> a[i] == b[i])
    ensures Words(a) == Words(b) && StartsWord(a) == StartsWord(b)
    decreases |a|
  {
    if |a| > 0 {
      WordsPointwise(a[1..], b[1..]);
      assert a == [a[0]] + a[1..];
      assert b == [b[0]] + b[1..];
      if IsSpace(a[0]) {
        WordsSpaceCons(a[0], a[1..]);
        WordsSpaceCons(b[0], b[1..]);
      } else {
        WordsCongruent(a[0], a[1..], b[1..]);
      }
    }
  }
}
