/** `_build_chunks_from_sentences` of the document cleaner: the one place
    where every sentence-based chunking path turns a list of sentences into
    chunks. The loop over sentences is a left fold of `Step` over the
    assembly state; `Assemble` is the state after a prefix of the input. */
module Assembly {

  import opened Seqs
  import opened Text

  /** The loop variables: the finished chunks, the pieces of the open chunk
      and `current_size`. */
  datatype State = State(chunks: seq<String>, current: seq<String>, size: int)

  function TotalLength(xs: seq<String>): nat
  {
    if |xs| == 0 then 0 else TotalLength(xs[..|xs| - 1]) + |xs[|xs| - 1]|
  }

  /** What the loop keeps true: `current_size` is the total length of the
      open chunk's pieces, and no piece is empty. */
  predicate Valid(st: State)
  {
    && st.size == TotalLength(st.current)
    && (forall k :: 0 <= k < |st.current| ==> |st.current[k]| > 0)
  }

  predicate AllAtLeast(chunks: seq<String>, minSize: int)
  {
    forall k :: 0 <= k < |chunks| ==> |chunks[k]| >= minSize
  }

  /** The stripped, non-blank sentences in input order: the ones the loop
      does not skip. */
  function NonBlank(ss: seq<String>): (r: seq<String>)
    ensures |r| <= |ss|
    ensures forall k :: 0 <= k < |r| ==> |r[k]| > 0 && Stripped(r[k])
  {
    if |ss| == 0 then []
    else
      var s := Strip(ss[|ss| - 1]);
      NonBlank(ss[..|ss| - 1]) + (if |s| == 0 then [] else [s])
  }

  /** `chunk_text[-overlap:] if len(chunk_text) > overlap else chunk_text`
      for a positive overlap: the last `min(overlap, len)` characters. */
  function OverlapText(closed: String, overlap: int): (t: String)
    requires overlap > 0
    ensures |t| == Min(overlap, |closed|)
    ensures t == closed[|closed| - |t|..]
  {
    if |closed| > overlap then closed[|closed| - overlap..] else closed
  }

  /** Appending a non-empty piece keeps the invariant. */
  lemma {:induction false} ValidAppend(st: State, s: String)
    requires Valid(st) && |s| > 0
    ensures Valid(State(st.chunks, st.current + [s], st.size + |s|))
  {
    assert (st.current + [s])[..|st.current|] == st.current;
  }

  /** The open chunk after an overflow: the overlap tail of the closed
      text, when the overlap is positive, followed by the sentence. */
  function Seed(closed: String, s: String, overlap: int): (current: seq<String>)
    requires |closed| > 0 && |s| > 0
    ensures |current| > 0 && current[|current| - 1] == s
    ensures forall k :: 0 <= k < |current| ==> |current[k]| > 0
    ensures TotalLength(current) == (if overlap > 0 then Min(overlap, |closed|) else 0) + |s|
  {
    if overlap > 0 then
      var t := OverlapText(closed, overlap);
      assert [t, s][..1] == [t];
      assert [t][..0] == [];
      assert TotalLength([t]) == |t|;
      [t, s]
    else
      assert [s][..0] == [];
      [s]
  }

  /** One iteration of the loop for the raw sentence `raw`. */
  function Step(st: State, raw: String, chunkSize: int, overlap: int, minSize: int): (r: State)
    requires Valid(st)
    ensures Valid(r)
    ensures |Strip(raw)| == 0 ==> r == st
    ensures |Strip(raw)| > 0 ==> |r.current| > 0 && r.current[|r.current| - 1] == Strip(raw)
    ensures r.chunks == st.chunks || (|st.current| > 0 && r.chunks == st.chunks + [Join(st.current, ' ')])
    ensures r.chunks != st.chunks ==> |Join(st.current, ' ')| >= minSize
  {
    var s := Strip(raw);
    if |s| == 0 then st
    else if st.size + |s| > chunkSize && |st.current| > 0 then
      var closed := Join(st.current, ' ');
      JoinLength(st.current, ' ', 0);
      var current := Seed(closed, s, overlap);
      State(if |closed| >= minSize then st.chunks + [closed] else st.chunks, current, TotalLength(current))
    else
      ValidAppend(st, s);
      State(st.chunks, st.current + [s], st.size + |s|)
  }

  /** A join is at least as long as each of its parts. */
  lemma {:induction false} JoinLength(parts: seq<String>, sep: char, k: nat)
    requires k < |parts|
    ensures |Join(parts, sep)| >= |parts[k]|
  {
    JoinContainsParts(parts, sep, k);
    InfixLength(parts[k], Join(parts, sep));
  }

  /** The state after the loop has consumed `ss`. */
  function Assemble(ss: seq<String>, chunkSize: int, overlap: int, minSize: int): (st: State)
    ensures Valid(st)
    ensures AllAtLeast(st.chunks, minSize)
    ensures |st.current| > 0 <==> |NonBlank(ss)| > 0
    ensures |st.chunks| + (if |st.current| > 0 then 1 else 0) <= |NonBlank(ss)|
  {
    if |ss| == 0 then State([], [], 0)
    else Step(Assemble(ss[..|ss| - 1], chunkSize, overlap, minSize), ss[|ss| - 1], chunkSize, overlap, minSize)
  }

  /** The text of the open chunk, kept when it is long enough. */
  function Flush(st: State, minSize: int): (chunks: seq<String>)
    ensures AllAtLeast(st.chunks, minSize) ==> AllAtLeast(chunks, minSize)
    ensures |chunks| <= |st.chunks| + (if |st.current| > 0 then 1 else 0)
  {
    if |st.current| > 0 && |Join(st.current, ' ')| >= minSize then st.chunks + [Join(st.current, ' ')]
    else st.chunks
  }

  /** `_build_chunks_from_sentences(sentences, chunk_size, overlap,
      min_size)`: every chunk, the last one included, has at least
      `min_size` characters, and there are no more chunks than non-blank
      sentences. */
  function BuildChunks(ss: seq<String>, chunkSize: int, overlap: int, minSize: int): (chunks: seq<String>)
    ensures AllAtLeast(chunks, minSize)
    ensures |chunks| <= |NonBlank(ss)|
  {
    Flush(Assemble(ss, chunkSize, overlap, minSize), minSize)
  }

  /** A non-blank sentence joins the open chunk exactly when that chunk is
      empty or `current_size + len(sentence) <= chunk_size`; it is stored
      whole. */
  lemma {:induction false} JoinsOpenChunk(st: State, raw: String, chunkSize: int, overlap: int, minSize: int)
    requires Valid(st) && |Strip(raw)| > 0
    requires |st.current| == 0 || st.size + |Strip(raw)| <= chunkSize
    ensures Step(st, raw, chunkSize, overlap, minSize)
            == State(st.chunks, st.current + [Strip(raw)], st.size + |Strip(raw)|)
  {
  }

  /** Otherwise the open chunk is closed (and kept only when it has at
      least `min_size` characters), and the new open chunk starts with the
      last `min(overlap, len(closed))` characters of the closed text, even
      when that text was dropped; with `overlap <= 0` it is the sentence
      alone. */
  lemma {:induction false} ClosesOpenChunk(st: State, raw: String, chunkSize: int, overlap: int, minSize: int)
    requires Valid(st) && |Strip(raw)| > 0
    requires |st.current| > 0 && st.size + |Strip(raw)| > chunkSize
    ensures var closed := Join(st.current, ' ');
            var r := Step(st, raw, chunkSize, overlap, minSize);
            && r.chunks == (if |closed| >= minSize then st.chunks + [closed] else st.chunks)
            && r.current == (if overlap > 0 then [closed[|closed| - Min(overlap, |closed|)..], Strip(raw)]
                             else [Strip(raw)])
  {
  }

  /** The chunks emitted so far followed by the text of the open chunk. */
  function Pending(st: State): seq<String>
  {
    st.chunks + (if |st.current| > 0 then [Join(st.current, ' ')] else [])
  }

  /** Joining `xs + [x]` when the join of `xs` is known. */
  lemma {:induction false} JoinSnocNonEmpty(xs: seq<String>, x: String, sep: char)
    requires |xs| > 0
    ensures Join(xs + [x], sep) == Join(xs, sep) + [sep] + x
  {
    JoinSnoc(xs, x, sep);
  }

  /** Without overlap and with `min_size <= 1`, one step appends the
      sentence to the joined pending text. */
  lemma {:induction false} PendingStep(st: State, raw: String, chunkSize: int, overlap: int, minSize: int)
    requires Valid(st) && overlap <= 0 && minSize <= 1 && |Strip(raw)| > 0
    requires |st.current| == 0 ==> |st.chunks| == 0
    ensures var p := Join(Pending(st), ' ');
            Join(Pending(Step(st, raw, chunkSize, overlap, minSize)), ' ')
            == if |st.current| == 0 then Strip(raw) else p + [' '] + Strip(raw)
  {
    var s := Strip(raw);
    var r := Step(st, raw, chunkSize, overlap, minSize);
    if |st.current| == 0 {
      JoinsOpenChunk(st, raw, chunkSize, overlap, minSize);
      assert r.current == [s] && r.chunks == [];
      assert Pending(r) == [s];
    } else if st.size + |s| > chunkSize {
      ClosesOpenChunk(st, raw, chunkSize, overlap, minSize);
      OverflowPending(st, Join(st.current, ' '), minSize);
      PendingOverflow(st, r, s);
    } else {
      JoinsOpenChunk(st, raw, chunkSize, overlap, minSize);
      PendingAppend(st, r, s);
    }
  }

  lemma {:induction false} OverflowPending(st: State, closed: String, minSize: int)
    requires Valid(st) && |st.current| > 0 && minSize <= 1 && closed == Join(st.current, ' ')
    ensures |closed| >= minSize
  {
    JoinLength(st.current, ' ', 0);
  }

  lemma {:induction false} PendingOverflow(st: State, r: State, s: String)
    requires |st.current| > 0
    requires r.chunks == st.chunks + [Join(st.current, ' ')] && r.current == [s]
    ensures Join(Pending(r), ' ') == Join(Pending(st), ' ') + [' '] + s
  {
    var closed := Join(st.current, ' ');
    assert Pending(st) == st.chunks + [closed];
    assert Pending(r) == (st.chunks + [closed]) + [s];
    JoinSnocNonEmpty(st.chunks + [closed], s, ' ');
  }

  lemma {:induction false} PendingAppend(st: State, r: State, s: String)
    requires |st.current| > 0
    requires r.chunks == st.chunks && r.current == st.current + [s]
    ensures Join(Pending(r), ' ') == Join(Pending(st), ' ') + [' '] + s
  {
    var closed := Join(st.current, ' ');
    var grown := closed + [' '] + s;
    JoinSnocNonEmpty(st.current, s, ' ');
    assert Pending(st) == st.chunks + [closed];
    assert Pending(r) == st.chunks + [grown];
    JoinSnoc(st.chunks, closed, ' ');
    JoinSnoc(st.chunks, grown, ' ');
    if |st.chunks| > 0 {
      var before := Join(st.chunks, ' ');
      assert (before + [' '] + closed) + [' '] + s == before + [' '] + grown;
    }
  }

  /** Without overlap and with `min_size <= 1` nothing is dropped or
      repeated: the pending chunks, joined by spaces, are the non-blank
      sentences seen so far, joined by spaces. */
  lemma {:induction false} PendingJoin(ss: seq<String>, chunkSize: int, overlap: int, minSize: int)
    requires overlap <= 0 && minSize <= 1
    ensures Join(Pending(Assemble(ss, chunkSize, overlap, minSize)), ' ') == Join(NonBlank(ss), ' ')
  {
    if |ss| > 0 {
      var prefix := ss[..|ss| - 1];
      var st := Assemble(prefix, chunkSize, overlap, minSize);
      var s := Strip(ss[|ss| - 1]);
      PendingJoin(prefix, chunkSize, overlap, minSize);
      if |s| > 0 {
        var nb := NonBlank(prefix);
        assert NonBlank(ss) == nb + [s];
        PendingStep(st, ss[|ss| - 1], chunkSize, overlap, minSize);
        if |nb| == 0 {
          assert nb + [s] == [s];
        } else {
          JoinSnocNonEmpty(nb, s, ' ');
        }
      } else {
        assert NonBlank(ss) == NonBlank(prefix);
      }
    }
  }

  /** Round trip: with `overlap <= 0` and `min_size <= 1`, joining the
      chunks with spaces gives the non-blank stripped sentences joined with
      spaces. Sentences are never split, dropped or reordered. */
  lemma {:induction false} ChunksJoinToSentences(ss: seq<String>, chunkSize: int, overlap: int, minSize: int)
    requires overlap <= 0 && minSize <= 1
    ensures Join(BuildChunks(ss, chunkSize, overlap, minSize), ' ') == Join(NonBlank(ss), ' ')
  {
    var st := Assemble(ss, chunkSize, overlap, minSize);
    PendingJoin(ss, chunkSize, overlap, minSize);
    if |st.current| > 0 {
      JoinLength(st.current, ' ', 0);
    }
    assert BuildChunks(ss, chunkSize, overlap, minSize) == Pending(st);
  }

  /** Some chunk contains `s`. */
  predicate Covered(s: String, chunks: seq<String>)
  {
    exists k :: 0 <= k < |chunks| && IsInfix(s, chunks[k])
  }

  lemma {:induction false} CoveredExtend(s: String, chunks: seq<String>, extra: seq<String>)
    requires Covered(s, chunks)
    ensures Covered(s, chunks + extra)
  {
    var k :| 0 <= k < |chunks| && IsInfix(s, chunks[k]);
    assert (chunks + extra)[k] == chunks[k];
  }

  /** A piece of the open chunk of length at least `min_size` ends up in
      the chunk that closing produces, which is then kept. */
  lemma {:induction false} ClosedKeepsPiece(current: seq<String>, chunks: seq<String>, x: String, minSize: int)
    requires x in current && |x| >= minSize
    ensures |Join(current, ' ')| >= minSize
    ensures Covered(x, chunks + [Join(current, ' ')])
  {
    var k :| 0 <= k < |current| && current[k] == x;
    JoinContainsParts(current, ' ', k);
    InfixLength(x, Join(current, ' '));
    assert (chunks + [Join(current, ' ')])[|chunks|] == Join(current, ' ');
  }

  /** One step never loses a piece: what was in a chunk or in the open
      chunk still is. */
  lemma {:induction false} StepKeepsCovered(st: State, raw: String, chunkSize: int, overlap: int, minSize: int, x: String)
    requires Valid(st) && |x| >= minSize
    requires Covered(x, st.chunks) || x in st.current
    ensures var r := Step(st, raw, chunkSize, overlap, minSize);
            Covered(x, r.chunks) || x in r.current
  {
    var r := Step(st, raw, chunkSize, overlap, minSize);
    var s := Strip(raw);
    if |s| > 0 {
      if |st.current| > 0 && st.size + |s| > chunkSize {
        ClosesOpenChunk(st, raw, chunkSize, overlap, minSize);
        if x in st.current {
          ClosedKeepsPiece(st.current, st.chunks, x, minSize);
        } else {
          CoveredExtend(x, st.chunks, [Join(st.current, ' ')]);
          if r.chunks == st.chunks {
            assert Covered(x, r.chunks);
          }
        }
      } else {
        JoinsOpenChunk(st, raw, chunkSize, overlap, minSize);
        assert x in st.current ==> x in r.current;
      }
    }
  }

  /** After any prefix, every non-blank sentence of at least `min_size`
      characters is inside an emitted chunk or is a piece of the open
      chunk. */
  lemma {:induction false} AssembleCovers(ss: seq<String>, chunkSize: int, overlap: int, minSize: int)
    ensures var st := Assemble(ss, chunkSize, overlap, minSize);
            forall x :: x in NonBlank(ss) && |x| >= minSize ==> Covered(x, st.chunks) || x in st.current
  {
    if |ss| > 0 {
      var prefix := ss[..|ss| - 1];
      var st := Assemble(prefix, chunkSize, overlap, minSize);
      var r := Assemble(ss, chunkSize, overlap, minSize);
      var s := Strip(ss[|ss| - 1]);
      AssembleCovers(prefix, chunkSize, overlap, minSize);
      assert NonBlank(ss) == NonBlank(prefix) + (if |s| == 0 then [] else [s]);
      forall x | x in NonBlank(ss) && |x| >= minSize
        ensures Covered(x, r.chunks) || x in r.current
      {
        if x in NonBlank(prefix) {
          StepKeepsCovered(st, ss[|ss| - 1], chunkSize, overlap, minSize, x);
        } else {
          assert x == s && |s| > 0;
          assert r.current[|r.current| - 1] == s;
        }
      }
    }
  }

  lemma {:induction false} FlushKeepsCovered(st: State, minSize: int, x: String)
    requires |x| >= minSize
    requires Covered(x, st.chunks) || x in st.current
    ensures Covered(x, Flush(st, minSize))
  {
    if x in st.current {
      ClosedKeepsPiece(st.current, st.chunks, x, minSize);
    } else if |st.current| > 0 && |Join(st.current, ' ')| >= minSize {
      CoveredExtend(x, st.chunks, [Join(st.current, ' ')]);
    }
  }

  /** Sentences are never split: every non-blank stripped sentence of at
      least `min_size` characters occurs, whole, inside some chunk. */
  lemma {:induction false} EverySentenceKept(ss: seq<String>, chunkSize: int, overlap: int, minSize: int, x: String)
    requires x in NonBlank(ss) && |x| >= minSize
    ensures Covered(x, BuildChunks(ss, chunkSize, overlap, minSize))
  {
    AssembleCovers(ss, chunkSize, overlap, minSize);
    FlushKeepsCovered(Assemble(ss, chunkSize, overlap, minSize), minSize, x);
  }
}
