/** `_chunk_by_chars` of the document cleaner: fixed windows of
    `chunk_size` characters, each next window starting `overlap`
    characters before the previous one ended.

    As written the loop stops only when the next start is not positive or
    is past the end. When `0 < overlap < chunk_size` and the text is longer
    than `overlap`, the start reaches `len(text) - overlap` and stays there
    for ever. `CharsLoop` is the loop as written, run on a fuel budget;
    `ChunkByChars` is the same loop with the missing stop once a window
    reaches the end of the text, and is what the rest of the model uses. */
module CharChunks {

  import opened Wrappers
  import opened Seqs
  import opened Text

  /** One window's contribution: the stripped slice `text[start:end]`,
      kept when it has at least `min_size` characters. */
  function Piece(text: String, start: int, end: int, minSize: int): (r: seq<String>)
    ensures |r| <= 1
    ensures forall k :: 0 <= k < |r| ==> |r[k]| >= minSize && Stripped(r[k])
  {
    var chunk := Strip(PySlice(text, start, end));
    if |chunk| >= minSize then
      assert Stripped([chunk][0]);
      [chunk]
    else []
  }

  /** The windows `(start, end)` the source loop visits from `start`,
      allowed `fuel` more iterations; `None` when the fuel runs out before
      the loop ends. */
  function LoopWindows(n: nat, chunkSize: int, overlap: int, start: nat, fuel: nat): (r: Option<seq<(nat, int)>>)
    decreases fuel
  {
    if start >= n then Some([])
    else if fuel == 0 then None
    else
      var end := Min(start + chunkSize, n);
      var next := end - overlap;
      if next <= 0 then Some([(start, end)])
      else
        match LoopWindows(n, chunkSize, overlap, next, fuel - 1)
        case None => None
        case Some(rest) => Some([(start, end)] + rest)
  }

  /** `_chunk_by_chars` as written, on a fuel budget. */
  function CharsLoop(text: String, chunkSize: int, overlap: int, minSize: int, fuel: nat): (r: Option<seq<String>>)
    ensures r.Some? ==> r.value == ChunkByChars(text, chunkSize, overlap, minSize)
    ensures r.Some? ==> forall k :: 0 <= k < |r.value| ==> |r.value[k]| >= minSize && Stripped(r.value[k])
  {
    LoopSomeChunks(text, chunkSize, overlap, minSize, fuel);
    match LoopWindows(|text|, chunkSize, overlap, 0, fuel)
    case None => None
    case Some(ws) => Some(Pieces(text, ws, minSize))
  }

  lemma {:induction false} LoopSomeChunks(text: String, chunkSize: int, overlap: int, minSize: int, fuel: nat)
    ensures LoopWindows(|text|, chunkSize, overlap, 0, fuel).Some? ==>
              Pieces(text, LoopWindows(|text|, chunkSize, overlap, 0, fuel).value, minSize)
              == ChunkByChars(text, chunkSize, overlap, minSize)
  {
    if |text| > 0 {
      LoopSomeAgrees(|text|, chunkSize, overlap, 0, fuel);
    }
  }

  /** Whenever the source loop does end, it has visited exactly the windows
      of the corrected loop. */
  lemma {:induction false} LoopSomeAgrees(n: nat, chunkSize: int, overlap: int, start: nat, fuel: nat)
    requires start < n && (start == 0 || chunkSize > overlap)
    ensures LoopWindows(n, chunkSize, overlap, start, fuel).Some? ==>
              LoopWindows(n, chunkSize, overlap, start, fuel).value == WindowsFrom(n, chunkSize, overlap, start)
    decreases fuel
  {
    if fuel > 0 {
      var end := Min(start + chunkSize, n);
      var next := end - overlap;
      if next > 0 && next < n {
        if end >= n {
          LoopDiverges(n, chunkSize, overlap, next, fuel - 1);
        } else {
          LoopSomeAgrees(n, chunkSize, overlap, next, fuel - 1);
        }
      } else if next >= n {
        assert LoopWindows(n, chunkSize, overlap, next, fuel - 1) == Some([]);
        assert [(start, end)] + [] == [(start, end)];
      }
    }
  }

  /** The parameters for which the source loop ends. */
  predicate Terminates(textLength: nat, chunkSize: int, overlap: int)
  {
    overlap <= 0 || chunkSize <= overlap || textLength <= overlap
  }

  /** As written, with `0 < overlap < chunk_size` and a text longer than
      `overlap`, no amount of fuel is enough: every later start stays
      strictly inside the text. */
  lemma {:induction false} LoopDiverges(n: nat, chunkSize: int, overlap: int, start: nat, fuel: nat)
    requires !Terminates(n, chunkSize, overlap)
    requires start < n
    ensures LoopWindows(n, chunkSize, overlap, start, fuel) == None
    decreases fuel
  {
    if fuel > 0 {
      var end := Min(start + chunkSize, n);
      assert end - overlap > 0 && end - overlap < n;
      LoopDiverges(n, chunkSize, overlap, end - overlap, fuel - 1);
    }
  }

  lemma {:induction false} CharsLoopDiverges(text: String, chunkSize: int, overlap: int, minSize: int, fuel: nat)
    requires !Terminates(|text|, chunkSize, overlap)
    ensures CharsLoop(text, chunkSize, overlap, minSize, fuel) == None
  {
    LoopDiverges(|text|, chunkSize, overlap, 0, fuel);
  }

  /** A concrete instance: a 10-character text, windows of 5 overlapping by
      2. The starts are 0, 3, 6, 8, 8, 8, ... */
  lemma {:induction false} CharsLoopHangsOnExample(fuel: nat)
    ensures CharsLoop("abcdefghij", 5, 2, 1, fuel) == None
  {
    CharsLoopDiverges("abcdefghij", 5, 2, 1, fuel);
  }

  /** Every window starts inside the text and spans `chunk_size`
      characters, clipped to the text. */
  predicate Clipped(ws: seq<(nat, int)>, n: nat, chunkSize: int)
  {
    forall k :: 0 <= k < |ws| ==> ws[k].0 < n && ws[k].1 == Min(ws[k].0 + chunkSize, n)
  }

  /** Every window but the last ends before the end of the text, and the
      next one starts `overlap` characters before that end. */
  predicate Chained(ws: seq<(nat, int)>, n: nat, overlap: int)
  {
    forall i, j :: 0 <= i < |ws| && j == i + 1 && j < |ws| ==> ws[j].0 == ws[i].1 - overlap && ws[i].1 < n
  }

  /** Window `k` starts `WindowStart(k)` characters after `start`. */
  predicate Starts(ws: seq<(nat, int)>, chunkSize: int, overlap: int, start: nat)
  {
    forall k {:trigger ws[k]} :: 0 <= k < |ws| ==> ws[k].0 == start + WindowStart(chunkSize, overlap, k)
  }

  /** The windows of the corrected loop from `start`, as (start, end)
      pairs. The extra stop: once a window ends at the end of the text, no
      further window starts. */
  function WindowsFrom(n: nat, chunkSize: int, overlap: int, start: nat): (ws: seq<(nat, int)>)
    requires start < n
    requires start == 0 || chunkSize > overlap
    ensures |ws| >= 1 && ws[0] == (start, Min(start + chunkSize, n))
    decreases n - start
  {
    var end := Min(start + chunkSize, n);
    var next := end - overlap;
    if end >= n || next <= 0 || next >= n then
      [(start, end)]
    else
      [(start, end)] + WindowsFrom(n, chunkSize, overlap, next)
  }

  /** One step of the corrected loop. */
  lemma {:induction false} WindowsFromStep(n: nat, chunkSize: int, overlap: int, start: nat)
    requires start < n
    requires start == 0 || chunkSize > overlap
    ensures var end := Min(start + chunkSize, n);
            var next := end - overlap;
            && (end >= n || next <= 0 || next >= n ==> WindowsFrom(n, chunkSize, overlap, start) == [(start, end)])
            && (!(end >= n || next <= 0 || next >= n) ==>
                  next > 0 && chunkSize > overlap
                  && WindowsFrom(n, chunkSize, overlap, start) == [(start, end)] + WindowsFrom(n, chunkSize, overlap, next))
  {
  }

  /** The shape of the corrected loop's windows from `start`: they
      start inside the text and are clipped to it; each but the last ends
      before the end of the text and is followed by one starting `overlap`
      characters before that end; window `k` starts `WindowStart(k)`
      characters after the first; and with `0 <= overlap < chunk_size` the
      last one ends at the end of the text. */
  predicate Shaped(ws: seq<(nat, int)>, n: nat, chunkSize: int, overlap: int, start: nat)
  {
    && Clipped(ws, n, chunkSize) && Chained(ws, n, overlap) && Starts(ws, chunkSize, overlap, start)
    && |ws| >= 1 && (0 <= overlap < chunkSize ==> ws[|ws| - 1].1 == n)
  }

  lemma {:induction false} WindowsFromShape(n: nat, chunkSize: int, overlap: int, start: nat)
    requires start < n
    requires start == 0 || chunkSize > overlap
    ensures Shaped(WindowsFrom(n, chunkSize, overlap, start), n, chunkSize, overlap, start)
    decreases n - start
  {
    var end := Min(start + chunkSize, n);
    var next := end - overlap;
    WindowsFromStep(n, chunkSize, overlap, start);
    if end >= n || next <= 0 || next >= n {
      SingleShape(n, chunkSize, overlap, start);
    } else {
      WindowsFromShape(n, chunkSize, overlap, next);
      ShapeCons(n, chunkSize, overlap, start, WindowsFrom(n, chunkSize, overlap, next));
    }
  }

  /** The window list of a loop that stops after its first window. */
  lemma {:induction false} SingleShape(n: nat, chunkSize: int, overlap: int, start: nat)
    requires start < n
    requires start == 0 || chunkSize > overlap
    requires var end := Min(start + chunkSize, n); end >= n || end - overlap <= 0 || end - overlap >= n
    ensures Shaped([(start, Min(start + chunkSize, n))], n, chunkSize, overlap, start)
  {
    var ws := [(start, Min(start + chunkSize, n))];
    assert ws[0].0 == start + WindowStart(chunkSize, overlap, 0);
  }

  /** Prepending the window at `start` to the windows from the next start
      keeps the shape. */
  lemma {:induction false} ShapeCons(n: nat, chunkSize: int, overlap: int, start: nat, rest: seq<(nat, int)>)
    requires start < n && chunkSize > overlap
    requires Min(start + chunkSize, n) < n
    requires Shaped(rest, n, chunkSize, overlap, Min(start + chunkSize, n) - overlap)
    requires rest[0].0 == Min(start + chunkSize, n) - overlap
    ensures Shaped([(start, Min(start + chunkSize, n))] + rest, n, chunkSize, overlap, start)
  {
    var w := (start, Min(start + chunkSize, n));
    var ws := [w] + rest;
    ClippedCons(n, chunkSize, w, rest);
    ChainedCons(n, overlap, w, rest);
    StartsCons(chunkSize, overlap, w, rest);
    assert ws[|ws| - 1] == rest[|rest| - 1];
  }

  lemma {:induction false} ClippedCons(n: nat, chunkSize: int, w: (nat, int), rest: seq<(nat, int)>)
    requires w.0 < n && w.1 == Min(w.0 + chunkSize, n) && Clipped(rest, n, chunkSize)
    ensures Clipped([w] + rest, n, chunkSize)
  {
    var ws := [w] + rest;
    forall k | 0 < k < |ws|
      ensures ws[k].0 < n && ws[k].1 == Min(ws[k].0 + chunkSize, n)
    {
      assert ws[k] == rest[k - 1];
    }
  }

  lemma {:induction false} ChainedCons(n: nat, overlap: int, w: (nat, int), rest: seq<(nat, int)>)
    requires |rest| >= 1 && w.1 < n && rest[0].0 == w.1 - overlap && Chained(rest, n, overlap)
    ensures Chained([w] + rest, n, overlap)
  {
    var ws := [w] + rest;
    forall i, j | 0 < i < |ws| && j == i + 1 && j < |ws|
      ensures ws[j].0 == ws[i].1 - overlap && ws[i].1 < n
    {
      assert ws[i] == rest[i - 1] && ws[j] == rest[j - 1];
    }
  }

  lemma {:induction false} StartsCons(chunkSize: int, overlap: int, w: (nat, int), rest: seq<(nat, int)>)
    requires |rest| >= 1 && rest[0].0 == w.0 + chunkSize - overlap && Starts(rest, chunkSize, overlap, rest[0].0)
    ensures Starts([w] + rest, chunkSize, overlap, w.0)
  {
    var ws := [w] + rest;
    forall k | 0 < k < |ws|
      ensures ws[k].0 == w.0 + WindowStart(chunkSize, overlap, k)
    {
      assert ws[k] == rest[k - 1];
      assert WindowStart(chunkSize, overlap, k) == WindowStart(chunkSize, overlap, k - 1) + (chunkSize - overlap);
    }
  }

  /** The stripped windows that are long enough. */
  function Pieces(text: String, ws: seq<(nat, int)>, minSize: int): (r: seq<String>)
    ensures forall k :: 0 <= k < |r| ==> |r[k]| >= minSize && Stripped(r[k])
    ensures |r| <= |ws|
  {
    if |ws| == 0 then [] else Piece(text, ws[0].0, ws[0].1, minSize) + Pieces(text, ws[1..], minSize)
  }

  /** The chunk list is the window-by-window concatenation of each
      window's contribution, in window order. */
  lemma {:induction false} PiecesInWindowOrder(text: String, ws: seq<(nat, int)>, minSize: int)
    ensures Pieces(text, ws, minSize) == Flatten(seq(|ws|, k requires 0 <= k < |ws| => Piece(text, ws[k].0, ws[k].1, minSize)))
    decreases |ws|
  {
    var per := seq(|ws|, k requires 0 <= k < |ws| => Piece(text, ws[k].0, ws[k].1, minSize));
    if |ws| > 0 {
      PiecesInWindowOrder(text, ws[1..], minSize);
      assert per[1..] == seq(|ws[1..]|, k requires 0 <= k < |ws[1..]| => Piece(text, ws[1..][k].0, ws[1..][k].1, minSize));
    }
  }

  /** The start of window `k`, measured from the first window:
      `k * (chunk_size - overlap)` (`WindowStartIsProduct`). */
  function WindowStart(chunkSize: int, overlap: int, j: nat): (s: int)
    ensures j == 0 ==> s == 0
    ensures chunkSize > overlap ==> s >= j
  {
    if j == 0 then 0 else WindowStart(chunkSize, overlap, j - 1) + (chunkSize - overlap)
  }

  lemma {:induction false} WindowStartIsProduct(chunkSize: int, overlap: int, j: nat)
    ensures WindowStart(chunkSize, overlap, j) == j * (chunkSize - overlap)
  {
    if j > 0 {
      WindowStartIsProduct(chunkSize, overlap, j - 1);
      assert j * (chunkSize - overlap) == (j - 1) * (chunkSize - overlap) + (chunkSize - overlap);
    }
  }

  /** `_chunk_by_chars` with the stop once a window reaches the end of
      the text. The chunks are the stripped slices `text[j*step : j*step +
      chunk_size]` (with `step = chunk_size - overlap`) of the windows in
      order, each kept when it has at least `min_size` characters; every
      chunk has at most `chunk_size` characters. */
  function ChunkByChars(text: String, chunkSize: int, overlap: int, minSize: int): (chunks: seq<String>)
    ensures |text| == 0 ==> chunks == []
    ensures |text| > 0 ==> chunks == Pieces(text, WindowsFrom(|text|, chunkSize, overlap, 0), minSize)
    ensures forall k :: 0 <= k < |chunks| ==> |chunks[k]| >= minSize && Stripped(chunks[k])
    ensures chunkSize > 0 ==> forall k :: 0 <= k < |chunks| ==> |chunks[k]| <= chunkSize
  {
    if |text| == 0 then []
    else
      var ws := WindowsFrom(|text|, chunkSize, overlap, 0);
      WindowsFromShape(|text|, chunkSize, overlap, 0);
      WindowPiecesShort(text, ws, chunkSize, minSize);
      Pieces(text, ws, minSize)
  }

  /** `w` is window `k` of a text of `n` characters: it starts at
      `WindowStart(k)` and ends `chunk_size` later, clipped to the text. */
  predicate IsWindow(n: nat, chunkSize: int, overlap: int, k: nat, w: (nat, int))
  {
    w.0 == WindowStart(chunkSize, overlap, k) && w.1 == Min(w.0 + chunkSize, n)
  }

  /** The windows of `_chunk_by_chars` in closed form: window `k` is
      `[k*step, k*step + chunk_size)` clipped to the text, with `step =
      chunk_size - overlap`; every window but the last ends before the end
      of the text, and the last one ends exactly there when `0 <= overlap <
      chunk_size`. */
  lemma {:induction false} CharWindowsClosedForm(n: nat, chunkSize: int, overlap: int)
    requires n > 0
    ensures var ws := WindowsFrom(n, chunkSize, overlap, 0);
            forall k :: 0 <= k < |ws| ==> IsWindow(n, chunkSize, overlap, k, ws[k])
    ensures Chained(WindowsFrom(n, chunkSize, overlap, 0), n, overlap)
    ensures var ws := WindowsFrom(n, chunkSize, overlap, 0);
            0 <= overlap < chunkSize ==> ws[|ws| - 1].1 == n
  {
    var ws := WindowsFrom(n, chunkSize, overlap, 0);
    WindowsFromShape(n, chunkSize, overlap, 0);
    forall k | 0 <= k < |ws|
      ensures IsWindow(n, chunkSize, overlap, k, ws[k])
    {
      assert ws[k].0 == WindowStart(chunkSize, overlap, k);
    }
  }

  /** The chunks are the windows' contributions in window order. */
  lemma {:induction false} ChunkByCharsWindows(text: String, chunkSize: int, overlap: int, minSize: int)
    requires |text| > 0
    ensures var ws := WindowsFrom(|text|, chunkSize, overlap, 0);
            ChunkByChars(text, chunkSize, overlap, minSize)
            == Flatten(seq(|ws|, k requires 0 <= k < |ws| => Piece(text, ws[k].0, ws[k].1, minSize)))
  {
    PiecesInWindowOrder(text, WindowsFrom(|text|, chunkSize, overlap, 0), minSize);
  }

  lemma {:induction false} WindowPiecesShort(text: String, ws: seq<(nat, int)>, chunkSize: int, minSize: int)
    requires Clipped(ws, |text|, chunkSize)
    ensures chunkSize > 0 ==>
              forall k :: 0 <= k < |Pieces(text, ws, minSize)| ==> |Pieces(text, ws, minSize)[k]| <= chunkSize
    decreases |ws|
  {
    if |ws| > 0 && chunkSize > 0 {
      WindowPiecesShort(text, ws[1..], chunkSize, minSize);
      PieceShort(text, ws[0].0, ws[0].1, chunkSize, minSize);
    }
  }

  lemma {:induction false} PieceShort(text: String, start: nat, end: int, chunkSize: int, minSize: int)
    requires chunkSize > 0 && start <= end <= start + chunkSize
    ensures forall k :: 0 <= k < |Piece(text, start, end, minSize)| ==> |Piece(text, start, end, minSize)[k]| <= chunkSize
  {
    var slice := PySlice(text, start, end);
    assert |slice| <= chunkSize;
  }

  /** Wherever the source loop ends, the corrected loop visits the same
      windows. */
  lemma {:induction false} LoopAgrees(n: nat, chunkSize: int, overlap: int, start: nat, fuel: nat)
    requires Terminates(n, chunkSize, overlap)
    requires start < n && (start == 0 || chunkSize > overlap)
    requires fuel >= n - start
    ensures LoopWindows(n, chunkSize, overlap, start, fuel) == Some(WindowsFrom(n, chunkSize, overlap, start))
    decreases n - start
  {
    var end := Min(start + chunkSize, n);
    var next := end - overlap;
    if next > 0 && next < n && end < n {
      LoopAgrees(n, chunkSize, overlap, next, fuel - 1);
    } else if next >= n {
      assert LoopWindows(n, chunkSize, overlap, next, fuel - 1) == Some([]);
      assert [(start, end)] + [] == [(start, end)];
    }
  }

  /** With the parameters for which the source terminates, the source and
      the corrected function return the same chunks; `len(text)`
      iterations are always enough. */
  lemma {:induction false} CharsLoopAgreesWhenSafe(text: String, chunkSize: int, overlap: int, minSize: int)
    requires Terminates(|text|, chunkSize, overlap)
    ensures CharsLoop(text, chunkSize, overlap, minSize, |text|) == Some(ChunkByChars(text, chunkSize, overlap, minSize))
  {
    if |text| > 0 {
      LoopAgrees(|text|, chunkSize, overlap, 0, |text|);
    }
  }
}
