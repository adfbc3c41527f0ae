/** `AzureOpenAIEmbedding`: the input sanitiser, the `embed` retry loop
    driven by a scripted remote, and `embed_batch`'s sub-batching, request
    window and zero-vector degradation. The HTTP endpoint is a function from
    (post number, payload) to the reply that post receives; the wall clock
    is a function from the number of clock reads so far to the time read;
    sleeps are recorded, not performed. */
module Embedding {

  import opened Wrappers
  import opened Seqs
  import opened Text
  import opened Batching

  // ---------------------------------------------------------------------
  // validate_and_clean_text
  // ---------------------------------------------------------------------

  const MaxChars := 30000
  const EmptyPlaceholder: String := "empty"

  /** The class `[\x00-\x08\x0b-\x0c\x0e-\x1f\x7f]`: control characters
      other than tab, line feed and carriage return. */
  predicate IsControl(c: char)
  {
    c <= '\U{8}' || c == '\U{B}' || c == '\U{C}' || ('\U{E}' <= c <= '\U{1F}') || c == '\U{7F}'
  }

  predicate NoControl(s: String)
  {
    forall i :: 0 <= i < |s| ==> !IsControl(s[i])
  }

  /** `re.sub` of the control class with the empty string. */
  function RemoveControls(s: String): (r: String)
    ensures NoControl(r) && |r| <= |s|
    ensures NoControl(s) ==> r == s
    decreases |s|
  {
    if |s| == 0 then []
    else
      var rest := RemoveControls(s[1..]);
      if IsControl(s[0]) then rest
      else
        assert NoControl(s) ==> NoControl(s[1..]) && s == [s[0]] + s[1..];
        [s[0]] + rest
  }

  /** `strip()` keeps a text free of control characters. */
  lemma {:induction false} StripNoControl(u: String)
    requires NoControl(u)
    ensures NoControl(Strip(u))
  {
    var v := Strip(u);
    assert forall i :: 0 <= i < |v| ==> v[i] == u[StripStart(u) + i];
  }

  /** `validate_and_clean_text`: blank input becomes `"empty"`; otherwise
      control characters are removed, the text is cut to 30000 characters
      and stripped, and a result that ends up empty becomes `"empty"`. The
      result is never empty, holds no control character, fits in 30000
      characters and is stripped. */
  function ValidateAndClean(text: String): (r: String)
    ensures |r| > 0 && NoControl(r) && |r| <= MaxChars && Stripped(r)
    ensures AllSpace(text) ==> r == EmptyPlaceholder
  {
    if |text| == 0 || AllSpace(text) then EmptyPlaceholder
    else
      var t := RemoveControls(text);
      var u := if |t| > MaxChars then t[..MaxChars] else t;
      StripNoControl(u);
      var v := Strip(u);
      if |v| == 0 then EmptyPlaceholder else v
  }

  /** Text already in the form the sanitiser produces passes through it
      unchanged. */
  lemma {:induction false} ValidateAndCleanFixedPoint(text: String)
    requires |text| > 0 && NoControl(text) && |text| <= MaxChars && Stripped(text)
    ensures ValidateAndClean(text) == text
  {
    assert !IsSpace(text[0]);
    StripStripped(text);
  }

  /** Cleaning is idempotent. */
  lemma {:induction false} ValidateAndCleanIdempotent(text: String)
    ensures ValidateAndClean(ValidateAndClean(text)) == ValidateAndClean(text)
  {
    ValidateAndCleanFixedPoint(ValidateAndClean(text));
  }

  // ---------------------------------------------------------------------
  // embed
  // ---------------------------------------------------------------------

  type Vector = seq<real>

  /** The `Retry-After` header of a 429 reply: absent (the default of 10
      seconds applies), an integer, or text `int()` rejects. */
  datatype RetryAfter = DefaultWait | Seconds(n: int) | Unparsable(message: String)

  /** What one POST amounts to. `HttpError` is a status of 400 or more other
      than 429, whose exception text (`"<status> Client Error: ..."`) is
      `message`; `Raised` is any other exception on the way to the vectors
      (connection failure, timeout, undecodable body, missing key). */
  datatype Reply =
    | Throttled(retryAfter: RetryAfter)
    | HttpError(message: String)
    | Raised(message: String)
    | Embedded(vectors: seq<Vector>)

  /** The endpoint: the reply to the post with the given number and payload. */
  type Remote = (nat, seq<String>) -> Reply

  datatype EmbedRun = EmbedRun(outcome: Result<seq<Vector>, String>, posts: nat, sleeps: seq<real>)

  const DefaultRetryAfter := 10
  const NegativeSleepMessage: String := "sleep length must be non-negative"
  const MaxRetriesMessage: String := "Max retries exceeded"

  function Pow2(n: nat): nat
  {
    if n == 0 then 1 else 2 * Pow2(n - 1)
  }

  /** One more post in front of a run, with the sleeps it caused. */
  function Then(pause: seq<real>, run: EmbedRun): (r: EmbedRun)
  {
    EmbedRun(run.outcome, run.posts + 1, pause + run.sleeps)
  }

  /** The vectors a successful reply hands back: the first one alone for a
      single text, all of them for a list. */
  predicate Answers(reply: Reply, single: bool, vs: seq<Vector>)
  {
    && reply.Embedded?
    && (if single then |reply.vectors| > 0 && vs == [reply.vectors[0]] else vs == reply.vectors)
  }

  predicate Succeeds(reply: Reply, single: bool)
  {
    reply.Embedded? && (single ==> |reply.vectors| > 0)
  }

  /** The loop of `embed` from attempt `attempt` on, the next post being
      number `post`. A 429 sleeps `Retry-After` seconds and uses up the
      attempt; an HTTP error retries at once and is re-raised on the last
      attempt; any other exception sleeps `2 ** attempt` seconds, or is
      re-raised on the last attempt; running out of attempts raises
      "Max retries exceeded". */
  function Attempts(remote: Remote, payload: seq<String>, single: bool, maxRetries: int, attempt: nat, post: nat): (run: EmbedRun)
    ensures attempt < maxRetries ==> 1 <= run.posts <= maxRetries - attempt
    ensures attempt >= maxRetries ==> run == EmbedRun(Failure(MaxRetriesMessage), 0, [])
    ensures |run.sleeps| <= run.posts
    ensures run.outcome.Success? ==>
              run.posts >= 1 && Answers(remote(post + run.posts - 1, payload), single, run.outcome.value)
    ensures forall p :: post <= p < post + run.posts - 1 ==> !Succeeds(remote(p, payload), single)
    decreases maxRetries - attempt
  {
    if attempt >= maxRetries then EmbedRun(Failure(MaxRetriesMessage), 0, [])
    else
      var rest := Attempts(remote, payload, single, maxRetries, attempt + 1, post + 1);
      match remote(post, payload)
      case Throttled(DefaultWait) => Then([DefaultRetryAfter as real], rest)
      case Throttled(Seconds(n)) => if n >= 0 then Then([n as real], rest) else Raise(NegativeSleepMessage, attempt, maxRetries, rest)
      case Throttled(Unparsable(m)) => Raise(m, attempt, maxRetries, rest)
      case HttpError(m) => if attempt == maxRetries - 1 then EmbedRun(Failure(m), 1, []) else Then([], rest)
      case Raised(m) => Raise(m, attempt, maxRetries, rest)
      case Embedded(vs) =>
        if single && |vs| == 0 then Raise(IndexErrorMessage, attempt, maxRetries, rest)
        else EmbedRun(Success(if single then [vs[0]] else vs), 1, [])
  }

  /** The generic `except Exception` branch: re-raised on the last attempt,
      otherwise a `2 ** attempt` second back-off before the next one. */
  function Raise(m: String, attempt: nat, maxRetries: int, rest: EmbedRun): (r: EmbedRun)
    ensures attempt == maxRetries - 1 ==> r == EmbedRun(Failure(m), 1, [])
    ensures attempt != maxRetries - 1 ==> r.outcome == rest.outcome && r.posts == rest.posts + 1
  {
    if attempt == maxRetries - 1 then EmbedRun(Failure(m), 1, [])
    else Then([Pow2(attempt) as real], rest)
  }

  /** The first reply within the budget that carries vectors ends the loop
      with those vectors. */
  lemma {:induction false} FirstSuccessWins(remote: Remote, payload: seq<String>, single: bool, maxRetries: int, attempt: nat, post: nat, j: nat)
    requires attempt + j < maxRetries
    requires Succeeds(remote(post + j, payload), single)
    requires forall p :: post <= p < post + j ==> !Succeeds(remote(p, payload), single)
    ensures Attempts(remote, payload, single, maxRetries, attempt, post).outcome.Success?
    ensures Attempts(remote, payload, single, maxRetries, attempt, post).posts == j + 1
    decreases j
  {
    if j > 0 {
      assert !Succeeds(remote(post, payload), single);
      PassesOn(remote, payload, single, maxRetries, attempt, post);
      FirstSuccessWins(remote, payload, single, maxRetries, attempt + 1, post + 1, j - 1);
    }
  }

  /** Before the last attempt, a reply without vectors hands the outcome
      on to the next attempt, one post later. */
  lemma {:induction false} PassesOn(remote: Remote, payload: seq<String>, single: bool, maxRetries: int, attempt: nat, post: nat)
    requires attempt + 1 < maxRetries
    requires !Succeeds(remote(post, payload), single)
    ensures var run := Attempts(remote, payload, single, maxRetries, attempt, post);
            var rest := Attempts(remote, payload, single, maxRetries, attempt + 1, post + 1);
            run.outcome == rest.outcome && run.posts == rest.posts + 1
  {
  }

  /** Nothing but 429s without a `Retry-After` header: every attempt posts,
      sleeps the default 10 seconds, and the loop ends in
      "Max retries exceeded". */
  lemma {:induction false} AllThrottledExhausts(remote: Remote, payload: seq<String>, single: bool, maxRetries: int, attempt: nat, post: nat)
    requires attempt <= maxRetries
    requires forall p :: post <= p < post + (maxRetries - attempt) ==> remote(p, payload) == Throttled(DefaultWait)
    ensures var run := Attempts(remote, payload, single, maxRetries, attempt, post);
            && run.outcome == Failure(MaxRetriesMessage)
            && run.posts == maxRetries - attempt
            && run.sleeps == seq(maxRetries - attempt, i => DefaultRetryAfter as real)
    decreases maxRetries - attempt
  {
    if attempt < maxRetries {
      assert remote(post, payload) == Throttled(DefaultWait);
      AllThrottledExhausts(remote, payload, single, maxRetries, attempt + 1, post + 1);
    }
  }

  /** Nothing but exceptions: the k-th sleep lasts `2 ** (attempt + k)`
      seconds, there is no sleep after the last attempt, and the last
      exception propagates. */
  lemma {:induction false} RaisedBackoff(remote: Remote, payload: seq<String>, single: bool, maxRetries: int, attempt: nat, post: nat)
    requires attempt < maxRetries
    requires forall p :: post <= p < post + (maxRetries - attempt) ==> remote(p, payload).Raised?
    ensures var run := Attempts(remote, payload, single, maxRetries, attempt, post);
            && run.outcome == Failure(remote(post + maxRetries - attempt - 1, payload).message)
            && run.posts == maxRetries - attempt
            && |run.sleeps| == maxRetries - attempt - 1
            && forall k :: 0 <= k < |run.sleeps| ==> run.sleeps[k] == Pow2(attempt + k) as real
    decreases maxRetries - attempt
  {
    assert remote(post, payload).Raised?;
    if attempt < maxRetries - 1 {
      RaisedBackoff(remote, payload, single, maxRetries, attempt + 1, post + 1);
    }
  }

  /** Nothing but HTTP errors other than 429: no sleep at all, and the last
      error is re-raised. */
  lemma {:induction false} HttpErrorsNoSleep(remote: Remote, payload: seq<String>, single: bool, maxRetries: int, attempt: nat, post: nat)
    requires attempt < maxRetries
    requires forall p :: post <= p < post + (maxRetries - attempt) ==> remote(p, payload).HttpError?
    ensures var run := Attempts(remote, payload, single, maxRetries, attempt, post);
            && run.outcome == Failure(remote(post + maxRetries - attempt - 1, payload).message)
            && run.posts == maxRetries - attempt
            && run.sleeps == []
    decreases maxRetries - attempt
  {
    assert remote(post, payload).HttpError?;
    if attempt < maxRetries - 1 {
      HttpErrorsNoSleep(remote, payload, single, maxRetries, attempt + 1, post + 1);
    }
  }

  /** The payload `embed` posts: every text through the sanitiser. */
  function Payload(texts: seq<String>): (p: seq<String>)
    ensures |p| == |texts|
    ensures forall i :: 0 <= i < |p| ==> p[i] == ValidateAndClean(texts[i])
  {
    seq(|texts|, i requires 0 <= i < |texts| => ValidateAndClean(texts[i]))
  }

  /** `embed(texts)` for a list, the first post being number `post`. */
  function Embed(remote: Remote, texts: seq<String>, maxRetries: int, post: nat): EmbedRun
  {
    Attempts(remote, Payload(texts), false, maxRetries, 0, post)
  }

  /** `embed(text)` for a single string. */
  function EmbedOne(remote: Remote, text: String, maxRetries: int, post: nat): EmbedRun
  {
    Attempts(remote, Payload([text]), true, maxRetries, 0, post)
  }

  // ---------------------------------------------------------------------
  // embed_batch
  // ---------------------------------------------------------------------

  const Dimensions := 3072
  const ZeroVector: Vector := Zeros(Dimensions)

  /** `[0.0] * n`. */
  function Zeros(n: nat): (v: Vector)
    ensures |v| == n && forall i :: 0 <= i < n ==> v[i] == 0.0
  {
    seq(n, i => 0.0)
  }
  const WindowRequests := 50
  const WindowSeconds: real := 60.0
  const WindowMargin: real := 5.0
  const PauseAfterSuccess: real := 2.0
  const PauseAfterThrottle: real := 30.0
  const PauseAfterSingle: real := 1.0
  const RangeZeroMessage: String := "range() arg 3 must not be zero"

  /** Every reply carrying vectors carries one per text posted. */
  ghost predicate WellFormed(remote: Remote)
  {
    forall k: nat, p: seq<String> :: remote(k, p).Embedded? ==> |remote(k, p).vectors| == |p|
  }

  /** The error text, lower-cased, mentions a rate limit. */
  predicate RateLimited(message: String)
  {
    IsInfix("rate limit", Lower(message)) || IsInfix("429", Lower(message))
  }

  /** The error text, lower-cased, points at a bad input. */
  predicate BadRequest(message: String)
  {
    IsInfix("400", Lower(message)) || IsInfix("model_error", Lower(message))
  }

  /** How the request window reacts once 50 requests have been counted:
      `AsWritten` resets only after a pause; `WindowAlwaysResets` also
      starts a new window when the old one is already over. */
  datatype GatePolicy = AsWritten | WindowAlwaysResets

  /** The request window: first-try successes counted since `start`, and
      the number of clock reads made so far. */
  datatype Window = Window(count: nat, start: real, clockReads: nat)

  datatype GateResult = GateResult(window: Window, pause: seq<real>)

  /** The check at the top of each sub-batch. With 50 or more requests in
      the window and less than 60 seconds gone, it sleeps out the rest of
      the minute plus 5 seconds and opens a new window, whose start is the
      clock reading taken right after the sleep (the one after the reading
      that measured the elapsed time). A full window that is already over
      is left as it is when written as the source has it, and is replaced
      by a window starting at the reading that measured it under the
      corrected policy. */
  function Gate(policy: GatePolicy, w: Window, clock: nat -> real): (g: GateResult)
    ensures w.count < WindowRequests ==> g == GateResult(w, [])
    ensures |g.pause| <= 1 && forall k :: 0 <= k < |g.pause| ==> g.pause[k] > WindowMargin
    ensures |g.pause| == 1 ==> g.window.count == 0
    ensures w.count >= WindowRequests && clock(w.clockReads) - w.start < WindowSeconds ==>
              && g.pause == [WindowSeconds - (clock(w.clockReads) - w.start) + WindowMargin]
              && g.window == Window(0, clock(w.clockReads + 1), w.clockReads + 2)
    ensures w.count >= WindowRequests && clock(w.clockReads) - w.start >= WindowSeconds ==>
              && g.pause == []
              && (policy == AsWritten ==> g.window == w.(clockReads := w.clockReads + 1))
              && (policy == WindowAlwaysResets ==> g.window == Window(0, clock(w.clockReads), w.clockReads + 1))
    ensures policy == WindowAlwaysResets ==> g.window.count < WindowRequests
    ensures g.window.clockReads >= w.clockReads
  {
    if w.count < WindowRequests then GateResult(w, [])
    else
      var elapsed := clock(w.clockReads) - w.start;
      if elapsed < WindowSeconds then
        GateResult(Window(0, clock(w.clockReads + 1), w.clockReads + 2), [WindowSeconds - elapsed + WindowMargin])
      else if policy == AsWritten then
        GateResult(Window(w.count, w.start, w.clockReads + 1), [])
      else
        GateResult(Window(0, clock(w.clockReads), w.clockReads + 1), [])
  }

  /** `v` is a vector the endpoint handed back at the position where it
      was sent the cleaned `text`. */
  ghost predicate VectorFor(remote: Remote, text: String, v: Vector)
  {
    exists p: nat, payload: seq<String>, j: nat ::
      && j < |payload| && payload[j] == ValidateAndClean(text)
      && remote(p, payload).Embedded? && j < |remote(p, payload).vectors|
      && remote(p, payload).vectors[j] == v
  }

  /** Output slot i belongs to text i: it holds either a vector the
      endpoint returned for that text or the zero vector. */
  ghost predicate Slotted(remote: Remote, texts: seq<String>, out: seq<Vector>)
  {
    |out| == |texts| && forall i :: 0 <= i < |texts| ==> out[i] == ZeroVector || VectorFor(remote, texts[i], out[i])
  }

  lemma {:induction false} SlottedAppend(remote: Remote, a: seq<String>, x: seq<Vector>, b: seq<String>, y: seq<Vector>)
    requires Slotted(remote, a, x) && Slotted(remote, b, y)
    ensures Slotted(remote, a + b, x + y)
  {
    forall i | 0 <= i < |a + b|
      ensures (x + y)[i] == ZeroVector || VectorFor(remote, (a + b)[i], (x + y)[i])
    {
      if i >= |a| {
        assert (x + y)[i] == y[i - |a|] && (a + b)[i] == b[i - |a|];
      } else {
        assert (x + y)[i] == x[i] && (a + b)[i] == a[i];
      }
    }
  }

  /** No post of `text` on its own ever comes back with a vector. */
  ghost predicate NeverAnswered(remote: Remote, text: String)
  {
    forall p: nat :: !Succeeds(remote(p, Payload([text])), true)
  }

  /** Every post of `text` on its own comes back with a vector. */
  ghost predicate AlwaysAnswered(remote: Remote, text: String)
  {
    forall p: nat :: Succeeds(remote(p, Payload([text])), true)
  }

  /** A single `embed(text)` that returns hands back one vector the
      endpoint sent for that text; one that never gets an answer fails. */
  lemma {:induction false} EmbedOneAnswers(remote: Remote, text: String, maxRetries: int, post: nat)
    ensures var run := EmbedOne(remote, text, maxRetries, post);
            && (run.outcome.Success? ==> |run.outcome.value| == 1 && VectorFor(remote, text, run.outcome.value[0]))
            && (NeverAnswered(remote, text) ==> run.outcome.Failure?)
            && (maxRetries > 0 && AlwaysAnswered(remote, text) ==> run.outcome.Success?)
  {
    var payload := Payload([text]);
    var run := Attempts(remote, payload, true, maxRetries, 0, post);
    assert EmbedOne(remote, text, maxRetries, post) == run;
    if run.outcome.Success? {
      var p := post + run.posts - 1;
      var reply := remote(p, payload);
      assert Answers(reply, true, run.outcome.value);
      assert Succeeds(reply, true);
      assert payload[0] == ValidateAndClean(text);
      assert reply.vectors[0] == run.outcome.value[0];
      assert VectorFor(remote, text, run.outcome.value[0]);
    }
    if maxRetries > 0 && AlwaysAnswered(remote, text) {
      assert Succeeds(remote(post + 0, payload), true);
      FirstSuccessWins(remote, payload, true, maxRetries, 0, post, 0);
    }
  }

  /** The state `embed_batch` carries from one sub-batch to the next. */
  datatype BatchState = BatchState(out: seq<Vector>, failed: nat, window: Window, post: nat, sleeps: seq<real>)

  /** One text of the fallback: `embed(text)` on its own; a success
      appends its vector and pauses 1 second, a failure appends the zero
      vector and counts one failure. */
  function SingleText(remote: Remote, maxRetries: int, text: String, st: BatchState): (r: BatchState)
    ensures |r.out| == |st.out| + 1 && r.out[..|st.out|] == st.out && r.window == st.window
    ensures r.out[|st.out|] == ZeroVector || VectorFor(remote, text, r.out[|st.out|])
    ensures r.failed == st.failed || r.failed == st.failed + 1
    ensures NeverAnswered(remote, text) ==> r.out[|st.out|] == ZeroVector && r.failed == st.failed + 1
    ensures maxRetries > 0 && AlwaysAnswered(remote, text) ==> r.failed == st.failed
  {
    var run := EmbedOne(remote, text, maxRetries, st.post);
    EmbedOneAnswers(remote, text, maxRetries, st.post);
    if run.outcome.Success? && |run.outcome.value| > 0 then
      BatchState(st.out + [run.outcome.value[0]], st.failed, st.window, st.post + run.posts, st.sleeps + run.sleeps + [PauseAfterSingle])
    else
      BatchState(st.out + [ZeroVector], st.failed + 1, st.window, st.post + run.posts, st.sleeps + run.sleeps)
  }

  /** The one-text-at-a-time fallback from text `j` of the batch on. Every
      text gets exactly one slot, holding a vector the endpoint returned for
      that very text or the zero vector. */
  function Singles(remote: Remote, maxRetries: int, batch: seq<String>, j: nat, st: BatchState): (r: BatchState)
    requires j <= |batch|
    ensures |r.out| == |st.out| + (|batch| - j) && r.out[..|st.out|] == st.out
    ensures Slotted(remote, batch[j..], r.out[|st.out|..])
    ensures st.failed <= r.failed <= st.failed + (|batch| - j)
    ensures r.window == st.window
    decreases |batch| - j
  {
    if j == |batch| then
      assert st.out[|st.out|..] == [];
      st
    else
      var next := SingleText(remote, maxRetries, batch[j], st);
      var r := Singles(remote, maxRetries, batch, j + 1, next);
      assert r.out[..|st.out|] == r.out[..|next.out|][..|st.out|];
      SinglesStep(remote, batch, j, st.out, next.out, r.out);
      r
  }

  /** The bookkeeping step of `Singles`: one slot for text `j` in front of
      the slots of the texts after it. */
  lemma {:induction false} SinglesStep(remote: Remote, batch: seq<String>, j: nat, before: seq<Vector>, mid: seq<Vector>, after: seq<Vector>)
    requires j < |batch| && |mid| == |before| + 1 && mid[..|before|] == before
    requires mid[|before|] == ZeroVector || VectorFor(remote, batch[j], mid[|before|])
    requires |after| >= |mid| && after[..|mid|] == mid
    requires Slotted(remote, batch[j + 1..], after[|mid|..])
    ensures Slotted(remote, batch[j..], after[|before|..])
  {
    assert Slotted(remote, [batch[j]], [mid[|before|]]);
    SlottedAppend(remote, [batch[j]], [mid[|before|]], batch[j + 1..], after[|mid|..]);
    assert [batch[j]] + batch[j + 1..] == batch[j..];
    assert after[|before|..] == [mid[|before|]] + after[|mid|..];
  }

  /** A text-by-text fallback in which no text is ever answered zero-fills
      every slot and counts every text as a failure. */
  lemma {:induction false} SinglesAllFail(remote: Remote, maxRetries: int, batch: seq<String>, j: nat, st: BatchState)
    requires j <= |batch|
    requires forall k :: j <= k < |batch| ==> NeverAnswered(remote, batch[k])
    ensures var r := Singles(remote, maxRetries, batch, j, st);
            r.failed == st.failed + (|batch| - j) && r.out == st.out + Repeat(ZeroVector, |batch| - j)
    decreases |batch| - j
  {
    if j < |batch| {
      var next := SingleText(remote, maxRetries, batch[j], st);
      assert NeverAnswered(remote, batch[j]);
      assert next.out == st.out + [ZeroVector];
      SinglesAllFail(remote, maxRetries, batch, j + 1, next);
      assert [ZeroVector] + Repeat(ZeroVector, |batch| - (j + 1)) == Repeat(ZeroVector, |batch| - j);
    } else {
      assert st.out + Repeat(ZeroVector, 0) == st.out;
    }
  }

  /** A text-by-text fallback in which every text is always answered counts
      no failure. */
  lemma {:induction false} SinglesNoneFail(remote: Remote, maxRetries: int, batch: seq<String>, j: nat, st: BatchState)
    requires j <= |batch| && maxRetries > 0
    requires forall k :: j <= k < |batch| ==> AlwaysAnswered(remote, batch[k])
    ensures Singles(remote, maxRetries, batch, j, st).failed == st.failed
    decreases |batch| - j
  {
    if j < |batch| {
      var next := SingleText(remote, maxRetries, batch[j], st);
      assert AlwaysAnswered(remote, batch[j]);
      SinglesNoneFail(remote, maxRetries, batch, j + 1, next);
    }
  }

  /** A successful list `embed` of a batch against a well-formed endpoint
      returns one vector per text. */
  lemma {:induction false} EmbedAligned(remote: Remote, batch: seq<String>, maxRetries: int, post: nat)
    ensures var run := Embed(remote, batch, maxRetries, post);
            WellFormed(remote) && run.outcome.Success? ==> |run.outcome.value| == |batch|
  {
    var run := Embed(remote, batch, maxRetries, post);
    if run.outcome.Success? {
      var reply := remote(post + run.posts - 1, Payload(batch));
      assert reply.Embedded?;
    }
  }


  /** A successful list `embed` of a batch against a well-formed endpoint
      fills one slot per text, each with the vector returned for it. */
  lemma {:induction false} EmbedSlotted(remote: Remote, batch: seq<String>, maxRetries: int, post: nat)
    ensures var run := Embed(remote, batch, maxRetries, post);
            WellFormed(remote) && run.outcome.Success? ==> Slotted(remote, batch, run.outcome.value)
  {
    var run := Embed(remote, batch, maxRetries, post);
    if WellFormed(remote) && run.outcome.Success? {
      var p := post + run.posts - 1;
      var payload := Payload(batch);
      var vs := run.outcome.value;
      assert remote(p, payload).vectors == vs;
      forall i | 0 <= i < |batch|
        ensures VectorFor(remote, batch[i], vs[i])
      {
        assert payload[i] == ValidateAndClean(batch[i]);
        assert remote(p, payload).vectors[i] == vs[i];
      }
    }
  }

  /** The state a sub-batch is in when its first post met a rate-limit
      error: nothing appended, the window the gate left, the first post's
      pauses recorded. */
  function AfterThrottle(st: BatchState, g: GateResult, first: EmbedRun): (mid: BatchState)
    ensures mid.out == st.out && mid.failed == st.failed && mid.window == g.window
    ensures mid.post == st.post + first.posts && mid.sleeps == st.sleeps + g.pause + first.sleeps
  {
    BatchState(st.out, st.failed, g.window, st.post + first.posts, st.sleeps + g.pause + first.sleeps)
  }

  /** The retry after a rate-limit error: a 30-second pause, then the
      whole batch once more; if that fails too, every text of the batch
      gets the zero vector and the batch counts as one failure. */
  function Retried(remote: Remote, maxRetries: int, batch: seq<String>, st: BatchState): (r: BatchState)
    ensures var second := Embed(remote, batch, maxRetries, st.post);
            && r.window == st.window
            && r.sleeps == st.sleeps + [PauseAfterThrottle] + second.sleeps
            && (second.outcome.Success? ==> r.out == st.out + second.outcome.value && r.failed == st.failed)
            && (second.outcome.Failure? ==> r.out == st.out + Repeat(ZeroVector, |batch|) && r.failed == st.failed + 1)
  {
    var second := Embed(remote, batch, maxRetries, st.post);
    var sleeps := st.sleeps + [PauseAfterThrottle] + second.sleeps;
    match second.outcome
    case Success(vs) =>
      BatchState(st.out + vs, st.failed, st.window, st.post + second.posts, sleeps)
    case Failure(_) =>
      BatchState(st.out + Repeat(ZeroVector, |batch|), st.failed + 1, st.window, st.post + second.posts, sleeps)
  }

  /** Against a well-formed endpoint the retry fills one slot per text. */
  lemma {:induction false} RetriedSlotted(remote: Remote, maxRetries: int, batch: seq<String>, st: BatchState)
    ensures var r := Retried(remote, maxRetries, batch, st);
            WellFormed(remote) ==>
              && |r.out| == |st.out| + |batch| && r.out[..|st.out|] == st.out
              && st.failed <= r.failed <= st.failed + 1
              && Slotted(remote, batch, r.out[|st.out|..])
  {
    var r := Retried(remote, maxRetries, batch, st);
    var second := Embed(remote, batch, maxRetries, st.post);
    if WellFormed(remote) {
      if second.outcome.Success? {
        EmbedAligned(remote, batch, maxRetries, st.post);
        EmbedSlotted(remote, batch, maxRetries, st.post);
        assert r.out[|st.out|..] == second.outcome.value;
      } else {
        assert r.out[|st.out|..] == Repeat(ZeroVector, |batch|);
      }
    }
  }

  /** One sub-batch of `embed_batch`: the window check, then `embed`.
      - A first-try success appends the returned vectors, is counted in the
        window and is followed by a 2-second pause.
      - A rate-limit error pauses 30 seconds and retries the whole batch
        once; if that fails too, every text of the batch gets the zero
        vector and the batch counts as one failure.
      - A bad-input error falls back to one text at a time.
      - Any other error propagates.
      Whatever happens, each text of a returning run owns one slot holding
      a vector returned for it or the zero vector. Sub-batches are never
      empty. */
  function ProcessBatch(policy: GatePolicy, remote: Remote, clock: nat -> real, maxRetries: int, batch: seq<String>, st: BatchState): (r: Result<BatchState, String>)
    requires |batch| > 0
    ensures r.Failure? ==> !RateLimited(r.error) && !BadRequest(r.error)
    ensures WellFormed(remote) && r.Success? ==>
              && |r.value.out| == |st.out| + |batch| && r.value.out[..|st.out|] == st.out
              && st.failed <= r.value.failed <= st.failed + |batch|
              && Slotted(remote, batch, r.value.out[|st.out|..])
    ensures r.Success? && policy == WindowAlwaysResets && st.window.count <= WindowRequests ==>
              r.value.window.count <= WindowRequests
    ensures var first := Embed(remote, batch, maxRetries, st.post);
            var g := Gate(policy, st.window, clock);
            && (first.outcome.Success? ==> r.Success? && r.value.out == st.out + first.outcome.value)
            && (r.Success? ==> (r.value.window.count == g.window.count + 1 <==> first.outcome.Success?))
            && (r.Success? ==> r.value.window.count <= g.window.count + 1)
    ensures var first := Embed(remote, batch, maxRetries, st.post);
            var g := Gate(policy, st.window, clock);
            first.outcome.Failure? && RateLimited(first.outcome.error) ==>
              r == Success(Retried(remote, maxRetries, batch, AfterThrottle(st, g, first)))
  {
    var g := Gate(policy, st.window, clock);
    var first := Embed(remote, batch, maxRetries, st.post);
    var post := st.post + first.posts;
    var sleeps := st.sleeps + g.pause + first.sleeps;
    match first.outcome
    case Success(vs) =>
      EmbedAligned(remote, batch, maxRetries, st.post);
      EmbedSlotted(remote, batch, maxRetries, st.post);
      assert (st.out + vs)[|st.out|..] == vs;
      Success(BatchState(st.out + vs, st.failed, g.window.(count := g.window.count + 1), post, sleeps + [PauseAfterSuccess]))
    case Failure(m) =>
      if RateLimited(m) then
        RetriedSlotted(remote, maxRetries, batch, AfterThrottle(st, g, first));
        Success(Retried(remote, maxRetries, batch, AfterThrottle(st, g, first)))
      else if BadRequest(m) then
        Success(Singles(remote, maxRetries, batch, 0, BatchState(st.out, st.failed, g.window, post, sleeps)))
      else
        Failure(m)
  }
  /** The four routes of a sub-batch, each tied to the `embed` calls it
      makes: the pauses on the way, what is appended and what is counted. */
  lemma {:induction false} ProcessBatchRoutes(policy: GatePolicy, remote: Remote, clock: nat -> real, maxRetries: int, batch: seq<String>, st: BatchState)
    requires |batch| > 0
    ensures var r := ProcessBatch(policy, remote, clock, maxRetries, batch, st);
            var first := Embed(remote, batch, maxRetries, st.post);
            var g := Gate(policy, st.window, clock);
            var before := st.sleeps + g.pause + first.sleeps;
            && (first.outcome.Success? ==>
                  && r.Success? && r.value.out == st.out + first.outcome.value && r.value.failed == st.failed
                  && r.value.sleeps == before + [PauseAfterSuccess]
                  && r.value.window == g.window.(count := g.window.count + 1))
    ensures var r := ProcessBatch(policy, remote, clock, maxRetries, batch, st);
            var first := Embed(remote, batch, maxRetries, st.post);
            var g := Gate(policy, st.window, clock);
            var second := Embed(remote, batch, maxRetries, st.post + first.posts);
            first.outcome.Failure? && RateLimited(first.outcome.error) ==>
              && r.Success? && r.value.window == g.window
              && r.value.sleeps == st.sleeps + g.pause + first.sleeps + [PauseAfterThrottle] + second.sleeps
              && (second.outcome.Success? ==> r.value.out == st.out + second.outcome.value && r.value.failed == st.failed)
              && (second.outcome.Failure? ==>
                    r.value.out == st.out + Repeat(ZeroVector, |batch|) && r.value.failed == st.failed + 1)
    ensures var r := ProcessBatch(policy, remote, clock, maxRetries, batch, st);
            var first := Embed(remote, batch, maxRetries, st.post);
            var g := Gate(policy, st.window, clock);
            first.outcome.Failure? && !RateLimited(first.outcome.error) && BadRequest(first.outcome.error) ==>
              && r.Success? && r.value.window == g.window
              && |r.value.out| == |st.out| + |batch| && r.value.out[..|st.out|] == st.out
              && Slotted(remote, batch, r.value.out[|st.out|..])
              && st.failed <= r.value.failed <= st.failed + |batch|
    ensures var r := ProcessBatch(policy, remote, clock, maxRetries, batch, st);
            var first := Embed(remote, batch, maxRetries, st.post);
            first.outcome.Failure? && !RateLimited(first.outcome.error) && !BadRequest(first.outcome.error) ==>
              r == Failure(first.outcome.error)
  {
    FirstTryRoute(policy, remote, clock, maxRetries, batch, st);
    ThrottledPauses(policy, remote, clock, maxRetries, batch, st);
    ThrottledRetryAnswers(policy, remote, clock, maxRetries, batch, st);
    ThrottledRetryFails(policy, remote, clock, maxRetries, batch, st);
    BadRequestRoute(policy, remote, clock, maxRetries, batch, st);
  }

  lemma {:induction false} FirstTryRoute(policy: GatePolicy, remote: Remote, clock: nat -> real, maxRetries: int, batch: seq<String>, st: BatchState)
    requires |batch| > 0
    ensures var r := ProcessBatch(policy, remote, clock, maxRetries, batch, st);
            var first := Embed(remote, batch, maxRetries, st.post);
            var g := Gate(policy, st.window, clock);
            first.outcome.Success? ==>
              && r.Success? && r.value.out == st.out + first.outcome.value && r.value.failed == st.failed
              && r.value.sleeps == st.sleeps + g.pause + first.sleeps + [PauseAfterSuccess]
              && r.value.window == g.window.(count := g.window.count + 1)
  {
  }

  /** After a rate-limit error: the window the gate left, and the pause of
      30 seconds between the two calls. */
  lemma {:induction false} ThrottledPauses(policy: GatePolicy, remote: Remote, clock: nat -> real, maxRetries: int, batch: seq<String>, st: BatchState)
    requires |batch| > 0
    ensures var r := ProcessBatch(policy, remote, clock, maxRetries, batch, st);
            var first := Embed(remote, batch, maxRetries, st.post);
            var g := Gate(policy, st.window, clock);
            var second := Embed(remote, batch, maxRetries, st.post + first.posts);
            first.outcome.Failure? && RateLimited(first.outcome.error) ==>
              && r.Success? && r.value.window == g.window
              && r.value.sleeps == st.sleeps + g.pause + first.sleeps + [PauseAfterThrottle] + second.sleeps
  {
  }

  /** After a rate-limit error, a retry that answers appends its vectors. */
  lemma {:induction false} ThrottledRetryAnswers(policy: GatePolicy, remote: Remote, clock: nat -> real, maxRetries: int, batch: seq<String>, st: BatchState)
    requires |batch| > 0
    ensures var r := ProcessBatch(policy, remote, clock, maxRetries, batch, st);
            var first := Embed(remote, batch, maxRetries, st.post);
            var g := Gate(policy, st.window, clock);
            var second := Embed(remote, batch, maxRetries, st.post + first.posts);
            first.outcome.Failure? && RateLimited(first.outcome.error) ==>
              second.outcome.Success? ==> r.Success? && r.value.out == st.out + second.outcome.value && r.value.failed == st.failed
  {
    var first := Embed(remote, batch, maxRetries, st.post);
    if first.outcome.Failure? && RateLimited(first.outcome.error) {
      RetryAnswersAppends(remote, maxRetries, batch, AfterThrottle(st, Gate(policy, st.window, clock), first));
    }
  }

  /** A retry that answers appends the vectors it got. */
  lemma {:induction false} RetryAnswersAppends(remote: Remote, maxRetries: int, batch: seq<String>, mid: BatchState)
    ensures var second := Embed(remote, batch, maxRetries, mid.post);
            second.outcome.Success? ==>
              && Retried(remote, maxRetries, batch, mid).out == mid.out + second.outcome.value
              && Retried(remote, maxRetries, batch, mid).failed == mid.failed
  {
  }

  /** After a rate-limit error, a retry that fails appends zero vectors and
      counts one failure. */
  lemma {:induction false} ThrottledRetryFails(policy: GatePolicy, remote: Remote, clock: nat -> real, maxRetries: int, batch: seq<String>, st: BatchState)
    requires |batch| > 0
    ensures var r := ProcessBatch(policy, remote, clock, maxRetries, batch, st);
            var first := Embed(remote, batch, maxRetries, st.post);
            var g := Gate(policy, st.window, clock);
            var second := Embed(remote, batch, maxRetries, st.post + first.posts);
            first.outcome.Failure? && RateLimited(first.outcome.error) ==>
              second.outcome.Failure? ==>
                r.Success? && r.value.out == st.out + Repeat(ZeroVector, |batch|) && r.value.failed == st.failed + 1
  {
    var first := Embed(remote, batch, maxRetries, st.post);
    if first.outcome.Failure? && RateLimited(first.outcome.error) {
      RetryFailsZeroFills(remote, maxRetries, batch, AfterThrottle(st, Gate(policy, st.window, clock), first));
    }
  }

  /** A retry that fails appends one zero vector per text. */
  lemma {:induction false} RetryFailsZeroFills(remote: Remote, maxRetries: int, batch: seq<String>, mid: BatchState)
    ensures Embed(remote, batch, maxRetries, mid.post).outcome.Failure? ==>
              Retried(remote, maxRetries, batch, mid).out == mid.out + Repeat(ZeroVector, |batch|)
  {
  }

  lemma {:induction false} BadRequestRoute(policy: GatePolicy, remote: Remote, clock: nat -> real, maxRetries: int, batch: seq<String>, st: BatchState)
    requires |batch| > 0
    ensures var r := ProcessBatch(policy, remote, clock, maxRetries, batch, st);
            var first := Embed(remote, batch, maxRetries, st.post);
            var g := Gate(policy, st.window, clock);
            first.outcome.Failure? && !RateLimited(first.outcome.error) && BadRequest(first.outcome.error) ==>
              && r.Success? && r.value.window == g.window
              && |r.value.out| == |st.out| + |batch| && r.value.out[..|st.out|] == st.out
              && Slotted(remote, batch, r.value.out[|st.out|..])
              && st.failed <= r.value.failed <= st.failed + |batch|
  {
  }


  /** The window is full and already older than a minute. */
  predicate Stale(w: Window, clock: nat -> real)
  {
    w.count >= WindowRequests && clock(w.clockReads) - w.start >= WindowSeconds
  }

  /** A clock whose later readings are never earlier. */
  ghost predicate Monotone(clock: nat -> real)
  {
    forall a: nat, b: nat :: a <= b ==> clock(a) <= clock(b)
  }

  /** As written, a stale window is neither paused for nor reset, and under
      a monotone clock it is still stale afterwards: from then on the gate
      never pauses again. The corrected policy opens a fresh window. */
  lemma {:induction false} StaleWindowStaysOpen(w: Window, clock: nat -> real)
    requires Stale(w, clock) && Monotone(clock)
    ensures var g := Gate(AsWritten, w, clock);
            g.pause == [] && g.window.count == w.count && Stale(g.window, clock)
    ensures Gate(WindowAlwaysResets, w, clock).window.count == 0
  {
    var g := Gate(AsWritten, w, clock);
    assert clock(w.clockReads) <= clock(g.window.clockReads);
  }

  /** As written, a first-try success through a stale window pushes the
      count past 50, which the corrected policy never allows. */
  lemma {:induction false} AsWrittenExceedsWindow(remote: Remote, clock: nat -> real, maxRetries: int, batch: seq<String>, st: BatchState)
    requires |batch| > 0 && Stale(st.window, clock)
    requires Embed(remote, batch, maxRetries, st.post).outcome.Success?
    ensures var r := ProcessBatch(AsWritten, remote, clock, maxRetries, batch, st);
            r.Success? && r.value.window.count == st.window.count + 1 > WindowRequests
  {
    var g := Gate(AsWritten, st.window, clock);
    assert g.window.count == st.window.count;
  }

  /** The sub-batch loop of `embed_batch` from sub-batch `k` on. */
  function ProcessBatches(policy: GatePolicy, remote: Remote, clock: nat -> real, maxRetries: int, batches: seq<seq<String>>, k: nat, st: BatchState): (r: Result<BatchState, String>)
    requires k <= |batches|
    requires forall j :: k <= j < |batches| ==> |batches[j]| > 0
    ensures r.Failure? ==> !RateLimited(r.error) && !BadRequest(r.error)
    ensures WellFormed(remote) && r.Success? ==>
              && |r.value.out| == |st.out| + |Flatten(batches[k..])| && r.value.out[..|st.out|] == st.out
              && st.failed <= r.value.failed <= st.failed + |Flatten(batches[k..])|
              && Slotted(remote, Flatten(batches[k..]), r.value.out[|st.out|..])
    ensures r.Success? && policy == WindowAlwaysResets && st.window.count <= WindowRequests ==>
              r.value.window.count <= WindowRequests
    decreases |batches| - k
  {
    if k == |batches| then
      assert batches[k..] == [];
      Success(st)
    else
      assert batches[k..] == [batches[k]] + batches[k + 1..];
      match ProcessBatch(policy, remote, clock, maxRetries, batches[k], st)
      case Failure(m) => Failure(m)
      case Success(next) =>
        var r := ProcessBatches(policy, remote, clock, maxRetries, batches, k + 1, next);
        assert r.Success? && WellFormed(remote) ==> r.value.out[..|st.out|] == r.value.out[..|next.out|][..|st.out|];
        if r.Success? then
          BatchesStep(remote, batches[k], batches[k + 1..], st.out, next.out, r.value.out);
          r
        else r
  }

  /** The bookkeeping step of the sub-batch loop: the slots of one
      sub-batch in front of the slots of the sub-batches after it. */
  lemma {:induction false} BatchesStep(remote: Remote, batch: seq<String>, later: seq<seq<String>>, before: seq<Vector>, mid: seq<Vector>, after: seq<Vector>)
    ensures && |before| <= |mid| <= |after| && mid[..|before|] == before && after[..|mid|] == mid
            && Slotted(remote, batch, mid[|before|..]) && Slotted(remote, Flatten(later), after[|mid|..])
            ==> Slotted(remote, Flatten([batch] + later), after[|before|..])
  {
    if && |before| <= |mid| <= |after| && mid[..|before|] == before && after[..|mid|] == mid
       && Slotted(remote, batch, mid[|before|..]) && Slotted(remote, Flatten(later), after[|mid|..]) {
      SlottedAppend(remote, batch, mid[|before|..], Flatten(later), after[|mid|..]);
    assert ([batch] + later)[1..] == later;
      assert after[|before|..] == mid[|before|..] + after[|mid|..];
    }
  }

  /** `embed_batch(texts, batch_size)`. A batch size of zero makes the
      batching `range` raise; a negative one gives no sub-batches. Against a
      well-formed endpoint a run that returns has exactly one vector per
      input text, in order, with at most one failure per text; the only
      errors that escape are those that are neither rate-limit nor bad-input
      errors. */
  function EmbedBatch(policy: GatePolicy, remote: Remote, clock: nat -> real, maxRetries: int, texts: seq<String>, batchSize: int): (r: Result<BatchState, String>)
    ensures batchSize == 0 ==> r == Failure(RangeZeroMessage)
    ensures batchSize < 0 ==> r.Success? && r.value.out == [] && r.value.post == 0 && r.value.sleeps == []
    ensures batchSize > 0 && WellFormed(remote) && r.Success? ==>
              |r.value.out| == |texts| && r.value.failed <= |texts| && Slotted(remote, texts, r.value.out)
    ensures batchSize != 0 && r.Failure? ==> !RateLimited(r.error) && !BadRequest(r.error)
    ensures policy == WindowAlwaysResets && r.Success? ==> r.value.window.count <= WindowRequests
  {
    if batchSize == 0 then Failure(RangeZeroMessage)
    else
      var batches := BatchIterator(texts, batchSize);
      assert batches[0..] == batches;
      ProcessBatches(policy, remote, clock, maxRetries, batches, 0, BatchState([], 0, Window(0, clock(0), 1), 0, []))
  }

  lemma {:induction false} RepeatAppend<T>(x: T, a: nat, b: nat)
    ensures Repeat(x, a) + Repeat(x, b) == Repeat(x, a + b)
  {
  }

  /** From any state, the sub-batch is zero-filled and counted once. */
  ghost predicate ZeroFills(policy: GatePolicy, remote: Remote, clock: nat -> real, maxRetries: int, batch: seq<String>)
    requires |batch| > 0
  {
    forall st: BatchState ::
      var r := ProcessBatch(policy, remote, clock, maxRetries, batch, st);
      r.Success? && r.value.out == st.out + Repeat(ZeroVector, |batch|) && r.value.failed == st.failed + 1
  }

  /** When every sub-batch is zero-filled on its own, the whole loop is:
      one zero vector per text and one failure per sub-batch. */
  lemma {:induction false} ZeroFilledBatches(policy: GatePolicy, remote: Remote, clock: nat -> real, maxRetries: int, batches: seq<seq<String>>, k: nat, st: BatchState)
    requires k <= |batches| && forall j :: k <= j < |batches| ==> |batches[j]| > 0
    requires forall j :: k <= j < |batches| ==> ZeroFills(policy, remote, clock, maxRetries, batches[j])
    ensures ZeroFilledFrom(policy, remote, clock, maxRetries, batches, k, st)
    decreases |batches| - k
  {
    if k == |batches| {
      assert batches[k..] == [];
      assert st.out + Repeat(ZeroVector, 0) == st.out;
    } else {
      assert ZeroFills(policy, remote, clock, maxRetries, batches[k]);
      var next := ProcessBatch(policy, remote, clock, maxRetries, batches[k], st);
      ZeroFilledBatches(policy, remote, clock, maxRetries, batches, k + 1, next.value);
      ZeroFilledStep(policy, remote, clock, maxRetries, batches, k, st);
    }
  }

  /** The loop from sub-batch `k` on appends one zero vector per text and
      counts one failure per sub-batch. */
  ghost predicate ZeroFilledFrom(policy: GatePolicy, remote: Remote, clock: nat -> real, maxRetries: int, batches: seq<seq<String>>, k: nat, st: BatchState)
    requires k <= |batches| && forall j :: k <= j < |batches| ==> |batches[j]| > 0
  {
    var r := ProcessBatches(policy, remote, clock, maxRetries, batches, k, st);
    && r.Success?
    && r.value.out == st.out + Repeat(ZeroVector, |Flatten(batches[k..])|)
    && r.value.failed == st.failed + (|batches| - k)
  }

  /** One step of the loop: a zero-filled sub-batch in front of a
      zero-filled rest. */
  lemma {:induction false} ZeroFilledStep(policy: GatePolicy, remote: Remote, clock: nat -> real, maxRetries: int, batches: seq<seq<String>>, k: nat, st: BatchState)
    requires k < |batches| && forall j :: k <= j < |batches| ==> |batches[j]| > 0
    requires ZeroFills(policy, remote, clock, maxRetries, batches[k])
    requires ZeroFilledFrom(policy, remote, clock, maxRetries, batches, k + 1, ProcessBatch(policy, remote, clock, maxRetries, batches[k], st).value)
    ensures ZeroFilledFrom(policy, remote, clock, maxRetries, batches, k, st)
  {
    var next := ProcessBatch(policy, remote, clock, maxRetries, batches[k], st);
    assert next.Success? && next.value.out == st.out + Repeat(ZeroVector, |batches[k]|);
    assert ProcessBatches(policy, remote, clock, maxRetries, batches, k, st)
        == ProcessBatches(policy, remote, clock, maxRetries, batches, k + 1, next.value);
    FlattenFrom(batches, k);
    AppendRepeats(st.out, ZeroVector, |batches[k]|, |Flatten(batches[k + 1..])|);
  }

  /** The texts from sub-batch `k` on are those of sub-batch `k` followed
      by the rest. */
  lemma {:induction false} FlattenFrom<T>(batches: seq<seq<T>>, k: nat)
    requires k < |batches|
    ensures Flatten(batches[k..]) == batches[k] + Flatten(batches[k + 1..])
  {
    assert batches[k..] == [batches[k]] + batches[k + 1..];
  }

  lemma {:induction false} AppendRepeats<T>(a: seq<T>, x: T, m: nat, n: nat)
    ensures (a + Repeat(x, m)) + Repeat(x, n) == a + Repeat(x, m + n)
  {
    RepeatAppend(x, m, n);
  }

  /** Against an endpoint that answers every post with the same
      rate-limit HTTP error, every sub-batch is zero-filled. */
  lemma {:induction false} RateLimitedZeroFills(policy: GatePolicy, remote: Remote, clock: nat -> real, maxRetries: int, m: String, batch: seq<String>)
    requires maxRetries > 0 && RateLimited(m) && |batch| > 0
    requires forall p: nat, q: seq<String> :: remote(p, q) == HttpError(m)
    ensures ZeroFills(policy, remote, clock, maxRetries, batch)
  {
    forall st: BatchState
      ensures var r := ProcessBatch(policy, remote, clock, maxRetries, batch, st);
              r.Success? && r.value.out == st.out + Repeat(ZeroVector, |batch|) && r.value.failed == st.failed + 1
    {
      RateLimitedBatch(policy, remote, clock, maxRetries, m, batch, st);
    }
  }

  /** One sub-batch against that endpoint: both list posts fail, so the
      batch is zero-filled and counted once. */
  lemma {:induction false} RateLimitedBatch(policy: GatePolicy, remote: Remote, clock: nat -> real, maxRetries: int, m: String, batch: seq<String>, st: BatchState)
    requires maxRetries > 0 && RateLimited(m) && |batch| > 0
    requires forall p: nat, q: seq<String> :: remote(p, q) == HttpError(m)
    ensures var r := ProcessBatch(policy, remote, clock, maxRetries, batch, st);
            r.Success? && r.value.out == st.out + Repeat(ZeroVector, |batch|) && r.value.failed == st.failed + 1
  {
    var payload := Payload(batch);
    HttpErrorsNoSleep(remote, payload, false, maxRetries, 0, st.post);
    var first := Embed(remote, batch, maxRetries, st.post);
    HttpErrorsNoSleep(remote, payload, false, maxRetries, 0, st.post + first.posts);
    ProcessBatchRoutes(policy, remote, clock, maxRetries, batch, st);
  }

  /** `embed_batch` against an endpoint that answers every post with the
      same rate-limit HTTP error returns the zero vector for every text and
      counts one failure per sub-batch. */
  lemma {:induction false} RateLimitedEverywhere(policy: GatePolicy, remote: Remote, clock: nat -> real, maxRetries: int, m: String, texts: seq<String>, batchSize: int)
    requires maxRetries > 0 && RateLimited(m) && batchSize > 0
    requires forall p: nat, q: seq<String> :: remote(p, q) == HttpError(m)
    ensures var r := EmbedBatch(policy, remote, clock, maxRetries, texts, batchSize);
            && r.Success?
            && r.value.out == Repeat(ZeroVector, |texts|)
            && r.value.failed == |BatchIterator(texts, batchSize)|
  {
    var batches := BatchIterator(texts, batchSize);
    assert batches[0..] == batches;
    forall j | 0 <= j < |batches|
      ensures ZeroFills(policy, remote, clock, maxRetries, batches[j])
    {
      RateLimitedZeroFills(policy, remote, clock, maxRetries, m, batches[j]);
    }
    ZeroFilledBatches(policy, remote, clock, maxRetries, batches, 0, BatchState([], 0, Window(0, clock(0), 1), 0, []));
  }

  /** "Max retries exceeded" is neither a rate-limit nor a bad-input
      message, so `embed_batch` re-raises it. */
  lemma {:induction false} MaxRetriesNotRouted()
    ensures !RateLimited(MaxRetriesMessage) && !BadRequest(MaxRetriesMessage)
  {
    LowerMaxRetries();
    NotRouted(MaxRetriesMessage);
  }

  lemma {:induction false} LowerMaxRetries()
    ensures 'l' !in Lower(MaxRetriesMessage) && '4' !in Lower(MaxRetriesMessage) && 'o' !in Lower(MaxRetriesMessage)
  {
    var m := MaxRetriesMessage;
    forall i | 0 <= i < |m|
      ensures Lower(m)[i] != 'l' && Lower(m)[i] != '4' && Lower(m)[i] != 'o'
    {
      assert m[i] in "Max rietscd";
    }
  }

  /** A message whose lower-cased form has no 'l', '4' or 'o' contains none
      of the four routing needles. */
  lemma {:induction false} NotRouted(message: String)
    requires 'l' !in Lower(message) && '4' !in Lower(message) && 'o' !in Lower(message)
    ensures !RateLimited(message) && !BadRequest(message)
  {
    NotInfix("rate limit", Lower(message), 5);
    NotInfix("429", Lower(message), 0);
    NotInfix("400", Lower(message), 0);
    NotInfix("model_error", Lower(message), 1);
  }

  /** A sub-batch met by nothing but 429s without `Retry-After` aborts the
      whole of `embed_batch` with "Max retries exceeded": throttling that
      outlasts `embed`'s budget is not treated as a rate limit. */
  lemma {:induction false} ExhaustedThrottlingAborts(policy: GatePolicy, remote: Remote, clock: nat -> real, maxRetries: int, texts: seq<String>, batchSize: int)
    requires maxRetries > 0 && batchSize > 0 && |texts| > 0
    requires forall k: nat, p: seq<String> :: remote(k, p) == Throttled(DefaultWait)
    ensures EmbedBatch(policy, remote, clock, maxRetries, texts, batchSize) == Failure(MaxRetriesMessage)
  {
    var batches := BatchIterator(texts, batchSize);
    assert |batches| > 0;
    var st := BatchState([], 0, Window(0, clock(0), 1), 0, []);
    AllThrottledExhausts(remote, Payload(batches[0]), false, maxRetries, 0, 0);
    MaxRetriesNotRouted();
    assert ProcessBatch(policy, remote, clock, maxRetries, batches[0], st) == Failure(MaxRetriesMessage);
  }
}
