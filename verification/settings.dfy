/** Category scoring and configuration checks of the settings module.
    YAML, dotenv and environment loading are outside the model: the loaded
    values are the inputs. Scores are exact rationals. */
module Settings {

  import opened Wrappers
  import opened Text

  /** A document category: its name, its keywords and an optional
      description. Path and metadata are carried by the source but never
      read by the scoring code. */
  datatype Category = Category(name: String, keywords: seq<String>, description: Option<String>)

  const GeneralName: String := "general"

  /** The category used when the configuration lists none. */
  const General: Category := Category(GeneralName, [], Some("默认分类"))

  /** The default `threshold` of `auto_categorize`. */
  const DefaultThreshold: real := 0.3

  /** Keyword `kw` occurs in `text`, both lower-cased. */
  predicate KeywordHits(kw: String, text: String)
  {
    IsInfix(Lower(kw), Lower(text))
  }

  /** The number of keywords (with repetitions) that occur in `text`. */
  function Hits(keywords: seq<String>, text: String): (n: nat)
    ensures n <= |keywords|
    ensures n == 0 <==> forall i :: 0 <= i < |keywords| ==> !KeywordHits(keywords[i], text)
    ensures n == |keywords| <==> forall i :: 0 <= i < |keywords| ==> KeywordHits(keywords[i], text)
  {
    if |keywords| == 0 then 0
    else
      var rest := Hits(keywords[1..], text);
      assert forall i :: 1 <= i < |keywords| ==> keywords[i] == keywords[1..][i - 1];
      (if KeywordHits(keywords[0], text) then 1 else 0) + rest
  }

  /** `Category.match_score`: the share of the category's keywords found
      in the text, and 0 for a category without keywords. It lies in
      [0, 1]; it is 0 exactly when no keyword hits and 1 exactly when every
      keyword of a non-empty list hits. */
  function MatchScore(c: Category, text: String): (score: real)
    ensures 0.0 <= score <= 1.0
    ensures |c.keywords| == 0 ==> score == 0.0
    ensures score == 0.0 <==> Hits(c.keywords, text) == 0
    ensures score == 1.0 <==> |c.keywords| > 0 && Hits(c.keywords, text) == |c.keywords|
  {
    if |c.keywords| == 0 then 0.0
    else
      Ratio(Hits(c.keywords, text), |c.keywords|)
  }

  /** The positions, from `k` on, of the keywords found in the text. */
  function HitPositions(keywords: seq<String>, text: String, k: nat): set<nat>
  {
    set i: nat | k <= i < |keywords| && KeywordHits(keywords[i], text)
  }

  /** The recursive hit count is the number of keyword positions that hit. */
  lemma {:induction false} HitsCountPositions(keywords: seq<String>, text: String, k: nat)
    requires k <= |keywords|
    ensures Hits(keywords[k..], text) == |HitPositions(keywords, text, k)|
    decreases |keywords| - k
  {
    if k == |keywords| {
      assert HitPositions(keywords, text, k) == {};
    } else {
      HitsCountPositions(keywords, text, k + 1);
      assert keywords[k..][1..] == keywords[k + 1..];
      var here := if KeywordHits(keywords[k], text) then {k} else {};
      assert HitPositions(keywords, text, k) == here + HitPositions(keywords, text, k + 1);
      assert k !in HitPositions(keywords, text, k + 1);
    }
  }

  /** `match_score` is the number of keywords found in the text divided by
      the number of keywords. */
  lemma {:induction false} ScoreIsShare(c: Category, text: String)
    requires |c.keywords| > 0
    ensures MatchScore(c, text) == (|HitPositions(c.keywords, text, 0)| as real) / (|c.keywords| as real)
  {
    HitsCountPositions(c.keywords, text, 0);
    assert c.keywords[0..] == c.keywords;
  }

  /** A score is 0 exactly when no keyword occurs in the text, and 1
      exactly when every keyword of a non-empty list does. */
  lemma {:induction false} ScoreExtremes(c: Category, text: String)
    ensures MatchScore(c, text) == 0.0 <==> forall i :: 0 <= i < |c.keywords| ==> !KeywordHits(c.keywords[i], text)
    ensures MatchScore(c, text) == 1.0 <==>
              |c.keywords| > 0 && forall i :: 0 <= i < |c.keywords| ==> KeywordHits(c.keywords[i], text)
  {
  }

  /** `n / d` for a share `n` of `d` items. */
  function Ratio(n: nat, d: nat): (q: real)
    requires 0 < d && n <= d
    ensures 0.0 <= q <= 1.0 && q * (d as real) == n as real
    ensures q == 0.0 <==> n == 0
    ensures q == 1.0 <==> n == d
  {
    (n as real) / (d as real)
  }

  /** The category list after loading: the configured categories, or the
      single keyword-free "general" category when none are configured. */
  function LoadCategories(configured: seq<Category>): (cats: seq<Category>)
    ensures |cats| > 0
    ensures |configured| > 0 ==> cats == configured
    ensures |configured| == 0 ==> cats == [General]
  {
    if |configured| == 0 then [General] else configured
  }

  /** `get_category_by_name`: the first category carrying exactly that
      name, or nothing. */
  function CategoryByName(cats: seq<Category>, name: String): (r: Option<Category>)
    ensures r.None? <==> forall i :: 0 <= i < |cats| ==> cats[i].name != name
    ensures r.Some? ==> exists i :: 0 <= i < |cats| && cats[i] == r.value && r.value.name == name &&
                                    forall j :: 0 <= j < i ==> cats[j].name != name
  {
    if |cats| == 0 then None
    else if cats[0].name == name then Some(cats[0])
    else
      var r := CategoryByName(cats[1..], name);
      assert forall i :: 1 <= i < |cats| ==> cats[i] == cats[1..][i - 1];
      assert r.Some? ==> exists i :: 1 <= i < |cats| && cats[i] == r.value && r.value.name == name &&
                                     forall j :: 0 <= j < i ==> cats[j].name != name by {
        if r.Some? {
          var k :| 0 <= k < |cats[1..]| && cats[1..][k] == r.value && r.value.name == name &&
                   forall j :: 0 <= j < k ==> cats[1..][j].name != name;
          assert cats[k + 1] == r.value;
        }
      }
      r
  }

  /** The best score seen so far in the `auto_categorize` loop and the
      index of the category that first reached it. */
  datatype Best = Best(score: real, index: Option<nat>)

  /** The loop invariant of the scan over the first `i` categories. */
  predicate Leads(cats: seq<Category>, text: String, i: nat, b: Best)
    requires i <= |cats|
  {
    && (b.index.None? ==> b.score == 0.0)
    && (b.index.Some? ==> b.index.value < i && b.score == MatchScore(cats[b.index.value], text) &&
                          forall j :: 0 <= j < b.index.value ==> MatchScore(cats[j], text) < b.score)
    && (forall j :: 0 <= j < i ==> MatchScore(cats[j], text) <= b.score)
  }

  /** The loop `if score > best_score` from category `i` on. Because the
      comparison is strict, a later category with the same score never
      displaces an earlier one. */
  function Scan(cats: seq<Category>, text: String, i: nat, b: Best): (r: Best)
    requires i <= |cats| && Leads(cats, text, i, b)
    ensures Leads(cats, text, |cats|, r)
    ensures r.score >= b.score
    decreases |cats| - i
  {
    if i == |cats| then b
    else
      var s := MatchScore(cats[i], text);
      var next := if s > b.score then Best(s, Some(i)) else b;
      Scan(cats, text, i + 1, next)
  }

  /** The best score of the whole list, 0 for a list whose scores are all
      0: the loop's starting value. */
  function BestOf(cats: seq<Category>, text: String): (b: Best)
    ensures Leads(cats, text, |cats|, b)
  {
    Scan(cats, text, 0, Best(0.0, None))
  }

  /** `auto_categorize(text, threshold)`. Below the threshold the first
      category named "general" is chosen, else the first category; at or
      above it, the earliest category with the best score, or the first
      category when every score is 0. An empty list makes `categories[0]`
      raise IndexError. */
  function AutoCategorize(cats: seq<Category>, text: String, threshold: real): (r: Result<Category, String>)
    ensures r.Success? <==> |cats| > 0
    ensures r.Failure? ==> r.error == IndexErrorMessage
    ensures r.Success? ==> r.value in cats
  {
    var b := BestOf(cats, text);
    if b.score < threshold then
      match CategoryByName(cats, GeneralName)
      case Some(c) => Success(c)
      case None => if |cats| > 0 then Success(cats[0]) else Failure(IndexErrorMessage)
    else
      match b.index
      case Some(i) => Success(cats[i])
      case None => if |cats| > 0 then Success(cats[0]) else Failure(IndexErrorMessage)
  }

  /** Tie-break: when category `i` has the best score, strictly above every
      earlier one, and that score is positive and reaches the threshold,
      `auto_categorize` picks category `i`. */
  lemma {:induction false} EarliestBestWins(cats: seq<Category>, text: String, threshold: real, i: nat)
    requires i < |cats|
    requires MatchScore(cats[i], text) > 0.0 && MatchScore(cats[i], text) >= threshold
    requires forall j :: 0 <= j < |cats| ==> MatchScore(cats[j], text) <= MatchScore(cats[i], text)
    requires forall j :: 0 <= j < i ==> MatchScore(cats[j], text) < MatchScore(cats[i], text)
    ensures AutoCategorize(cats, text, threshold) == Success(cats[i])
  {
    var b := BestOf(cats, text);
    assert MatchScore(cats[i], text) <= b.score;
    assert b.index.Some?;
    var k := b.index.value;
    assert MatchScore(cats[k], text) == MatchScore(cats[i], text);
  }

  /** When every score is below the threshold, `auto_categorize` returns
      the first "general" category, or the first category if none is
      named so. */
  lemma {:induction false} BelowThresholdFallsBack(cats: seq<Category>, text: String, threshold: real)
    requires |cats| > 0
    requires forall j :: 0 <= j < |cats| ==> MatchScore(cats[j], text) < threshold
    ensures var g := CategoryByName(cats, GeneralName);
            AutoCategorize(cats, text, threshold) == Success(if g.Some? then g.value else cats[0])
  {
    var b := BestOf(cats, text);
    if b.index.Some? {
      assert b.score == MatchScore(cats[b.index.value], text);
    } else {
      assert MatchScore(cats[0], text) <= b.score;
    }
  }

  /** With no threshold to reach and no keyword hit anywhere, the first
      category is chosen. */
  lemma {:induction false} NoHitsPicksFirst(cats: seq<Category>, text: String, threshold: real)
    requires |cats| > 0 && threshold <= 0.0
    requires forall j :: 0 <= j < |cats| ==> MatchScore(cats[j], text) == 0.0
    ensures AutoCategorize(cats, text, threshold) == Success(cats[0])
  {
    var b := BestOf(cats, text);
    if b.index.Some? {
      assert b.score == MatchScore(cats[b.index.value], text);
    }
  }

  /** With no categories configured, every text lands in "general". */
  lemma {:induction false} DefaultCategorizesAll(text: String, threshold: real)
    ensures MatchScore(General, text) == 0.0
    ensures AutoCategorize(LoadCategories([]), text, threshold) == Success(General)
  {
    var cats := LoadCategories([]);
    var b := BestOf(cats, text);
    assert CategoryByName(cats, GeneralName) == Some(General);
  }

  /** The configuration values `validate` inspects. `apiKey` is the
      resolved key (after the environment fallback). */
  datatype Config = Config(
    host: String,
    port: int,
    provider: String,
    apiKey: Option<String>,
    chunkSize: int,
    overlap: int,
    minChunkSize: int)

  /** Python truthiness of an optional string: present and non-empty. */
  predicate Truthy(s: Option<String>)
  {
    s.Some? && |s.value| > 0
  }

  function IntToString(n: int): String
  {
    if n < 0 then "-" + NatToString(-n) else NatToString(n)
  }

  const HostMessage: String := "Qdrant host 不能为空"
  const PortMessagePrefix: String := "Qdrant port 无效: "
  const ApiKeyMessage: String := "OpenAI API key 未设置"
  const ChunkSizeMessage: String := "chunk_size 不能小于 min_chunk_size"
  const OverlapMessage: String := "overlap 不能大于等于 chunk_size"

  predicate PortValid(port: int)
  {
    1 <= port <= 65535
  }

  /** The five problems `validate` looks for. */
  predicate HostMissing(c: Config) { |c.host| == 0 }
  predicate KeyMissing(c: Config) { c.provider == "openai" && !Truthy(c.apiKey) }
  predicate ChunkTooSmall(c: Config) { c.chunkSize < c.minChunkSize }
  predicate OverlapTooLarge(c: Config) { c.overlap >= c.chunkSize }

  function When(b: bool, m: String): seq<String>
  {
    if b then [m] else []
  }

  /** The error list `validate` builds and prints: one message per problem
      found, in the order host, port, API key, chunk size, overlap. */
  function ValidationErrors(c: Config): (errors: seq<String>)
    ensures HostMissing(c) <==> HostMessage in errors
    ensures !PortValid(c.port) <==> PortMessagePrefix + IntToString(c.port) in errors
    ensures KeyMissing(c) <==> ApiKeyMessage in errors
    ensures ChunkTooSmall(c) <==> ChunkSizeMessage in errors
    ensures OverlapTooLarge(c) <==> OverlapMessage in errors
    ensures |errors| <= 5
  {
    var portMessage := PortMessagePrefix + IntToString(c.port);
    assert portMessage[..|PortMessagePrefix|] == PortMessagePrefix;
    assert portMessage != HostMessage && portMessage != ApiKeyMessage by {
      assert HostMessage[7] != PortMessagePrefix[7];
      assert ApiKeyMessage[0] != PortMessagePrefix[0];
    }
    assert portMessage != ChunkSizeMessage && portMessage != OverlapMessage by {
      assert ChunkSizeMessage[0] != PortMessagePrefix[0];
      assert OverlapMessage[0] != PortMessagePrefix[0];
    }
    When(HostMissing(c), HostMessage)
      + When(!PortValid(c.port), portMessage)
      + When(KeyMissing(c), ApiKeyMessage)
      + When(ChunkTooSmall(c), ChunkSizeMessage)
      + When(OverlapTooLarge(c), OverlapMessage)
  }

  /** `validate()`: true exactly when the host is set, the port lies in
      1..65535, an OpenAI provider has a key, `chunk_size` is at least
      `min_chunk_size`, and `overlap` is below `chunk_size`. */
  function Validate(c: Config): (ok: bool)
    ensures ok <==> && !HostMissing(c) && PortValid(c.port) && !KeyMissing(c)
                    && !ChunkTooSmall(c) && !OverlapTooLarge(c)
  {
    |ValidationErrors(c)| == 0
  }

  /** The configuration defaults (localhost:6333, OpenAI, chunks of 800
      with overlap 150 and minimum 100) validate exactly when an API key is
      set. */
  lemma {:induction false} DefaultsNeedOnlyKey(apiKey: Option<String>)
    ensures Validate(Config("localhost", 6333, "openai", apiKey, 800, 150, 100)) <==> Truthy(apiKey)
  {
  }
}
