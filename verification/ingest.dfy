/** The record logic of the ingestion script: building one record per
    chunk, splitting records into cache hits and misses, uploading points in
    batches of 500, and the per-batch control flow over a directory. File
    loading, the embedding endpoint, the vector store and uuid5 are
    parameters; timers and logging are left out. */
module Ingest {

  import opened Wrappers
  import opened Seqs
  import opened Text
  import opened Batching
  import SafeName
  import Cleaner
  import Chunking
  import Settings
  import Embedding
  import Cache
  import opened Performance

  /** The values a record's metadata dictionary holds. */
  datatype Value = Str(s: String) | Int(n: int)

  type Metadata = map<String, Value>

  /** A record: its id, its chunk text, its metadata and, once embedded,
      its vector (the `'vector'` key is absent until then). */
  datatype Record = Record(id: String, text: String, metadata: Metadata, vector: Option<Embedding.Vector>)

  /** A file to ingest: `str(file_path)` and `file_path.name`. */
  datatype SourceFile = SourceFile(path: String, name: String)

  /** The settings `process_document` reads. */
  datatype Pipeline = Pipeline(
    html: String -> String,
    nlp: Chunking.Nlp,
    categories: seq<Settings.Category>,
    minLineLength: int,
    chunkSize: int,
    overlap: int,
    minChunkSize: int,
    respectSentence: bool,
    language: String,
    skipErrors: bool)

  /** Content shorter than this is skipped. */
  const MinContentLength := 10

  /** `file_path.suffix.lower().lstrip('.')`: the suffix holds one dot, in
      front, so exactly that dot goes. */
  function Extension(name: String): (ext: String)
    ensures '.' !in ext
  {
    var suffix := SafeName.Suffix(name);
    var lowered := Lower(suffix);
    assert forall j :: 0 < j < |suffix| ==> lowered[j] != '.';
    if |lowered| > 0 then lowered[1..] else lowered
  }

  /** The id of record `i` of a file: `f"{stem}_{i}"`. */
  function RecordId(stem: String, i: nat): (id: String)
    ensures |id| == |stem| + 1 + |NatToString(i)|
    ensures id[..|stem|] == stem && id[|stem|] == '_' && id[|stem| + 1..] == NatToString(i)
  {
    stem + "_" + NatToString(i)
  }

  /** Two records of one file never share an id. */
  lemma {:induction false} RecordIdInjective(stem: String, i: nat, j: nat)
    requires RecordId(stem, i) == RecordId(stem, j)
    ensures i == j
  {
    assert NatToString(i) == RecordId(stem, i)[|stem| + 1..];
    NatToStringInjective(i, j);
  }

  /** The stem of a dotted name `s.e`, with neither part holding a dot and
      `s` not empty, is `s`. */
  lemma {:induction false} StemOfDotted(s: String, e: String)
    requires |s| > 0 && '.' !in s && '.' !in e && |e| > 0
    ensures SafeName.Stem(s + "." + e) == s
  {
    var name := s + "." + e;
    assert name[|s|] == '.';
    assert forall j :: |s| < j < |name| ==> name[j] == e[j - |s| - 1];
    var i := SafeName.RFindDot(name);
    assert i == |s|;
    assert name[..i] == s;
  }

  /** Ids ignore the suffix: `a.txt` and `a.md` have the same stem, so
      their records get the same ids, position by position. */
  lemma {:induction false} SameStemSameIds(s: String, i: nat)
    requires |s| > 0 && '.' !in s
    ensures SafeName.Stem(s + ".txt") == SafeName.Stem(s + ".md") == s
    ensures RecordId(SafeName.Stem(s + ".txt"), i) == RecordId(SafeName.Stem(s + ".md"), i)
  {
    StemOfDotted(s, "txt");
    StemOfDotted(s, "md");
    assert s + ".txt" == s + "." + "txt";
    assert s + ".md" == s + "." + "md";
  }

  /** `extract_metadata_enhanced`'s base fields as a dictionary; `title`
      is present only when one was found. */
  function BaseFields(m: Cleaner.BaseMetadata): (d: Metadata)
    ensures d.Keys == {"source", "word_count", "char_count", "summary"} + (if m.title.Some? then {"title"} else {})
    ensures d["source"] == Str(m.source) && d["word_count"] == Int(m.wordCount) && d["char_count"] == Int(m.charCount)
  {
    var d := map["source" := Str(m.source), "word_count" := Int(m.wordCount),
                 "char_count" := Int(m.charCount), "summary" := Str(m.summary)];
    match m.title
    case Some(t) => d["title" := Str(t)]
    case None => d
  }

  /** The keys the record builder sets itself. */
  function OwnFields(name: String, category: String, i: nat, total: nat, ext: String): Metadata
  {
    map["source" := Str(name), "category" := Str(category), "chunk_index" := Int(i),
        "total_chunks" := Int(total), "file_type" := Str(ext)]
  }

  /** `{ ...own keys, **metadata }`: a key of `meta` wins over an own key of
      the same name; every other key keeps its own value. */
  function Merge(own: Metadata, meta: Metadata): (d: Metadata)
    ensures d.Keys == own.Keys + meta.Keys
    ensures forall k :: k in meta ==> d[k] == meta[k]
    ensures forall k :: k in own && k !in meta ==> d[k] == own[k]
  {
    map k | k in own.Keys + meta.Keys :: if k in meta then meta[k] else own[k]
  }

  /** The records of one file, in chunk order. */
  function BuildRecords(stem: String, name: String, category: String, ext: String, meta: Metadata, chunks: seq<String>): (rs: seq<Record>)
    ensures |rs| == |chunks|
    ensures forall i :: 0 <= i < |rs| ==>
              && rs[i].id == RecordId(stem, i) && rs[i].text == chunks[i] && rs[i].vector.None?
              && rs[i].metadata == Merge(OwnFields(name, category, i, |chunks|, ext), meta)
  {
    seq(|chunks|, i requires 0 <= i < |chunks| =>
      Record(RecordId(stem, i), chunks[i], Merge(OwnFields(name, category, i, |chunks|, ext), meta), None))
  }

  /** The merged metadata of a record: the full path replaces the bare
      file name under `source`, while the chunk position, the chunk count,
      the category and the file type are those the builder set. */
  lemma {:induction false} MergedFields(name: String, category: String, i: nat, total: nat, ext: String, m: Cleaner.BaseMetadata)
    ensures var d := Merge(OwnFields(name, category, i, total, ext), BaseFields(m));
            && d["source"] == Str(m.source)
            && d["chunk_index"] == Int(i) && d["total_chunks"] == Int(total)
            && d["category"] == Str(category) && d["file_type"] == Str(ext)
            && d["word_count"] == Int(m.wordCount) && d["char_count"] == Int(m.charCount)
  {
    var meta := BaseFields(m);
    assert "chunk_index" !in meta && "total_chunks" !in meta && "category" !in meta && "file_type" !in meta;
  }

  /** The result of `process_document` and the counters after it. */
  datatype DocOutcome = DocOutcome(records: Result<seq<Record>, String>, metrics: Metrics)

  /** The `except` branch: count the failure, then swallow it under
      `skip_errors` or re-raise it. */
  function Failed(p: Pipeline, error: String, m: Metrics): (o: DocOutcome)
    ensures o.metrics == Increment(m, "documents_failed", 1)
    ensures p.skipErrors ==> o.records == Success([])
    ensures !p.skipErrors ==> o.records == Failure(error)
  {
    DocOutcome(if p.skipErrors then Success([]) else Failure(error), Increment(m, "documents_failed", 1))
  }

  /** The category of a document: the one given, or, when none is given
      (`None` or empty, both written `""` here), the name `auto_categorize`
      picks with its default threshold. */
  function CategoryFor(p: Pipeline, given: String, cleaned: String): (r: Result<String, String>)
    ensures given != "" ==> r == Success(given)
    ensures given == "" ==>
              && (r.Success? <==> Settings.AutoCategorize(p.categories, cleaned, 0.3).Success?)
              && (r.Success? ==> r.value == Settings.AutoCategorize(p.categories, cleaned, 0.3).value.name)
    ensures given == "" && |p.categories| > 0 ==> r.Success? && exists c :: c in p.categories && r.value == c.name
    ensures r.Failure? ==> r.error == IndexErrorMessage
  {
    if given != "" then Success(given)
    else
      match Settings.AutoCategorize(p.categories, cleaned, Settings.DefaultThreshold)
      case Success(c) => Success(c.name)
      case Failure(e) => Failure(e)
  }

  /** What every record of a file carries: its position in the id, a
      chunk of at least the minimum size, no vector yet, the full path as
      `source`, and its position and the record count in the metadata. */
  predicate RecordsOf(rs: seq<Record>, file: SourceFile, minChunkSize: int)
  {
    forall i :: 0 <= i < |rs| ==>
      && rs[i].id == RecordId(SafeName.Stem(file.name), i)
      && |rs[i].text| >= minChunkSize
      && rs[i].vector.None?
      && "source" in rs[i].metadata && "chunk_index" in rs[i].metadata && "total_chunks" in rs[i].metadata
      && rs[i].metadata["source"] == Str(file.path)
      && rs[i].metadata["chunk_index"] == Int(i)
      && rs[i].metadata["total_chunks"] == Int(|rs|)
  }

  /** The records of a file whose metadata came from its full path. */
  function FileRecords(file: SourceFile, category: String, ext: String, base: Cleaner.BaseMetadata, chunks: seq<String>, minChunkSize: int): (rs: seq<Record>)
    requires base.source == file.path
    requires forall k :: 0 <= k < |chunks| ==> |chunks[k]| >= minChunkSize
    ensures |rs| == |chunks| && RecordsOf(rs, file, minChunkSize)
    ensures forall i :: 0 <= i < |rs| ==>
              rs[i].text == chunks[i] && "category" in rs[i].metadata && rs[i].metadata["category"] == Str(category)
  {
    var rs := BuildRecords(SafeName.Stem(file.name), file.name, category, ext, BaseFields(base), chunks);
    MergedAll(file.name, category, |chunks|, ext, base);
    rs
  }

  /** `process_document(file_path, category)` given what loading the file
      produced (its text, or the error it raised). Short content and text
      that yields no chunks give no records; otherwise one record per
      chunk, in order. A raised error is counted in `documents_failed` and
      swallowed under `skip_errors`. */
  function ProcessDocument(p: Pipeline, file: SourceFile, content: Result<String, String>, category: String, m: Metrics): (o: DocOutcome)
    ensures content.Success? && |content.value| < MinContentLength ==> o == DocOutcome(Success([]), m)
    ensures content.Failure? ==> o == Failed(p, content.error, m)
    ensures o.records.Failure? ==> !p.skipErrors && Count(o.metrics, "documents_failed") == Count(m, "documents_failed") + 1
    ensures o.records.Success? && |o.records.value| > 0 ==>
              && Count(o.metrics, "documents_processed") == Count(m, "documents_processed") + 1
              && Count(o.metrics, "chunks_created") == Count(m, "chunks_created") + |o.records.value|
              && RecordsOf(o.records.value, file, p.minChunkSize)
  {
    match content
    case Failure(e) => Failed(p, e, m)
    case Success(text) =>
      if |text| < MinContentLength then DocOutcome(Success([]), m)
      else
        var ext := Extension(file.name);
        var cleaned := Cleaner.CleanText(text, ext, p.html, p.minLineLength);
        match CategoryFor(p, category, cleaned)
        case Failure(e) => Failed(p, e, m)
        case Success(cat) =>
          Categorized(p, file, cat, ext, Cleaner.ExtractBaseMetadata(cleaned, file.path), DocChunks(p, file, text), m)
  }

  /** A loaded file of at least 10 characters: a failed category lookup
      is the document's failure; otherwise there is one record per chunk of
      the cleaned text, record `i` holding chunk `i` and the category, and
      no chunks leave the counters alone. */
  lemma {:induction false} ProcessDocumentRecords(p: Pipeline, file: SourceFile, text: String, category: String, m: Metrics)
    requires |text| >= MinContentLength
    ensures var o := ProcessDocument(p, file, Success(text), category, m);
            var cleaned := Cleaner.CleanText(text, Extension(file.name), p.html, p.minLineLength);
            var cat := CategoryFor(p, category, cleaned);
            var chunks := DocChunks(p, file, text);
            && (cat.Failure? ==> o == Failed(p, cat.error, m))
            && (cat.Success? ==>
                  && o.records.Success? && |o.records.value| == |chunks|
                  && (forall i :: 0 <= i < |chunks| ==>
                        && o.records.value[i].text == chunks[i]
                        && "category" in o.records.value[i].metadata
                        && o.records.value[i].metadata["category"] == Str(cat.value))
                  && (|chunks| == 0 ==> o.metrics == m))
  {
  }

  /** The rest of `process_document` once the category and the chunks are
      known: one record per chunk, each carrying the category; no chunks
      give no records and leave the counters alone. */
  function Categorized(p: Pipeline, file: SourceFile, cat: String, ext: String, base: Cleaner.BaseMetadata,
                       chunks: seq<String>, m: Metrics): (o: DocOutcome)
    requires base.source == file.path
    requires forall k :: 0 <= k < |chunks| ==> |chunks[k]| >= p.minChunkSize
    ensures o.records.Success? && |o.records.value| == |chunks|
    ensures forall i :: 0 <= i < |chunks| ==>
              && o.records.value[i].text == chunks[i]
              && "category" in o.records.value[i].metadata
              && o.records.value[i].metadata["category"] == Str(cat)
    ensures |chunks| == 0 ==> o.metrics == m
    ensures |chunks| > 0 ==>
              && Count(o.metrics, "documents_processed") == Count(m, "documents_processed") + 1
              && Count(o.metrics, "chunks_created") == Count(m, "chunks_created") + |chunks|
              && RecordsOf(o.records.value, file, p.minChunkSize)
  {
    if |chunks| == 0 then DocOutcome(Success([]), m)
    else
      var rs := FileRecords(file, cat, ext, base, chunks, p.minChunkSize);
      DocOutcome(Success(rs), Increment(Increment(m, "documents_processed", 1), "chunks_created", |rs|))
  }

  /** The chunks of a file's text: `smart_chunk` of its cleaned text. */
  function DocChunks(p: Pipeline, file: SourceFile, text: String): (chunks: seq<String>)
    ensures forall k :: 0 <= k < |chunks| ==> |chunks[k]| >= p.minChunkSize
  {
    var cleaned := Cleaner.CleanText(text, Extension(file.name), p.html, p.minLineLength);
    Chunking.SmartChunk(cleaned, p.chunkSize, p.overlap, p.minChunkSize, p.respectSentence, p.language, p.nlp)
  }

  /** The records `process_document` returns for a file do not depend on
      the counters it starts from. */
  function DocRecords(p: Pipeline, load: String -> Result<String, String>, file: SourceFile, category: String): Result<seq<Record>, String>
  {
    ProcessDocument(p, file, load(file.path), category, Create(0.0)).records
  }

  lemma {:induction false} RecordsIgnoreMetrics(p: Pipeline, load: String -> Result<String, String>, file: SourceFile, category: String, m: Metrics)
    ensures ProcessDocument(p, file, load(file.path), category, m).records == DocRecords(p, load, file, category)
  {
  }

  /** The records of a result, none for an error. */
  function RecordsIn(r: Result<seq<Record>, String>): seq<Record>
  {
    match r
    case Success(rs) => rs
    case Failure(_) => []
  }

  lemma {:induction false} MergedAll(name: String, category: String, total: nat, ext: String, m: Cleaner.BaseMetadata)
    ensures forall i: nat :: var d := Merge(OwnFields(name, category, i, total, ext), BaseFields(m));
              "source" in d && "chunk_index" in d && "total_chunks" in d && "category" in d &&
              d["source"] == Str(m.source) && d["chunk_index"] == Int(i) && d["total_chunks"] == Int(total) &&
              d["category"] == Str(category)
  {
    forall i: nat ensures var d := Merge(OwnFields(name, category, i, total, ext), BaseFields(m));
                          "source" in d && "chunk_index" in d && "total_chunks" in d && "category" in d &&
                          d["source"] == Str(m.source) && d["chunk_index"] == Int(i) && d["total_chunks"] == Int(total) &&
                          d["category"] == Str(category) {
      MergedFields(name, category, i, total, ext, m);
    }
  }

  /** The cached vector of a text, where caching is enabled. */
  function Lookup(cache: Option<Cache.DiskCache<Embedding.Vector>>, digest: String -> String, text: String): (r: Option<Embedding.Vector>)
    ensures cache.None? ==> r.None?
  {
    match cache
    case None => None
    case Some(c) => Cache.Get(c, digest, text)
  }

  /** Strictly increasing indices. */
  predicate Increasing(xs: seq<nat>)
  {
    forall a, b :: 0 <= a < b < |xs| ==> xs[a] < xs[b]
  }

  /** The positions from `i` on where `flags` holds `want`, in order. */
  function Where(flags: seq<bool>, want: bool, i: nat): (r: seq<nat>)
    requires i <= |flags|
    ensures forall k :: 0 <= k < |r| ==> i <= r[k] < |flags| && flags[r[k]] == want
    ensures forall j :: i <= j < |flags| && flags[j] == want ==> j in r
    ensures Increasing(r)
    decreases |flags| - i
  {
    if i == |flags| then []
    else
      var rest := Where(flags, want, i + 1);
      if flags[i] == want then [i] + rest else rest
  }

  /** Every position lands on exactly one side. */
  lemma {:induction false} WhereSplits(flags: seq<bool>, i: nat)
    requires i <= |flags|
    ensures |Where(flags, true, i)| + |Where(flags, false, i)| == |flags| - i
    decreases |flags| - i
  {
    if i < |flags| {
      WhereSplits(flags, i + 1);
      assert |Where(flags, flags[i], i)| == 1 + |Where(flags, flags[i], i + 1)|;
      assert |Where(flags, !flags[i], i)| == |Where(flags, !flags[i], i + 1)|;
    }
  }

  /** Which records the cache already holds a vector for. */
  function CacheHits(cache: Option<Cache.DiskCache<Embedding.Vector>>, digest: String -> String, docs: seq<Record>): (hit: seq<bool>)
    ensures |hit| == |docs|
    ensures forall j :: 0 <= j < |docs| ==> (hit[j] <==> Lookup(cache, digest, docs[j].text).Some?)
  {
    seq(|docs|, j requires 0 <= j < |docs| => Lookup(cache, digest, docs[j].text).Some?)
  }

  /** The two index lists `embed_documents` builds: cache hits, and the
      records still to embed. */
  datatype CacheSplit = CacheSplit(cached: seq<nat>, pending: seq<nat>)

  /** The split is a partition of the record indices into hits and misses,
      each list in record order. */
  function SplitByCache(cache: Option<Cache.DiskCache<Embedding.Vector>>, digest: String -> String, docs: seq<Record>): (s: CacheSplit)
    ensures Increasing(s.cached) && Increasing(s.pending)
    ensures |s.cached| + |s.pending| == |docs|
    ensures forall k :: 0 <= k < |s.cached| ==> s.cached[k] < |docs| && Lookup(cache, digest, docs[s.cached[k]].text).Some?
    ensures forall k :: 0 <= k < |s.pending| ==> s.pending[k] < |docs| && Lookup(cache, digest, docs[s.pending[k]].text).None?
    ensures forall j :: 0 <= j < |docs| ==> j in s.cached || j in s.pending
    ensures cache.None? ==> s.cached == []
  {
    var hit := CacheHits(cache, digest, docs);
    WhereSplits(hit, 0);
    var cached := Where(hit, true, 0);
    assert |cached| > 0 ==> hit[cached[0]];
    CacheSplit(cached, Where(hit, false, 0))
  }

  /** No index is both a hit and a miss. */
  lemma {:induction false} SplitDisjoint(cache: Option<Cache.DiskCache<Embedding.Vector>>, digest: String -> String, docs: seq<Record>, j: nat)
    ensures var s := SplitByCache(cache, digest, docs);
            !(j in s.cached && j in s.pending)
  {
  }

  /** The records with every hit's vector filled in from the cache. */
  function FillCached(cache: Option<Cache.DiskCache<Embedding.Vector>>, digest: String -> String, docs: seq<Record>): (r: seq<Record>)
    ensures |r| == |docs|
    ensures forall j :: 0 <= j < |docs| ==> r[j].id == docs[j].id && r[j].text == docs[j].text && r[j].metadata == docs[j].metadata
    ensures forall j :: 0 <= j < |docs| ==>
              r[j].vector == (if Lookup(cache, digest, docs[j].text).Some? then Lookup(cache, digest, docs[j].text) else docs[j].vector)
  {
    seq(|docs|, j requires 0 <= j < |docs| =>
      var hit := Lookup(cache, digest, docs[j].text);
      if hit.Some? then docs[j].(vector := hit) else docs[j])
  }

  /** `for idx, emb in zip(indices, embeddings)`: record `idx[k]` gets
      vector `vs[k]`, for as many pairs as the shorter list holds. */
  function Assign(docs: seq<Record>, idx: seq<nat>, vs: seq<Embedding.Vector>): (r: seq<Record>)
    requires Increasing(idx) && forall k :: 0 <= k < |idx| ==> idx[k] < |docs|
    ensures |r| == |docs|
    ensures forall j :: 0 <= j < |docs| ==> r[j].id == docs[j].id && r[j].text == docs[j].text && r[j].metadata == docs[j].metadata
    ensures forall k :: 0 <= k < Min(|idx|, |vs|) ==> r[idx[k]].vector == Some(vs[k])
    ensures forall j :: 0 <= j < |docs| && (forall k :: 0 <= k < Min(|idx|, |vs|) ==> idx[k] != j) ==> r[j] == docs[j]
  {
    AssignFrom(docs, idx, vs, 0)
  }

  /** The pairs of `zip(indices, embeddings)` from the `n`-th on. */
  function AssignFrom(docs: seq<Record>, idx: seq<nat>, vs: seq<Embedding.Vector>, n: nat): (r: seq<Record>)
    requires Increasing(idx) && forall k :: 0 <= k < |idx| ==> idx[k] < |docs|
    requires n <= Min(|idx|, |vs|)
    ensures |r| == |docs|
    ensures forall j :: 0 <= j < |docs| ==> r[j].id == docs[j].id && r[j].text == docs[j].text && r[j].metadata == docs[j].metadata
    ensures forall k :: n <= k < Min(|idx|, |vs|) ==> r[idx[k]].vector == Some(vs[k])
    ensures forall j :: 0 <= j < |docs| && (forall k :: n <= k < Min(|idx|, |vs|) ==> idx[k] != j) ==> r[j] == docs[j]
    decreases Min(|idx|, |vs|) - n
  {
    if n == Min(|idx|, |vs|) then docs
    else
      var j := idx[n];
      var next := docs[j := docs[j].(vector := Some(vs[n]))];
      assert forall k :: n < k < |idx| ==> idx[k] != j;
      AssignFrom(next, idx, vs, n + 1)
  }

  /** The cache writes after a successful `embed_batch`: text `texts[k]`
      is stored with vector `vs[k]`, the `k`-th write going as `writes(k)`
      says. */
  function StoreAll(cache: Cache.DiskCache<Embedding.Vector>, digest: String -> String, writes: nat -> Cache.WriteOutcome,
                    texts: seq<String>, vs: seq<Embedding.Vector>, k: nat): (r: Cache.DiskCache<Embedding.Vector>)
    requires k <= Min(|texts|, |vs|)
    decreases Min(|texts|, |vs|) - k
  {
    if k == Min(|texts|, |vs|) then cache
    else StoreAll(Cache.Set(cache, digest, texts[k], vs[k], writes(k)), digest, writes, texts, vs, k + 1)
  }

  /** When every write succeeds and the texts' digests differ, the cache
      afterwards returns each text's new vector. */
  lemma {:induction false} StoreAllReadsBack(cache: Cache.DiskCache<Embedding.Vector>, digest: String -> String, writes: nat -> Cache.WriteOutcome,
                                             texts: seq<String>, vs: seq<Embedding.Vector>, k: nat, j: nat)
    requires k <= j < Min(|texts|, |vs|)
    requires forall i :: k <= i < Min(|texts|, |vs|) ==> writes(i) == Cache.Written
    requires forall a, b :: 0 <= a < b < |texts| ==> digest(texts[a]) != digest(texts[b])
    ensures Cache.Get(StoreAll(cache, digest, writes, texts, vs, k), digest, texts[j]) == Some(vs[j])
    decreases Min(|texts|, |vs|) - k
  {
    var next := Cache.Set(cache, digest, texts[k], vs[k], writes(k));
    if j == k {
      StoreAllKeeps(next, digest, writes, texts, vs, k + 1, j);
    } else {
      StoreAllReadsBack(next, digest, writes, texts, vs, k + 1, j);
    }
  }

  /** Writes of later texts leave the file of text `j` alone. */
  lemma {:induction false} StoreAllKeeps(cache: Cache.DiskCache<Embedding.Vector>, digest: String -> String, writes: nat -> Cache.WriteOutcome,
                                         texts: seq<String>, vs: seq<Embedding.Vector>, k: nat, j: nat)
    requires j < k <= Min(|texts|, |vs|)
    requires forall a, b :: 0 <= a < b < |texts| ==> digest(texts[a]) != digest(texts[b])
    ensures Cache.Get(StoreAll(cache, digest, writes, texts, vs, k), digest, texts[j]) == Cache.Get(cache, digest, texts[j])
    decreases Min(|texts|, |vs|) - k
  {
    if k < Min(|texts|, |vs|) {
      var next := Cache.Set(cache, digest, texts[k], vs[k], writes(k));
      assert Cache.Get(next, digest, texts[j]) == Cache.Get(cache, digest, texts[j]);
      StoreAllKeeps(next, digest, writes, texts, vs, k + 1, j);
    }
  }

  /** The records after a successful batch: hits carry their cached
      vector, the `k`-th miss carries `vs[k]`; when there is one vector per
      miss, every record has a vector. */
  function AfterBatch(cache: Option<Cache.DiskCache<Embedding.Vector>>, digest: String -> String, docs: seq<Record>, vs: seq<Embedding.Vector>): (r: seq<Record>)
    ensures var s := SplitByCache(cache, digest, docs);
            && |r| == |docs|
            && (forall j :: 0 <= j < |docs| ==> r[j].id == docs[j].id && r[j].text == docs[j].text && r[j].metadata == docs[j].metadata)
            && (forall k :: 0 <= k < |s.cached| ==> r[s.cached[k]].vector == Lookup(cache, digest, docs[s.cached[k]].text))
            && (forall k :: 0 <= k < Min(|s.pending|, |vs|) ==> r[s.pending[k]].vector == Some(vs[k]))
            && (|vs| >= |s.pending| ==> forall j :: 0 <= j < |docs| ==> r[j].vector.Some?)
  {
    var s := SplitByCache(cache, digest, docs);
    var filled := FillCached(cache, digest, docs);
    var r := Assign(filled, s.pending, vs);
    assert forall k :: 0 <= k < |s.cached| ==> s.cached[k] !in s.pending;
    AssignSkips(filled, s.pending, vs, s.cached);
    Covered(r, s.cached, s.pending, vs);
    r
  }

  /** Records whose index is not among those assigned keep their value. */
  lemma {:induction false} AssignSkips(docs: seq<Record>, idx: seq<nat>, vs: seq<Embedding.Vector>, others: seq<nat>)
    requires Increasing(idx) && forall k :: 0 <= k < |idx| ==> idx[k] < |docs|
    requires forall k :: 0 <= k < |others| ==> others[k] < |docs| && others[k] !in idx
    ensures forall k :: 0 <= k < |others| ==> Assign(docs, idx, vs)[others[k]] == docs[others[k]]
  {
  }

  /** When hits and misses cover every record, hits carry a vector, and
      every miss was paired with one, every record carries a vector. */
  lemma {:induction false} Covered(r: seq<Record>, cached: seq<nat>, pending: seq<nat>, vs: seq<Embedding.Vector>)
    requires forall j :: 0 <= j < |r| ==> j in cached || j in pending
    requires forall k :: 0 <= k < |cached| && cached[k] < |r| ==> r[cached[k]].vector.Some?
    requires forall k :: 0 <= k < Min(|pending|, |vs|) && pending[k] < |r| ==> r[pending[k]].vector.Some?
    ensures |vs| >= |pending| ==> forall j :: 0 <= j < |r| ==> r[j].vector.Some?
  {
    if |vs| >= |pending| {
      forall j | 0 <= j < |r| ensures r[j].vector.Some? {
        if j in pending {
          var k :| 0 <= k < |pending| && pending[k] == j;
        } else {
          var k :| 0 <= k < |cached| && cached[k] == j;
        }
      }
    }
  }

  /** The embedding client's configuration and the endpoint's and clock's
      behaviour during one `embed_batch` call. */
  datatype Embedder = Embedder(policy: Embedding.GatePolicy, remote: Embedding.Remote, clock: nat -> real, maxRetries: int, batchSize: int)

  /** The result of `embed_documents`, the texts handed to `embed_batch`,
      and the cache and counters afterwards. */
  datatype EmbedOutcome = EmbedOutcome(docs: Result<seq<Record>, String>, sent: seq<String>,
                                       cache: Option<Cache.DiskCache<Embedding.Vector>>, metrics: Metrics)

  /** The texts of the pending records, in order. */
  function PendingTexts(docs: seq<Record>, pending: seq<nat>): (texts: seq<String>)
    requires forall k :: 0 <= k < |pending| ==> pending[k] < |docs|
    ensures |texts| == |pending| && forall k :: 0 <= k < |pending| ==> texts[k] == docs[pending[k]].text
  {
    seq(|pending|, k requires 0 <= k < |pending| => docs[pending[k]].text)
  }

  /** `embed_documents(documents)`: hits take their cached vector; only the
      misses are sent, in record order, and each returned vector goes back
      to the record it was computed for and into the cache. An error of
      `embed_batch` propagates. */
  function EmbedDocuments(e: Embedder, cache: Option<Cache.DiskCache<Embedding.Vector>>, digest: String -> String,
                          writes: nat -> Cache.WriteOutcome, docs: seq<Record>, m: Metrics): (o: EmbedOutcome)
    ensures var s := SplitByCache(cache, digest, docs);
            && o.sent == PendingTexts(docs, s.pending)
            && Count(o.metrics, "cache_hits") == Count(m, "cache_hits") + |s.cached|
            && (o.docs.Failure? ==> |s.pending| > 0)
            && (o.docs.Success? ==>
                  var r := o.docs.value;
                  && |r| == |docs|
                  && (forall j :: 0 <= j < |docs| ==> r[j].id == docs[j].id && r[j].text == docs[j].text && r[j].metadata == docs[j].metadata)
                  && (forall k :: 0 <= k < |s.cached| ==> r[s.cached[k]].vector == Lookup(cache, digest, docs[s.cached[k]].text)))
    ensures cache.None? ==> o.cache.None?
    ensures var s := SplitByCache(cache, digest, docs);
            e.batchSize > 0 && Embedding.WellFormed(e.remote) && o.docs.Success? ==>
              forall j :: 0 <= j < |docs| ==> o.docs.value[j].vector.Some?
  {
    var s := SplitByCache(cache, digest, docs);
    var m1 := if |s.cached| > 0 then Increment(m, "cache_hits", |s.cached|) else m;
    if |s.pending| == 0 then
      EmbedOutcome(Success(AfterBatch(cache, digest, docs, [])), PendingTexts(docs, s.pending), cache, m1)
    else
      EmbedMisses(e, cache, digest, writes, docs, m1)
  }

  /** The part of `embed_documents` after the hits are counted, when some
      record missed the cache: one `embed_batch` call on the misses' texts,
      whose vectors go to the misses and into the cache. */
  function EmbedMisses(e: Embedder, cache: Option<Cache.DiskCache<Embedding.Vector>>, digest: String -> String,
                       writes: nat -> Cache.WriteOutcome, docs: seq<Record>, m: Metrics): (o: EmbedOutcome)
    ensures var s := SplitByCache(cache, digest, docs);
            && o.sent == PendingTexts(docs, s.pending)
            && Count(o.metrics, "cache_hits") == Count(m, "cache_hits")
            && (o.docs.Success? ==>
                  var r := o.docs.value;
                  && |r| == |docs|
                  && (forall j :: 0 <= j < |docs| ==> r[j].id == docs[j].id && r[j].text == docs[j].text && r[j].metadata == docs[j].metadata)
                  && (forall k :: 0 <= k < |s.cached| ==> r[s.cached[k]].vector == Lookup(cache, digest, docs[s.cached[k]].text)))
    ensures cache.None? ==> o.cache.None?
    ensures e.batchSize > 0 && Embedding.WellFormed(e.remote) && o.docs.Success? ==>
              forall j :: 0 <= j < |docs| ==> o.docs.value[j].vector.Some?
  {
    var s := SplitByCache(cache, digest, docs);
    var texts := PendingTexts(docs, s.pending);
    match Embedding.EmbedBatch(e.policy, e.remote, e.clock, e.maxRetries, texts, e.batchSize)
    case Failure(err) => EmbedOutcome(Failure(err), texts, cache, m)
    case Success(st) => Embedded(cache, digest, writes, docs, st.out, m)
  }

  /** The end of `embed_documents` once `embed_batch` returned `vs`: the
      records take their vectors, the new vectors go into the cache, and
      `embeddings_generated` grows. */
  function Embedded(cache: Option<Cache.DiskCache<Embedding.Vector>>, digest: String -> String,
                    writes: nat -> Cache.WriteOutcome, docs: seq<Record>, vs: seq<Embedding.Vector>, m: Metrics): (o: EmbedOutcome)
    ensures var s := SplitByCache(cache, digest, docs);
            && o.sent == PendingTexts(docs, s.pending)
            && Count(o.metrics, "cache_hits") == Count(m, "cache_hits")
            && o.docs.Success?
            && |o.docs.value| == |docs|
            && (forall j :: 0 <= j < |docs| ==>
                  o.docs.value[j].id == docs[j].id && o.docs.value[j].text == docs[j].text && o.docs.value[j].metadata == docs[j].metadata)
            && (forall k :: 0 <= k < |s.cached| ==> o.docs.value[s.cached[k]].vector == Lookup(cache, digest, docs[s.cached[k]].text))
            && (forall k :: 0 <= k < Min(|s.pending|, |vs|) ==> o.docs.value[s.pending[k]].vector == Some(vs[k]))
            && (|vs| >= |s.pending| ==> forall j :: 0 <= j < |docs| ==> o.docs.value[j].vector.Some?)
    ensures cache.None? ==> o.cache.None?
    ensures cache.Some? ==> o.cache == Some(StoreAll(cache.value, digest, writes, PendingTexts(docs, SplitByCache(cache, digest, docs).pending), vs, 0))
  {
    var s := SplitByCache(cache, digest, docs);
    var texts := PendingTexts(docs, s.pending);
    var c := match cache case None => cache case Some(dc) => Some(StoreAll(dc, digest, writes, texts, vs, 0));
    EmbedOutcome(Success(AfterBatch(cache, digest, docs, vs)), texts, c, Increment(m, "embeddings_generated", |vs|))
  }

  /** Where the vectors of `embed_documents` go: with no miss nothing is
      sent and the cache is untouched; otherwise an error of `embed_batch`
      propagates with the cache untouched, and on success the `k`-th miss
      receives the `k`-th vector returned and the cache takes every
      (text, vector) pair in order. */
  lemma {:induction false} EmbedDocumentsAssigns(e: Embedder, cache: Option<Cache.DiskCache<Embedding.Vector>>, digest: String -> String,
                              writes: nat -> Cache.WriteOutcome, docs: seq<Record>, m: Metrics)
    ensures var o := EmbedDocuments(e, cache, digest, writes, docs, m);
            |SplitByCache(cache, digest, docs).pending| == 0 ==> o.docs.Success? && o.cache == cache
    ensures var o := EmbedDocuments(e, cache, digest, writes, docs, m);
            var s := SplitByCache(cache, digest, docs);
            var texts := PendingTexts(docs, s.pending);
            var b := Embedding.EmbedBatch(e.policy, e.remote, e.clock, e.maxRetries, texts, e.batchSize);
            |s.pending| > 0 ==>
              && (b.Failure? ==> o.docs == Failure(b.error) && o.cache == cache)
              && (b.Success? ==>
                    && o.docs.Success?
                    && (forall k :: 0 <= k < Min(|s.pending|, |b.value.out|) ==> o.docs.value[s.pending[k]].vector == Some(b.value.out[k]))
                    && (cache.Some? ==> o.cache == Some(StoreAll(cache.value, digest, writes, texts, b.value.out, 0))))
  {
  }


  /** After a successful `embed_documents` whose cache writes all succeed,
      the cache hands back, for every miss, the vector that miss received,
      provided the misses' texts have distinct digests. */
  lemma {:induction false} EmbedDocumentsCaches(e: Embedder, cache: Cache.DiskCache<Embedding.Vector>, digest: String -> String,
                             writes: nat -> Cache.WriteOutcome, docs: seq<Record>, m: Metrics, k: nat)
    requires var s := SplitByCache(Some(cache), digest, docs);
             var texts := PendingTexts(docs, s.pending);
             && k < |s.pending|
             && (forall i :: 0 <= i < |texts| ==> writes(i) == Cache.Written)
             && (forall a, b :: 0 <= a < b < |texts| ==> digest(texts[a]) != digest(texts[b]))
    ensures var s := SplitByCache(Some(cache), digest, docs);
            var texts := PendingTexts(docs, s.pending);
            var o := EmbedDocuments(e, Some(cache), digest, writes, docs, m);
            var b := Embedding.EmbedBatch(e.policy, e.remote, e.clock, e.maxRetries, texts, e.batchSize);
            b.Success? && k < |b.value.out| ==>
              && o.docs.Success? && o.cache.Some?
              && o.docs.value[s.pending[k]].vector == Some(b.value.out[k])
              && Cache.Get(o.cache.value, digest, docs[s.pending[k]].text) == Some(b.value.out[k])
  {
    var s := SplitByCache(Some(cache), digest, docs);
    var texts := PendingTexts(docs, s.pending);
    var o := EmbedDocuments(e, Some(cache), digest, writes, docs, m);
    var b := Embedding.EmbedBatch(e.policy, e.remote, e.clock, e.maxRetries, texts, e.batchSize);
    if b.Success? && k < |b.value.out| {
      StoreAllReadsBack(cache, digest, writes, texts, b.value.out, 0, k);
    }
  }

  /** A point of the vector store: the uuid5 id, the vector and the
      payload (text and metadata). */
  datatype Point = Point(id: String, vector: Embedding.Vector, text: String, metadata: Metadata)

  /** The size of an upload batch. */
  const UploadBatchSize := 500

  const PauseBetweenUploads: real := 1.0

  /** `doc['vector']` on a record without one raises KeyError('vector'). */
  const MissingVectorMessage: String := "'vector'"

  /** One `qdrant.upsert` call: the error it raised, if any, given the call
      number within one `upsert_to_qdrant` run and the points sent. */
  type Store = (nat, seq<Point>) -> Option<String>

  /** The points of the records, in order; the first record without a
      vector raises. `uuid` is `uuid5(NAMESPACE_DNS, ·)`, a fixed function
      of the id. */
  function ToPoints(docs: seq<Record>, uuid: String -> String): (r: Result<seq<Point>, String>)
    ensures r.Success? <==> forall j :: 0 <= j < |docs| ==> docs[j].vector.Some?
    ensures r.Failure? ==> r.error == MissingVectorMessage
    ensures r.Success? ==>
              && |r.value| == |docs|
              && forall j :: 0 <= j < |docs| ==>
                   r.value[j] == Point(uuid(docs[j].id), docs[j].vector.value, docs[j].text, docs[j].metadata)
  {
    if |docs| == 0 then Success([])
    else if docs[0].vector.None? then Failure(MissingVectorMessage)
    else
      match ToPoints(docs[1..], uuid)
      case Failure(e) =>
        assert !docs[1..][0].vector.Some? ==> !docs[1].vector.Some?;
        Failure(e)
      case Success(rest) =>
        var d := docs[0];
        assert forall j :: 1 <= j < |docs| ==> docs[j] == docs[1..][j - 1];
        Success([Point(uuid(d.id), d.vector.value, d.text, d.metadata)] + rest)
  }

  /** Re-ingesting the same records yields the same point ids. */
  lemma {:induction false} SameRecordsSameIds(docs1: seq<Record>, docs2: seq<Record>, uuid: String -> String)
    requires |docs1| == |docs2| && forall j :: 0 <= j < |docs1| ==> docs1[j].id == docs2[j].id
    requires ToPoints(docs1, uuid).Success? && ToPoints(docs2, uuid).Success?
    ensures forall j :: 0 <= j < |docs1| ==> ToPoints(docs1, uuid).value[j].id == ToPoints(docs2, uuid).value[j].id
  {
  }

  /** The run of the upload loop: the points uploaded so far and the error
      that stopped it, the batches sent and the pauses taken. */
  datatype UploadRun = UploadRun(outcome: Result<nat, String>, sent: seq<seq<Point>>, sleeps: seq<real>)

  /** The loop `for i in range(0, n, 500)` with `rest` the points from `i`
      on: it sends the next 500 (or fewer), and pauses 1 second when points
      remain after them (`i + 500 < n`). A raising call stops the loop. */
  function Upload(store: Store, rest: seq<Point>, call: nat): (run: UploadRun)
    ensures run.outcome.Success? ==> run.sent == BatchIterator(rest, UploadBatchSize) && run.outcome.value == |rest|
    ensures run.outcome.Success? ==> |run.sleeps| == |run.sent| - 1 || (|rest| == 0 && run.sleeps == [])
    ensures forall k :: 0 <= k < |run.sleeps| ==> run.sleeps[k] == PauseBetweenUploads
    ensures run.outcome.Failure? ==> |run.sent| > 0 && store(call + |run.sent| - 1, run.sent[|run.sent| - 1]) == Some(run.outcome.error)
    ensures |run.sleeps| <= |run.sent|
    decreases |rest|
  {
    if |rest| == 0 then UploadRun(Success(0), [], [])
    else
      var batch := rest[..Min(UploadBatchSize, |rest|)];
      match store(call, batch)
      case Some(err) => UploadRun(Failure(err), [batch], [])
      case None =>
        if |rest| <= UploadBatchSize then
          assert batch == rest;
          UploadRun(Success(|rest|), [batch], [])
        else
          var more := Upload(store, rest[UploadBatchSize..], call + 1);
          assert more.outcome.Success? ==> more.sent == BatchIterator(rest[UploadBatchSize..], UploadBatchSize);
          var run := UploadRun(match more.outcome case Success(t) => Success(|batch| + t) case Failure(e) => Failure(e),
                               [batch] + more.sent, [PauseBetweenUploads] + more.sleeps);
          assert run.outcome.Failure? ==> run.sent[|run.sent| - 1] == more.sent[|more.sent| - 1];
          run
  }

  /** The batch count `upsert_to_qdrant` reports: `(n - 1) // 500 + 1`. */
  function ReportedBatches(n: nat): int
  {
    (n - 1) / UploadBatchSize + 1
  }

  /** The reported count is the number of batches actually sent: the
      ceiling of n / 500, and 0 for no points. */
  lemma {:induction false} ReportedBatchesExact(points: seq<Point>)
    ensures ReportedBatches(|points|) == |BatchIterator(points, UploadBatchSize)|
  {
    var b := |BatchIterator(points, UploadBatchSize)|;
    var n := |points|;
    if n == 0 {
      assert (n - 1) / UploadBatchSize == -1;
    } else {
      assert (b - 1) * UploadBatchSize <= n - 1 < b * UploadBatchSize;
      DivBetween(n - 1, b - 1);
    }
  }

  lemma {:induction false} DivBetween(x: int, q: int)
    requires q * UploadBatchSize <= x < q * UploadBatchSize + UploadBatchSize
    ensures x / UploadBatchSize == q
  {
  }

  /** The result of `upsert_to_qdrant` and the counters after it. */
  datatype UpsertOutcome = UpsertOutcome(run: UploadRun, metrics: Metrics)

  /** `upsert_to_qdrant(documents)`: every record becomes a point; the
      points go out in consecutive batches of 500, in order, with a pause
      between batches only; on success every record was uploaded. Any error
      propagates. */
  function UpsertToQdrant(store: Store, uuid: String -> String, docs: seq<Record>, m: Metrics): (o: UpsertOutcome)
    ensures (exists j :: 0 <= j < |docs| && docs[j].vector.None?) ==>
              o.run == UploadRun(Failure(MissingVectorMessage), [], []) && o.metrics == m
    ensures o.run.outcome.Success? ==>
              && o.run.outcome.value == |docs|
              && Flatten(o.run.sent) == ToPoints(docs, uuid).value
              && o.run.sent == BatchIterator(ToPoints(docs, uuid).value, UploadBatchSize)
              && |o.run.sent| == ReportedBatches(|docs|)
              && (forall k :: 0 <= k < |o.run.sent| ==> 0 < |o.run.sent[k]| <= UploadBatchSize)
              && |o.run.sleeps| == (if |docs| == 0 then 0 else |o.run.sent| - 1)
              && Count(o.metrics, "vectors_upserted") == Count(m, "vectors_upserted") + |docs|
    ensures o.run.outcome.Failure? ==> o.metrics == m
  {
    match ToPoints(docs, uuid)
    case Failure(e) => UpsertOutcome(UploadRun(Failure(e), [], []), m)
    case Success(points) =>
      var run := Upload(store, points, 0);
      ReportedBatchesExact(points);
      match run.outcome
      case Failure(_) => UpsertOutcome(run, m)
      case Success(total) => UpsertOutcome(run, Increment(m, "vectors_upserted", total))
  }

  /** `process_document` over the files of one batch, concatenating their
      records; an error that is not skipped stops the batch. */
  function ProcessFiles(p: Pipeline, load: String -> Result<String, String>, files: seq<SourceFile>, category: String, m: Metrics): (o: DocOutcome)
    ensures p.skipErrors ==> o.records.Success?
    ensures |files| == 0 ==> o == DocOutcome(Success([]), m)
    ensures o.records.Success? <==> forall i :: 0 <= i < |files| ==> DocRecords(p, load, files[i], category).Success?
    ensures o.records.Success? ==> o.records.value == Flatten(PerFile(p, load, files, category))
    ensures o.records.Failure? ==>
              exists i :: 0 <= i < |files| && DocRecords(p, load, files[i], category) == Failure(o.records.error)
    decreases |files|
  {
    if |files| == 0 then DocOutcome(Success([]), m)
    else
      var d := ProcessDocument(p, files[0], load(files[0].path), category, m);
      RecordsIgnoreMetrics(p, load, files[0], category, m);
      FilesStep(p, load, files, category);
      match d.records
      case Failure(_) => d
      case Success(rs) =>
        var rest := ProcessFiles(p, load, files[1..], category, d.metrics);
        match rest.records
        case Failure(_) => rest
        case Success(more) => DocOutcome(Success(rs + more), rest.metrics)
  }

  /** The records of each file, in file order; none for a file that
      failed. */
  function PerFile(p: Pipeline, load: String -> Result<String, String>, files: seq<SourceFile>, category: String): (rs: seq<seq<Record>>)
    ensures |rs| == |files|
    ensures forall i :: 0 <= i < |files| ==> rs[i] == RecordsIn(DocRecords(p, load, files[i], category))
  {
    seq(|files|, i requires 0 <= i < |files| => RecordsIn(DocRecords(p, load, files[i], category)))
  }

  /** The per-file records of `files` are those of its first file followed
      by those of the rest. */
  lemma {:induction false} FilesStep(p: Pipeline, load: String -> Result<String, String>, files: seq<SourceFile>, category: String)
    requires |files| > 0
    ensures Flatten(PerFile(p, load, files, category))
            == RecordsIn(DocRecords(p, load, files[0], category)) + Flatten(PerFile(p, load, files[1..], category))
  {
    var all := PerFile(p, load, files, category);
    var rest := PerFile(p, load, files[1..], category);
    forall i | 0 <= i < |rest|
      ensures all[1..][i] == rest[i]
    {
      assert files[1..][i] == files[i + 1];
    }
    assert all[1..] == rest;
  }

  /** What the outside world does during a directory run: file loading by
      path, the embedding client during the `c`-th `embed_documents` call,
      the store during the `c`-th `upsert_to_qdrant` call, how the cache
      writes of the `c`-th embedding call go, the md5 digest and uuid5. */
  datatype World = World(
    load: String -> Result<String, String>,
    embedder: nat -> Embedder,
    store: nat -> Store,
    writes: nat -> nat -> Cache.WriteOutcome,
    digest: String -> String,
    uuid: String -> String)

  /** How one file batch ended. */
  datatype BatchStep = NoDocuments | EmbedSkipped(embedError: String) | UploadSkipped(uploadError: String) | Uploaded(points: nat)

  /** The batches handled so far, the calls made to `embed_documents` and
      `upsert_to_qdrant`, the cache and the counters. */
  datatype DirState = DirState(steps: seq<BatchStep>, embedCalls: nat, uploadCalls: nat,
                               cache: Option<Cache.DiskCache<Embedding.Vector>>, metrics: Metrics)

  /** A directory run: the error that escaped, if any, and the final state. */
  datatype DirRun = DirRun(error: Option<String>, state: DirState)

  /** The number of steps that called `embed_documents`. */
  function EmbedCount(steps: seq<BatchStep>): nat
  {
    if |steps| == 0 then 0
    else EmbedCount(steps[..|steps| - 1]) + (if steps[|steps| - 1].NoDocuments? then 0 else 1)
  }

  /** The number of steps that called `upsert_to_qdrant`. */
  function UploadCount(steps: seq<BatchStep>): nat
  {
    if |steps| == 0 then 0
    else UploadCount(steps[..|steps| - 1]) + (if steps[|steps| - 1].Uploaded? || steps[|steps| - 1].UploadSkipped? then 1 else 0)
  }

  /** The call counters match the steps: a batch without documents calls
      neither service, a batch whose embedding failed calls only the
      embedder. */
  predicate Tallied(st: DirState)
  {
    st.embedCalls == EmbedCount(st.steps) && st.uploadCalls == UploadCount(st.steps)
  }

  /** `st` with one more finished batch; each counter of calls grows by
      the calls that batch made. */
  function Finish(st: DirState, step: BatchStep): (r: DirState)
    ensures r.steps == st.steps + [step]
    ensures EmbedCount(r.steps) == EmbedCount(st.steps) + (if step.NoDocuments? then 0 else 1)
    ensures UploadCount(r.steps) == UploadCount(st.steps) + (if step.Uploaded? || step.UploadSkipped? then 1 else 0)
  {
    assert (st.steps + [step])[..|st.steps|] == st.steps;
    st.(steps := st.steps + [step])
  }

  /** Uploading the embedded records of one batch: a failure stops the run
      unless errors are skipped. */
  function UploadBatch(p: Pipeline, w: World, embedded: seq<Record>, st: DirState): (r: DirRun)
    ensures st.steps <= r.state.steps && |r.state.steps| <= |st.steps| + 1
    ensures r.error.None? ==> |r.state.steps| == |st.steps| + 1
    ensures r.error.None? && st.embedCalls == EmbedCount(st.steps) + 1 && st.uploadCalls == UploadCount(st.steps) ==> Tallied(r.state)
    ensures p.skipErrors ==> r.error.None?
    ensures r.error.Some? ==> r.state.steps == st.steps
    ensures var uo := UpsertToQdrant(w.store(st.uploadCalls), w.uuid, embedded, st.metrics);
            && (uo.run.outcome.Failure? && !p.skipErrors ==> r.error == Some(uo.run.outcome.error))
            && (uo.run.outcome.Failure? && p.skipErrors ==> r.state.steps == st.steps + [UploadSkipped(uo.run.outcome.error)])
            && (uo.run.outcome.Success? ==> r.error.None? && r.state.steps == st.steps + [Uploaded(|embedded|)])
  {
    var uo := UpsertToQdrant(w.store(st.uploadCalls), w.uuid, embedded, st.metrics);
    var st2 := st.(uploadCalls := st.uploadCalls + 1, metrics := uo.metrics);
    match uo.run.outcome
    case Failure(e) =>
      if p.skipErrors then DirRun(None, Finish(st2, UploadSkipped(e))) else DirRun(Some(e), st2)
    case Success(n) => DirRun(None, Finish(st2, Uploaded(n)))
  }

  /** Embedding and then uploading the non-empty records of one batch. */
  function EmbedBatchStep(p: Pipeline, w: World, docs: seq<Record>, st: DirState): (r: DirRun)
    ensures st.steps <= r.state.steps && |r.state.steps| <= |st.steps| + 1
    ensures r.error.None? ==> |r.state.steps| == |st.steps| + 1
    ensures r.error.None? && Tallied(st) ==> Tallied(r.state)
    ensures p.skipErrors ==> r.error.None?
    ensures r.error.Some? ==> r.state.steps == st.steps
    ensures r.error.None? ==> !r.state.steps[|st.steps|].NoDocuments?
    ensures var c := st.embedCalls;
            var eo := EmbedDocuments(w.embedder(c), st.cache, w.digest, w.writes(c), docs, st.metrics);
            && (eo.docs.Failure? && !p.skipErrors ==> r.error == Some(eo.docs.error))
            && (eo.docs.Failure? && p.skipErrors ==> r.state.steps == st.steps + [EmbedSkipped(eo.docs.error)])
            && (eo.docs.Success? ==>
                  var uo := UpsertToQdrant(w.store(st.uploadCalls), w.uuid, eo.docs.value, eo.metrics);
                  && (uo.run.outcome.Failure? && !p.skipErrors ==> r.error == Some(uo.run.outcome.error))
                  && (uo.run.outcome.Success? ==> r.error.None? && r.state.steps == st.steps + [Uploaded(|docs|)]))
  {
    var c := st.embedCalls;
    var eo := EmbedDocuments(w.embedder(c), st.cache, w.digest, w.writes(c), docs, st.metrics);
    var st1 := st.(embedCalls := c + 1, cache := eo.cache, metrics := eo.metrics);
    match eo.docs
    case Failure(e) =>
      if p.skipErrors then DirRun(None, Finish(st1, EmbedSkipped(e))) else DirRun(Some(e), st1)
    case Success(embedded) => UploadBatch(p, w, embedded, st1)
  }

  /** One file batch: processing its files, then, when it yields records,
      embedding and uploading them. */
  function RunBatch(p: Pipeline, w: World, category: String, batch: seq<SourceFile>, st: DirState): (r: DirRun)
    ensures st.steps <= r.state.steps && |r.state.steps| <= |st.steps| + 1
    ensures r.error.None? ==> |r.state.steps| == |st.steps| + 1
    ensures r.error.None? && Tallied(st) ==> Tallied(r.state)
    ensures p.skipErrors ==> r.error.None?
    ensures r.error.Some? ==> r.state.steps == st.steps
    ensures var f := ProcessFiles(p, w.load, batch, category, st.metrics);
            && (f.records.Failure? ==> r.error == Some(f.records.error))
            && (f.records == Success([]) ==> r.error.None? && r.state.steps == st.steps + [NoDocuments])
            && (r.error.None? ==> (r.state.steps[|st.steps|].NoDocuments? <==> f.records == Success([])))
    ensures !p.skipErrors && (exists i :: 0 <= i < |batch| && DocRecords(p, w.load, batch[i], category).Failure?) ==>
              r.error.Some?
  {
    var files := ProcessFiles(p, w.load, batch, category, st.metrics);
    match files.records
    case Failure(e) => DirRun(Some(e), st.(metrics := files.metrics))
    case Success(docs) =>
      if |docs| == 0 then DirRun(None, Finish(st.(metrics := files.metrics), NoDocuments))
      else EmbedBatchStep(p, w, docs, st.(metrics := files.metrics))
  }

  /** The loop over file batches from batch `k` on. */
  function IngestBatches(p: Pipeline, w: World, category: String, batches: seq<seq<SourceFile>>, k: nat, st: DirState): (r: DirRun)
    requires k <= |batches| && Tallied(st)
    ensures st.steps <= r.state.steps
    ensures r.error.None? ==> |r.state.steps| == |st.steps| + (|batches| - k) && Tallied(r.state)
    ensures r.error.Some? ==> |r.state.steps| < |st.steps| + (|batches| - k)
    ensures p.skipErrors ==> r.error.None?
    ensures k < |batches| && RunBatch(p, w, category, batches[k], st).error.Some? ==> r == RunBatch(p, w, category, batches[k], st)
    decreases |batches| - k
  {
    if k == |batches| then DirRun(None, st)
    else
      var b := RunBatch(p, w, category, batches[k], st);
      if b.error.Some? then b
      else Continue(p, w, category, batches, k, b.state, st)
  }

  /** The rest of the loop after batch `k` finished as `next`. */
  function Continue(p: Pipeline, w: World, category: String, batches: seq<seq<SourceFile>>, k: nat, next: DirState, st: DirState): (r: DirRun)
    requires k < |batches| && Tallied(next)
    requires st.steps <= next.steps && |next.steps| == |st.steps| + 1
    ensures st.steps <= r.state.steps
    ensures r.error.None? ==> |r.state.steps| == |st.steps| + (|batches| - k) && Tallied(r.state)
    ensures r.error.Some? ==> |r.state.steps| < |st.steps| + (|batches| - k)
    ensures p.skipErrors ==> r.error.None?
    decreases |batches| - k, 0
  {
    IngestBatches(p, w, category, batches, k + 1, next)
  }

  /** `ingest_directory`: with no files found nothing is processed,
      embedded or uploaded; otherwise each file batch is processed,
      embedded and uploaded in turn. Under `skip_errors` the run always
      completes, one step per batch. */
  function IngestDirectory(p: Pipeline, w: World, cache: Option<Cache.DiskCache<Embedding.Vector>>,
                           batches: seq<seq<SourceFile>>, category: String, m: Metrics): (r: DirRun)
    ensures |Flatten(batches)| == 0 ==> r == DirRun(None, DirState([], 0, 0, cache, m))
    ensures r.error.None? && |Flatten(batches)| > 0 ==> |r.state.steps| == |batches|
    ensures r.error.None? ==> Tallied(r.state)
    ensures p.skipErrors ==> r.error.None?
    ensures |Flatten(batches)| > 0 ==> (r.error.None? <==> |r.state.steps| == |batches|)
    ensures |Flatten(batches)| > 0 && |batches| > 0 && RunBatch(p, w, category, batches[0], DirState([], 0, 0, cache, m)).error.Some? ==>
              r == RunBatch(p, w, category, batches[0], DirState([], 0, 0, cache, m))
  {
    var st := DirState([], 0, 0, cache, m);
    if |Flatten(batches)| == 0 then DirRun(None, st)
    else IngestBatches(p, w, category, batches, 0, st)
  }
}
