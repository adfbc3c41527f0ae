# RAG ingestion pipeline: a Dafny model of its core

The system is a document ingestion pipeline for a retrieval-augmented chat
service. It works in these steps:

1. It loads a file and cleans the text. There is a PDF line filter and a general whitespace normaliser.
2. It extracts base metadata: word and character counts, a title guess and a summary.
3. It cuts the text into chunks. A sentence segmenter ladder runs first: spaCy, then NLTK, then a regular expression. A greedy assembler turns the sentences into size-bounded chunks with an optional overlap. With sentence splitting off, fixed character windows are used instead.
4. It picks a category by keyword score.
5. It builds one record per chunk.
6. It embeds the records through an Azure OpenAI client. The client has a retry loop, a request-rate window and per-batch degradation.
7. A disk cache keyed by the text's digest sits in front of the embedder.
8. It uploads the points to Qdrant in batches of 500.

A directory run repeats this per file batch. Its `skip_errors` switch decides whether a failure aborts the run or only skips that batch.

This project models that core as pure Dafny functions over immutable data. Strings are `seq<char>`. Every foreign call is a parameter:

| Foreign call | Modelled as |
|---|---|
| spaCy and NLTK segmenters | `String -> Option<seq<String>>`, where `None` means the library raised |
| BeautifulSoup cleaner | `String -> String` |
| HTTP endpoint | a script `(post number, payload) -> Reply` |
| clock | `nat -> real`, indexed by how many times it has been read |
| Qdrant upsert | `(call number, points) -> Option<error>` |
| md5 and uuid5 | `String -> String` |
| each cache file write | a `WriteOutcome` |

Sleeps are not performed but recorded in a trace, so the retry and rate-window promises are statements about the trace.

Modules:

| Module | Models |
|---|---|
| `Wrappers` | Option/Result |
| `Seqs` | sequence helpers (Flatten, subsequence) |
| `Text` | Python `str` behaviour: `isspace`, `strip`, `split`, `lower`, `in`, `str(int)`, negative-index slicing |
| `Batching`, `Retry`, `Cache`, `Performance`, `SafeName` | `src/utils/helpers.py` |
| `Cleaner` | text cleaning in `config/document_cleaner_enhanced.py` |
| `WordsKept`, `CleanWords` | which whitespace edits keep `str.split()`, and that the cleaner keeps the words |
| `CleanLines` | that the cleaner keeps the line structure |
| `Sentences` | spaCy batch slicing and the regex splitter |
| `Assembly` | `_build_chunks_from_sentences` |
| `CharChunks` | `_chunk_by_chars` |
| `Chunking` | the ladder and the CJK heuristic |
| `Embedding` | `src/azure_embedding.py` |
| `Settings` | `config/settings.py` |
| `Ingest` | `src/ingest_qdrant_v2.py` |

## Model

| member | source | states |
|---|---|---|
| Batching.BatchIterator | src/utils/helpers.py:350-369 | For a positive size, the batches concatenate back to the items. Every batch is non-empty and at most `size` long, and all but the last are exactly `size` long. The batch count is the ceiling of n/size: `(count-1)*size < n <= count*size`. A negative size yields no batches. |
| Retry.RetryOnFailure | src/utils/helpers.py:21-75 | The wrapper makes at most `max_retries` calls. The first successful result is returned unchanged, and every earlier call raised a caught exception. A failure is the exception of the last call, re-raised: that call raised an exception outside `exceptions`, or it was the last of `max_retries` attempts. There is exactly one sleep fewer than calls. The sleeps start at `delay` and grow by `backoff`. With `max_retries <= 0` nothing is called and `raise None` fails. |
| Retry.SleepSchedule | src/utils/helpers.py:55-70 | The k-th sleep lasts `delay * backoff^k`. |
| Retry.AlwaysFailing | src/utils/helpers.py:45-72 | If every call raises a caught exception, the wrapper makes exactly `max_retries` calls and `max_retries - 1` sleeps, then re-raises the last exception. |
| Cache.Get | src/utils/helpers.py:288-301 | A value comes back exactly when the digest's file exists and unpickles. Missing and unreadable entries give `None` and never raise. |
| Cache.Set | src/utils/helpers.py:303-312 | A successful write stores the value under the text's digest. A failed open changes nothing. A failed dump leaves an unreadable file. No other key is touched. |
| Cache.GetAfterSet | src/utils/helpers.py:284-310 | After a successful `set(t, v)`, `get(t)` returns `v`. |
| Cache.LastWriteWins | src/utils/helpers.py:303-310 | Two successful sets of the same text leave the cache as the second set alone would. |
| Cache.SetIsolated | src/utils/helpers.py:284-312 | A set does not change what `get` returns for a text with a different digest. |
| Cache.FailedSetReadsMissing | src/utils/helpers.py:293-312 | After a write whose dump failed, `get` of that text returns `None`. |
| Cache.SharedKey | src/utils/helpers.py:284-286 | The key depends only on the text's digest, so two texts with the same digest share an entry. |
| Performance.Create | src/utils/helpers.py:180-183 | Every counter starts at 0 and every timing list is empty. |
| Performance.Increment | src/utils/helpers.py:195-197 | The named counter grows by `value`. Other counters and all timings are unchanged. |
| Performance.SetCounter | src/utils/helpers.py:199-201 | The named counter becomes `value`. Other counters and all timings are unchanged. |
| Performance.Reset | src/utils/helpers.py:255-259 | Every counter reads 0, every timing list is empty, and the start time is the current time. |
| Performance.RecordTiming | src/utils/helpers.py:186-193 | The elapsed time is appended to that name's timings. No other timing list and no counter changes. |
| Performance.IncrementsCommute | src/utils/helpers.py:195-197 | Increments of any two counters can be applied in either order. |
| Performance.SetCounterOverwrites | src/utils/helpers.py:199-201 | `set_counter` after `increment` leaves exactly the value that was set. |
| SafeName.SafeFilename | src/utils/helpers.py:443-464 | The output contains none of `<>:"/\|?*`. A sanitised name that fits is returned as is. A truncated one is the stem cut to `max_length - len(suffix)` characters followed by the whole suffix. When the suffix fits, it is exactly `max_length` long. When the suffix alone is too long, the negative slice bound keeps all but `len(suffix) - max_length` characters of the stem, or none. |
| SafeName.FitsUnchanged | src/utils/helpers.py:456-464 | A safe name no longer than `max_length` is returned unchanged. |
| SafeName.Idempotent | src/utils/helpers.py:443-464 | When the suffix fits, applying `safe_filename` to its own output changes nothing. |
| SafeName.StemSuffix | src/utils/helpers.py:460 | The stem and the suffix together give back the file name. |
| Cleaner.CleanPdf | config/document_cleaner_enhanced.py:142-169 | The output is empty exactly when no line is kept. Otherwise its lines are exactly the kept lines. |
| Cleaner.KeepLines | config/document_cleaner_enhanced.py:147-167 | The kept lines are an in-order subsequence of the input. Each passes every filter: non-empty, long enough, not a page number, not a copyright line, not a rights notice. Every input line that passes all filters is kept. |
| Cleaner.KeepLinesCountsPassing | config/document_cleaner_enhanced.py:147-167 | There are as many kept lines as input positions whose line passes the filter, so a passing line that occurs twice is kept twice. |
| Cleaner.CleanPdfLines | config/document_cleaner_enhanced.py:142-169 | The output lines are an in-order subsequence of the stripped input lines. Each is stripped and passes every line filter. |
| Cleaner.CleanPdfKeeps | config/document_cleaner_enhanced.py:148-169 | A stripped input line that passes every filter appears among the output lines. |
| Cleaner.PageNumberMatches | config/document_cleaner_enhanced.py:153-154 | The page-number filter holds exactly for a digit run wrapped in optional dashes and spaces. |
| Cleaner.GeneralClean | config/document_cleaner_enhanced.py:171-183 | The output has no `\r` and no tab, and every line is stripped. The non-space characters are those of the input, in order. The words and the blank collapse are stated by `CleanWords.GeneralCleanWords` and `CleanWords.GeneralCleanBlanks`. The line structure is stated by `CleanLines.GeneralCleanLines` and the stage laws next to it. |
| Cleaner.GeneralCleanFixedPoint | config/document_cleaner_enhanced.py:171-183 | Text that is already normalised is left unchanged. |
| Cleaner.BlankLinesSurvive | config/document_cleaner_enhanced.py:175-181 | The newline collapse runs before line stripping, so whitespace-only lines can leave three newlines in a row. |
| Cleaner.CollapseNewlines | config/document_cleaner_enhanced.py:175 | No run of three newlines remains. Only newlines are removed, and a text without such runs is unchanged. That each run of three or more becomes exactly two is stated by `CleanLines.CollapseNewlinesRun`. |
| Cleaner.CleanText | config/document_cleaner_enhanced.py:111-123 | Whitespace-only input gives the empty string. Otherwise the output is stripped, has no `\r` or tab, and keeps the non-space characters of the format-specific pass. Word preservation and the blank collapse are stated by `CleanWords.CleanTextWords`. |
| Cleaner.CleanTextKeepsContent | config/document_cleaner_enhanced.py:111-123 | For plain text, cleaning removes whitespace only. |
| Cleaner.CleanTextFixedPoint | config/document_cleaner_enhanced.py:111-123 | Cleaning already-clean plain text changes nothing. |
| CleanWords.GeneralCleanWords | config/document_cleaner_enhanced.py:171-183 | `_general_clean` keeps the words: `split()` of the output equals `split()` of the input. |
| CleanWords.GeneralCleanBlanks | config/document_cleaner_enhanced.py:173-183 | The output of `_general_clean` holds no tab and never two spaces in a row. |
| CleanWords.CleanTextWords | config/document_cleaner_enhanced.py:111-123 | `clean_text` keeps the words of its format-specific pass, and for plain text the words of the input. Its output holds no tab and never two spaces in a row. |
| CleanWords.NormalizeNewlinesWords | config/document_cleaner_enhanced.py:173 | The line-ending replacements keep the words. |
| CleanWords.CollapseBlanksWords | config/document_cleaner_enhanced.py:174 | Collapsing space and tab runs keeps the words. |
| CleanWords.CollapseNewlinesWords | config/document_cleaner_enhanced.py:175 | Collapsing newline runs keeps the words. |
| CleanWords.StripLinesWords | config/document_cleaner_enhanced.py:180-181 | Stripping every line and rejoining keeps the words. |
| CleanLines.NormalizeNewlinesBreaks | config/document_cleaner_enhanced.py:173 | A CRLF, a CR not followed by LF, and an LF not preceded by CR each become exactly one LF. The text on either side is normalised on its own. |
| CleanLines.CollapseNewlinesRun | config/document_cleaner_enhanced.py:175 | A maximal run of `k` newlines becomes exactly `min(k, 2)` newlines. The text on either side is collapsed on its own. |
| CleanLines.CollapseBlanksLines | config/document_cleaner_enhanced.py:174 | The space-and-tab collapse works line by line: the lines of the result are the input lines, each with its blank runs collapsed. |
| CleanLines.GeneralCleanLines | config/document_cleaner_enhanced.py:171-183 | For text with no `\r` and no run of three newlines, `_general_clean` keeps the line count. Line k of the output is line k of the input with its blank runs collapsed and its ends stripped, and it has the same words. |
| WordsKept.WordsStrip | config/document_cleaner_enhanced.py:123 | `strip()` keeps the words. |
| WordsKept.WordsTrailing | config/document_cleaner_enhanced.py:123 | Whitespace at the end of a text adds no words. |
| WordsKept.WordsJoinSame | config/document_cleaner_enhanced.py:180-181 | Joining parts with the same words by a whitespace separator gives texts with the same words. |
| Cleaner.Title | config/document_cleaner_enhanced.py:203-210 | The title is absent exactly when none of the first 10 lines qualifies. Otherwise it is the first qualifying line among them, stripped: no earlier line qualifies. Its length is strictly between 10 and 200, and it does not start with a digit. |
| Cleaner.Summary | config/document_cleaner_enhanced.py:212-213 | If the whitespace-collapsed text is at most 200 characters, the summary is that text. Otherwise it is its first 200 characters followed by `...`. |
| Cleaner.ExtractBaseMetadata | config/document_cleaner_enhanced.py:197-214 | `source` is the given path and `char_count` is the text length. `word_count` is the number of whitespace-separated words, and it is 0 exactly when the text is blank. `title` is the first title line, as `Title` states, and `summary` is the text summary, as `Summary` states. |
| Sentences.RegexSentences | config/document_cleaner_enhanced.py:361-372 | The paired sentences concatenate back to the text exactly. Every sentence but the last is delimiter-free text followed by one whole delimiter match, so it ends in whitespace. The last sentence holds no match. A sentence after the first never opens with whitespace, because the match before it took the whole whitespace run. |
| Sentences.RegexSplit | config/document_cleaner_enhanced.py:363-365 | The capturing split alternates delimiter-free text with delimiter pieces, and the pieces concatenate back to the text. Each delimiter takes its whole whitespace run, so a text piece after a delimiter never opens with whitespace. |
| Sentences.SplitUnique | config/document_cleaner_enhanced.py:363-365 | Any split with that shape that concatenates back to the text is the one `RegexSplit` returns, so the contract fixes where the text is cut. |
| Sentences.SplitsEqual | config/document_cleaner_enhanced.py:363-365 | Two splits with that shape of the same text are equal: both cut first at the first match, and the first match takes its whole whitespace run. |
| Sentences.PairUp | config/document_cleaner_enhanced.py:366-370 | Sentence k is piece 2k followed by piece 2k+1. An odd last piece is the last sentence on its own. The concatenation is kept and the count is half the piece count, rounded up. |
| Sentences.PairedSentences | config/document_cleaner_enhanced.py:366-370 | Pairing the pieces of a greedy split gives delimited sentences, each ending in whitespace. The last sentence holds no match, and no sentence after the first opens with whitespace. |
| Sentences.SpacySentences | config/document_cleaner_enhanced.py:334-348 | The text is cut into slices of at most 100000 characters that concatenate back to it. The result exists exactly when the segmenter succeeds on every slice. It is then the segmenter's sentences of each slice, concatenated in slice order. |
| Sentences.SegmentAll | config/document_cleaner_enhanced.py:340-348 | The result exists exactly when every call succeeds, and it is the outputs of the calls concatenated in order. |
| Assembly.Step | config/document_cleaner_enhanced.py:381-404 | A blank sentence changes nothing. Otherwise the stripped sentence becomes the last piece of the open chunk. A chunk is emitted only when the open chunk closes, and only if it is at least `min_size` long. |
| Assembly.JoinsOpenChunk | config/document_cleaner_enhanced.py:385-387 | A sentence joins the open chunk when the chunk is empty or the new size stays within `chunk_size`. |
| Assembly.ClosesOpenChunk | config/document_cleaner_enhanced.py:388-401 | On overflow, the closed chunk is emitted only if it is long enough. The new chunk starts with the closed text's last `min(overlap, len)` characters, kept even when the closed chunk was dropped, or with the sentence alone when `overlap <= 0`. |
| Assembly.BuildChunks | config/document_cleaner_enhanced.py:375-412 | Every chunk, including the flushed last one, is at least `min_size` long. There are no more chunks than non-blank sentences. |
| Assembly.ChunksJoinToSentences | config/document_cleaner_enhanced.py:375-412 | Without overlap or size filter, the chunks joined by spaces equal the non-blank sentences joined by spaces. So sentences are never split, reordered or lost. |
| Assembly.EverySentenceKept | config/document_cleaner_enhanced.py:381-410 | Every non-blank sentence at least `min_size` long appears whole inside some chunk. |
| CharChunks.CharsLoop | config/document_cleaner_enhanced.py:415-432 | The loop as written, run with a step bound. Whenever it finishes, it returns exactly the corrected chunks, each at least `min_size` long and stripped. |
| CharChunks.CharsLoopDiverges | config/document_cleaner_enhanced.py:421-430 | When `0 < overlap < chunk_size` and the text is longer than the overlap, the as-written loop never finishes, whatever the step bound. |
| CharChunks.CharsLoopHangsOnExample | config/document_cleaner_enhanced.py:421-430 | With "abcdefghij", chunk size 5 and overlap 2, the as-written loop never finishes. |
| CharChunks.ChunkByChars | config/document_cleaner_enhanced.py:415-432 | Empty text gives no chunks. Otherwise the chunks are the stripped window slices, in window order, that are at least `min_size` long, and each is at most `chunk_size` long. |
| CharChunks.CharWindowsClosedForm | config/document_cleaner_enhanced.py:419-430 | Window k starts at `k*(chunk_size-overlap)` and ends `chunk_size` later, clipped to the text. Each window starts `overlap` before the previous one ended. When `0 <= overlap < chunk_size`, the last window ends at the end of the text. |
| CharChunks.ChunkByCharsWindows | config/document_cleaner_enhanced.py:419-432 | The chunks are the contributions of the windows concatenated in window order. Each window gives its stripped slice when that is long enough and nothing otherwise. |
| CharChunks.WindowStartIsProduct | config/document_cleaner_enhanced.py:419-430 | The start of window k is `k*(chunk_size-overlap)`. |
| CharChunks.LoopSomeAgrees | config/document_cleaner_enhanced.py:419-430 | Whenever the as-written loop ends, it has visited exactly the windows of the corrected loop. |
| CharChunks.CharsLoopAgreesWhenSafe | config/document_cleaner_enhanced.py:415-432 | Wherever the as-written loop ends, it returns exactly the corrected chunks. |
| Chunking.CjkCount | config/document_cleaner_enhanced.py:311-316 | The count is bounded by the length and is 0 exactly when no character is in the CJK block. |
| Chunking.ShortTextNotChinese | config/document_cleaner_enhanced.py:311-316 | A text of at most 50 characters is never taken for Chinese. |
| Chunking.ChooseModel | config/document_cleaner_enhanced.py:307-316 | "zh" picks the Chinese model and any other non-"auto" language the English one. "auto" picks Chinese exactly when the first 1000 characters hold more than 50 CJK ideographs. |
| Chunking.LadderSentences | config/document_cleaner_enhanced.py:307-331 | spaCy's sentences are used when it is installed and succeeds. Otherwise NLTK's are used when it is installed and succeeds. Otherwise the regex splitter's are used. |
| Chunking.SmartChunk | config/document_cleaner_enhanced.py:278-331 | Empty text, or text whose stripped length is below `min_chunk_size`, gives no chunks. Every chunk is at least `min_chunk_size` long. With sentences off, the result is the corrected character chunks. With sentences on, it is the assembled chunks of the ladder's sentences. |
| Chunking.RegexPathKeepsText | config/document_cleaner_enhanced.py:361-412 | On the regex path without overlap, the chunks joined by spaces equal the text's non-blank sentences joined by spaces. |
| Embedding.ValidateAndClean | src/azure_embedding.py:56-81 | The output is never empty and has no control character. It is at most 30000 characters and stripped. Blank input gives "empty". |
| Embedding.ValidateAndCleanFixedPoint | src/azure_embedding.py:66-81 | A non-empty, control-free, stripped text within the limit is returned unchanged. |
| Embedding.ValidateAndCleanIdempotent | src/azure_embedding.py:66-81 | Cleaning the cleaned text changes nothing. |
| Embedding.Attempts | src/azure_embedding.py:93-141 | There are at most `max_retries` POSTs and no more sleeps than POSTs. A success answers its payload after every earlier POST failed. With no attempts left the result is "Max retries exceeded". |
| Embedding.FirstSuccessWins | src/azure_embedding.py:93-117 | If the j-th POST is the first to succeed, the loop stops there with j+1 POSTs. |
| Embedding.PassesOn | src/azure_embedding.py:93-139 | Before the last attempt, a reply without vectors hands the outcome to the next attempt, one POST later. |
| Embedding.AllThrottledExhausts | src/azure_embedding.py:102-106 | A run of 429 replies without Retry-After uses every attempt, sleeps 10 seconds each time, and ends in "Max retries exceeded". |
| Embedding.RaisedBackoff | src/azure_embedding.py:133-139 | If every POST raises a non-HTTP exception, the k-th sleep lasts `2^(attempt+k)` seconds. There is none after the last attempt, whose exception propagates. |
| Embedding.HttpErrorsNoSleep | src/azure_embedding.py:122-131 | If every POST gets a non-429 HTTP error, the loop retries without sleeping and re-raises the last error. |
| Embedding.Gate | src/azure_embedding.py:177-184 | A window under 50 requests is left alone. A full window younger than 60 seconds causes one pause of exactly `60 - elapsed + 5` seconds. The new window then starts at the clock reading taken after the pause, with count 0. A full window that is 60 seconds old or older is not paused. As written it is also not reset; under the corrected policy it restarts. |
| Embedding.StaleWindowStaysOpen | src/azure_embedding.py:177-189 | As written, a full window older than 60 seconds is neither paused nor reset, and it stays stale for good. The corrected gate resets it. |
| Embedding.AsWrittenExceedsWindow | src/azure_embedding.py:177-195 | As written, a stale full window lets a first-try success push the request count past 50. |
| Embedding.EmbedAligned | src/azure_embedding.py:83-141 | When the endpoint answers one vector per input, a successful `embed` returns exactly one vector per text. |
| Embedding.ProcessBatch | src/azure_embedding.py:176-220 | A propagated error is never a rate-limit or bad-request message. A first-try success appends exactly the vectors returned and adds one request to the window. On success against a well-formed endpoint, the output grows by one slot per text, with the earlier output kept. Each slot holds a vector the endpoint returned for that text, or the zero vector. `failed_count` grows by at most the batch length. Under the corrected gate, the window stays within 50. |
| Embedding.ProcessBatchRoutes | src/azure_embedding.py:186-220 | There are four routes. (1) A first-try success: the gate pause, then the vectors, one request counted, and a 2-second pause. (2) A rate-limit error: a 30-second pause and one retry of the whole batch. The retry's vectors are appended, or zero vectors with one failure. (3) A bad-input error: one text at a time. (4) Any other error: the error itself. |
| Embedding.RetriedSlotted | src/azure_embedding.py:195-205 | The retry after a rate-limit error, against a well-formed endpoint, appends exactly one slot per text and keeps the earlier vectors. Each slot is the zero vector or the endpoint's vector for that text, and at most one failure is added. |
| Embedding.SingleText | src/azure_embedding.py:210-218 | One text gets exactly one slot, holding a vector the endpoint returned for it or the zero vector. At most one failure is counted. A text that is never answered gets the zero vector and a failure. A text that is always answered counts none. |
| Embedding.Singles | src/azure_embedding.py:207-218 | The per-text fallback appends one slot per text, in order, with the earlier output kept. Each slot holds that text's vector or the zero vector. At most one failure is counted per text, and the window is untouched. |
| Embedding.SinglesAllFail | src/azure_embedding.py:207-218 | If no text is ever answered, every slot is the zero vector and every text counts as a failure. |
| Embedding.SinglesNoneFail | src/azure_embedding.py:207-218 | If every text is always answered, no failure is counted. |
| Embedding.EmbedOneAnswers | src/azure_embedding.py:83-141 | A single-text `embed` that returns gives one vector, the endpoint's answer for that text's cleaned form. A text never answered fails. A text always answered succeeds. |
| Embedding.EmbedSlotted | src/azure_embedding.py:83-141 | A successful list `embed` against a well-formed endpoint gives, at position i, the vector returned for text i. |
| Embedding.ProcessBatches | src/azure_embedding.py:176-220 | Over the sub-batches, a run that returns against a well-formed endpoint has one slot per text of the concatenated batches, each holding that text's vector or the zero vector. No routed error escapes. |
| Embedding.RateLimitedBatch | src/azure_embedding.py:195-205 | If every post gets the same rate-limit error, one sub-batch is zero-filled and counted as one failure. |
| Embedding.RateLimitedZeroFills | src/azure_embedding.py:195-205 | If every post gets the same rate-limit error, each sub-batch, from any loop state, appends one zero vector per text and counts one failure. |
| Embedding.ZeroFilledBatches | src/azure_embedding.py:176-220 | When each remaining sub-batch is zero-filled on its own, the rest of the loop returns. It appends one zero vector per remaining text and counts one failure per remaining sub-batch. |
| Embedding.RateLimitedEverywhere | src/azure_embedding.py:143-225 | If every post gets the same rate-limit error, `embed_batch` still returns. It returns the zero vector for every text and one failure per sub-batch. |
| Embedding.EmbedBatch | src/azure_embedding.py:143-225 | If `embed_batch` returns with a positive batch size against a well-formed endpoint, output slot i belongs to text i: it is a vector the endpoint returned for that text, or the zero vector. There are at most as many failures as texts. A zero batch size raises the range error, and a negative one returns nothing. Under the corrected gate the window never exceeds 50. |
| Embedding.ExhaustedThrottlingAborts | src/azure_embedding.py:141-220 | If every POST is throttled, "Max retries exceeded" is not routed as a rate limit and aborts `embed_batch`. |
| Embedding.MaxRetriesNotRouted | src/azure_embedding.py:141-220 | "Max retries exceeded" contains neither a rate-limit marker nor a bad-request marker. |
| Settings.MatchScore | config/settings.py:84-90 | The score lies in [0, 1] and is 0 with no keywords. It is 0 exactly when no keyword hits, and 1 exactly when there are keywords and all of them hit. |
| Settings.HitsCountPositions | config/settings.py:89 | The generator's running count equals the number of keyword positions whose lowercase form occurs in the lowercased text. |
| Settings.ScoreIsShare | config/settings.py:84-90 | With keywords, the score is the number of keyword positions found case-insensitively in the text, divided by the keyword count. |
| Settings.ScoreExtremes | config/settings.py:84-90 | A score of 0 means no keyword occurs and a score of 1 means every keyword occurs, in both directions. |
| Settings.LoadCategories | config/settings.py:173-180 | The list is never empty. It is the configured list, or a single keywordless "general" when none is configured. |
| Settings.CategoryByName | config/settings.py:182-187 | The result is `None` exactly when no category has that name. Otherwise it is the first category with that name. |
| Settings.AutoCategorize | config/settings.py:189-203 | The call fails with an index error exactly when the list is empty. Otherwise the result is a member of the list. |
| Settings.EarliestBestWins | config/settings.py:191-198 | Among categories tied at the best score, the earliest one wins when it reaches the threshold. |
| Settings.BelowThresholdFallsBack | config/settings.py:200-203 | Below the threshold the result is the first category named "general", or the first category when there is none. |
| Settings.NoHitsPicksFirst | config/settings.py:191-198 | With a threshold of 0 or less and no keyword hits, the first category is returned. |
| Settings.DefaultCategorizesAll | config/settings.py:173-203 | With the default list, every text is categorised as "general". |
| Settings.ValidationErrors | config/settings.py:205-228 | Each of the five conditions holds exactly when its message is reported: empty host, port outside 1..65535, missing OpenAI key, chunk size below minimum, overlap not below chunk size. |
| Settings.Validate | config/settings.py:205-228 | The result is true exactly when none of the five conditions holds. |
| Settings.DefaultsNeedOnlyKey | config/settings.py:205-228 | The default configuration validates exactly when an API key is set. |
| Ingest.Extension | src/ingest_qdrant_v2.py:168 | The file type is the lower-cased suffix with its dot removed, so it contains no dot. |
| Ingest.RecordId | src/ingest_qdrant_v2.py:203 | The id is the stem, an underscore, then the decimal index. |
| Ingest.RecordIdInjective | src/ingest_qdrant_v2.py:203 | Within one stem, different indices give different ids. |
| Ingest.SameStemSameIds | src/ingest_qdrant_v2.py:200-214 | For any non-empty dot-free name s, `s.txt` and `s.md` both have stem s, so their records get the same ids position by position. |
| Ingest.StemOfDotted | src/ingest_qdrant_v2.py:203 | The stem of `s.e` is s when neither part holds a dot and s is not empty. |
| Ingest.Merge | src/ingest_qdrant_v2.py:206-211 | The merged keys are the union. The extracted metadata wins on shared keys, and the record's own fields are kept otherwise. |
| Ingest.MergedFields | src/ingest_qdrant_v2.py:173-214 | `source` ends up as the full path from extraction, not the bare file name. `chunk_index`, `total_chunks`, `category`, `file_type` and the counts are as set. |
| Ingest.BuildRecords | src/ingest_qdrant_v2.py:200-214 | There is one record per chunk, in order, with no vector. Record i has id `stem_i`, the i-th chunk as text, and `chunk_index` i out of `total_chunks`. |
| Ingest.CategoryFor | src/ingest_qdrant_v2.py:179-182 | A given category is used as is. Otherwise the result is the name of the category `auto_categorize` picks at its default threshold of 0.3. It fails exactly when that call fails, and the only possible error is the index error of an empty list. |
| Ingest.ProcessDocument | src/ingest_qdrant_v2.py:141-227 | Content under 10 characters gives no records. A load failure is the document's failure. A failure is counted in `documents_failed` and re-raised only without `skip_errors`. A non-empty result counts one processed document and one chunk per record, and its records carry the file's ids, chunk positions and full path. What the records hold is stated by `Ingest.ProcessDocumentRecords`. |
| Ingest.ProcessDocumentRecords | src/ingest_qdrant_v2.py:166-220 | For content of at least 10 characters: a failed category lookup is the document's failure. Otherwise there is one record per chunk of the cleaned text, record i holds chunk i, and each record carries the category. No chunks leave the metrics unchanged. |
| Ingest.Categorized | src/ingest_qdrant_v2.py:195-220 | One record per chunk, record i holding chunk i and the category. No chunks give no records and unchanged counters. Otherwise one processed document and one chunk per record are counted. |
| Ingest.DocChunks | src/ingest_qdrant_v2.py:166-193 | Every chunk of a file's cleaned text is at least `min_chunk_size` long. |
| Ingest.RecordsIgnoreMetrics | src/ingest_qdrant_v2.py:141-227 | The records of `process_document` do not depend on the counters it starts from. |
| Ingest.FileRecords | src/ingest_qdrant_v2.py:199-214 | There is one record per chunk: record i holds chunk i and the category. Its id and `chunk_index` are its position, `total_chunks` is the count, and `source` is the full path. |
| Ingest.ProcessFiles | src/ingest_qdrant_v2.py:389-393 | The loop succeeds exactly when every file's `process_document` succeeds. Its records are then the per-file records concatenated in file order. A failure is the error of one of the files. With `skip_errors` it never fails, and no files give no records and unchanged metrics. |
| Ingest.SplitByCache | src/ingest_qdrant_v2.py:241-255 | Hit and miss indices are increasing and disjoint, and together they cover every document. Hits have a cached vector and misses do not. Without a cache every document is a miss. |
| Ingest.SplitDisjoint | src/ingest_qdrant_v2.py:244-255 | No document index is both a hit and a miss. |
| Ingest.FillCached | src/ingest_qdrant_v2.py:257-259 | Each hit gets its cached vector, and every other record is unchanged. |
| Ingest.Assign | src/ingest_qdrant_v2.py:275-280 | The k-th new vector goes to the document at the k-th miss index, and the rest are untouched. |
| Ingest.StoreAllReadsBack | src/ingest_qdrant_v2.py:275-282 | After successful writes of texts with distinct digests, reading each text back gives its vector. |
| Ingest.AfterBatch | src/ingest_qdrant_v2.py:257-282 | Ids, texts and metadata are kept. Hits carry their cached vector and the k-th miss gets the k-th vector. With enough vectors, every record has one. |
| Ingest.EmbedDocuments | src/ingest_qdrant_v2.py:229-288 | Only the misses' texts are sent, in order. `cache_hits` grows by the number of hits. A failure implies there were misses. A success keeps the length, ids, texts and metadata, and hits carry their cached vectors. With a positive batch size and a well-formed endpoint, every record ends with a vector. Where each vector goes and what the cache holds is stated by `Ingest.EmbedDocumentsAssigns`. |
| Ingest.EmbedDocumentsAssigns | src/ingest_qdrant_v2.py:257-288 | With no miss, nothing fails and the cache is untouched. Otherwise a failure of `embed_batch` propagates with the cache untouched. On success the k-th miss gets the k-th vector returned, and the cache takes every (text, vector) pair in order. |
| Ingest.EmbedDocumentsCaches | src/ingest_qdrant_v2.py:274-282 | After a successful run whose cache writes all succeed, on misses with distinct digests, reading a miss's text from the cache gives the vector that miss received. |
| Ingest.EmbedMisses | src/ingest_qdrant_v2.py:262-287 | Exactly the misses' texts are sent, in record order, and `cache_hits` is untouched. On success, ids, texts, metadata and cached vectors are kept. With a positive batch size and a well-formed endpoint, every record ends with a vector. |
| Ingest.Embedded | src/ingest_qdrant_v2.py:274-282 | The k-th miss gets the k-th vector and the hits keep their cached vectors. With enough vectors every record has one. The cache takes every (text, vector) pair in order. |
| Ingest.ToPoints | src/ingest_qdrant_v2.py:303-312 | Points exist exactly when every record has a vector, and otherwise the result is the `'vector'` KeyError. Point i carries the uuid of record i's id, its vector, text and metadata. |
| Ingest.SameRecordsSameIds | src/ingest_qdrant_v2.py:305 | Records with the same ids get the same point ids. |
| Ingest.Upload | src/ingest_qdrant_v2.py:318-340 | On success, the batches sent are exactly the 500-point partition, and the total equals the point count. There is a 1-second sleep between batches only. A failure is the error of the last call. |
| Ingest.ReportedBatchesExact | src/ingest_qdrant_v2.py:318-320 | The logged count `(n-1)//500+1` equals the number of upload batches, 0 when n is 0. |
| Ingest.UpsertToQdrant | src/ingest_qdrant_v2.py:290-347 | A missing vector fails before anything is sent. On success, the batches sent are exactly the consecutive 500-point partition of the points, with the reported batch count, and `vectors_upserted` counts them. A failure leaves the metrics unchanged. |
| Ingest.RunBatch | src/ingest_qdrant_v2.py:389-414 | One file batch adds at most one step and keeps the earlier ones. An error that escapes adds none. A failing document escapes without `skip_errors`. A batch without records adds a no-documents step, and only such a batch does. Without an escaping error, the embed and upload call counts still match the steps. Under `skip_errors` nothing escapes. |
| Ingest.EmbedBatchStep | src/ingest_qdrant_v2.py:398-414 | An embedding failure escapes without `skip_errors` and is recorded as a skipped step with it. After an embedding success, an upload failure escapes without `skip_errors`, and an upload success records the uploaded count. |
| Ingest.UploadBatch | src/ingest_qdrant_v2.py:407-414 | An upload failure escapes without `skip_errors` and is recorded as a skipped step with it. A success records the uploaded count. An escaping error adds no step. |
| Ingest.IngestBatches | src/ingest_qdrant_v2.py:384-414 | The earlier steps are kept. A run without error records one step per batch, and its embed and upload call counts match the steps. A run with an error records fewer. An error from a batch's run ends the loop with that run's result. With `skip_errors` no error escapes. |
| Ingest.IngestDirectory | src/ingest_qdrant_v2.py:349-414 | No files means no steps, no calls and unchanged metrics. Otherwise the run is error-free exactly when it records one step per file batch, and the call counts then match the steps. An error in the first batch ends the run there. With `skip_errors` no error escapes. |

## Left out

- **Library calls.** These are parameters, not models:
  - the spaCy and NLTK segmenters;
  - BeautifulSoup `_clean_html`;
  - chardet-based `load_file_with_encoding`, whose result is an input `Result<String, String>`;
  - md5, uuid5 and pickle;
  - HTTP and the Qdrant client.
- **Entity and keyword extraction** in `extract_metadata_enhanced`. They are spaCy-driven; only the base fields are modelled.
- **`remove_patterns`** in `_general_clean`. It is modelled with an empty pattern list, since the patterns are caller-supplied regexes.
- **Unicode case folding.** Case folding is ASCII only and `\d` matches ASCII digits only. Python's IGNORECASE and `lower()` also fold non-ASCII letters.
- Cleaner.Title: `str.isdigit` is modelled as the ASCII digits '0' to '9'. Python's `isdigit` is also true for other digit characters such as '１', '²' and '٣', so a line opening with one of those is a title here but not in Python.
- **Sleeps, the clock and logging.** Sleeps are recorded, not performed. The clock is an input. Logging, progress bars, `print_stats` and `print_config` are left out.
- **Configuration plumbing.** YAML and environment loading, the `__post_init__` overrides and the `get_settings` singleton are not modelled. `Settings.Validate` takes the configuration values directly.
- **Filesystem work.** `file_batch_iterator` globbing is not modelled: `Ingest.IngestDirectory` takes the file batches as input. `DiskCache.clear/size/count/stats` and `get_file_hash` are left out too.
- **Floating point.** `match_score` is computed in exact reals, which can differ from binary floats only on ties closer than a rounding error. Timing statistics are not modelled.
- **Timings.** Timer calls in `ingest_qdrant_v2.py` are not recorded. The counters are.
- **No category.** A missing `category` argument is written as the empty string.
- Batching.BatchIterator: requires a non-zero size. Python's `range(0, n, 0)` raises, and that error is modelled where it is reachable, in `Embedding.EmbedBatch`.
- Embedding.ProcessBatch: requires a non-empty batch, which is all that `batch_iterator` ever yields.
- Embedding.Attempts: a non-429 HTTP error stands for `str(e)` by a message carried in the reply.
- Embedding.EmbedAligned: a single-text `embed` is modelled as the first vector of the reply. The 3072-wide zero placeholder is a fixed vector constant. Its width is not checked against the reply.
- Chunking.SmartChunk: with sentence splitting off, the corrected `CharChunks.ChunkByChars` stands in for `_chunk_by_chars`. The source loop never returns when `0 < overlap < chunk_size` and the text is longer than the overlap, which includes the default 800/150 (`CharChunks.CharsLoopDiverges`). On those inputs `SmartChunk`, `Ingest.ProcessDocument` and `Ingest.IngestDirectory` return chunks where the program would hang.
- Cleaner.GeneralClean: its own ensures state only the removed characters and stripped lines. Word preservation and the blank collapse are proved about it in `CleanWords`. The line structure is proved in `CleanLines`. Both modules need the stage functions and so come after `Cleaner`. The same holds for `Cleaner.CleanText`.
- CleanLines.GeneralCleanLines: the line-for-line statement assumes no `\r` and no run of three newlines in the input. Other inputs are covered only stage by stage, by `NormalizeNewlinesBreaks` and `CollapseNewlinesRun`, which say how their line count changes. No lemma states the line structure of `Cleaner.CleanText`. Its final `strip()` also removes blank lines at either end.
- CharChunks.CharsLoop: the as-written loop runs with a step bound (fuel). `None` means the bound ran out, and `CharChunks.CharsLoopDiverges` shows that no bound suffices on the divergent inputs.

## Findings

| source | as written | input that shows it | evidently intended | confidence | as-written member | corrected member |
|---|---|---|---|---|---|---|
| config/document_cleaner_enhanced.py:421-430 | `start = end - overlap`, with the loop leaving only when `start >= len(text)`, so once a window reaches the end of the text `start` becomes `len - overlap` again and again | "abcdefghij", chunk_size 5, overlap 2: windows [0,5), [3,8), [6,10), then [8,10) forever | stop after the window that reaches the end of the text | not executed | CharChunks.CharsLoopDiverges | CharChunks.ChunkByChars |
| src/azure_embedding.py:177-189 | the window resets only inside `if elapsed < 60`, so a window that reached 50 requests after 60 seconds or more is never reset and the limiter stays off | request_count 50 with the window opened 61 seconds ago: no pause and no reset, and the next success makes the count 51 | reset the window whenever it is full, pausing only when it is younger than 60 seconds | not executed | Embedding.AsWrittenExceedsWindow | Embedding.EmbedBatch |
