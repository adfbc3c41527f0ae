/** `smart_chunk_text_enhanced` of the document cleaner: the ladder of
    sentence sources (spaCy, then NLTK, then the regular expression) that
    feeds `_build_chunks_from_sentences`, and plain character windows when
    sentence boundaries are not respected. */
module Chunking {

  import opened Wrappers
  import opened Seqs
  import opened Text
  import opened Sentences
  import opened Assembly
  import opened CharChunks

  /** Which optional libraries loaded. spaCy is usable only with both of
      its models (Chinese and English); NLTK brings `sent_tokenize`. */
  datatype Nlp = Nlp(spacy: Option<SpacyModels>, nltk: Option<Segmenter>)
  datatype SpacyModels = SpacyModels(zh: Segmenter, en: Segmenter)

  /** The class `[一-鿿]`: CJK unified ideographs. */
  predicate IsCjk(c: char)
  {
    '\U{4E00}' <= c <= '\U{9FFF}'
  }

  function CjkCount(s: String): (n: nat)
    ensures n <= |s|
    ensures n == 0 <==> forall i :: 0 <= i < |s| ==> !IsCjk(s[i])
  {
    if |s| == 0 then 0
    else
      var rest := CjkCount(s[..|s| - 1]);
      assert forall i :: 0 <= i < |s| - 1 ==> s[..|s| - 1][i] == s[i];
      rest + (if IsCjk(s[|s| - 1]) then 1 else 0)
  }

  /** The language heuristic: more than 50 CJK ideographs among the
      first 1000 characters. */
  predicate LooksChinese(text: String)
  {
    CjkCount(PySlice(text, 0, 1000)) > 50
  }

  /** A text with at most 50 characters is never taken for Chinese. */
  lemma {:induction false} ShortTextNotChinese(text: String)
    requires |text| <= 50
    ensures !LooksChinese(text)
  {
    assert |PySlice(text, 0, 1000)| <= |text|;
  }

  /** The spaCy model `language` selects: 'auto' decides by the heuristic,
      'zh' picks the Chinese model and anything else the English one. */
  function ChooseModel(models: SpacyModels, language: String, text: String): (nlp: Segmenter)
    ensures language == "zh" ==> nlp == models.zh
    ensures language != "zh" && language != "auto" ==> nlp == models.en
    ensures language == "auto" ==> nlp == (if LooksChinese(text) then models.zh else models.en)
  {
    if language == "auto" then (if LooksChinese(text) then models.zh else models.en)
    else if language == "zh" then models.zh
    else models.en
  }

  /** The sentences of the first rung of the ladder that does not raise. */
  function LadderSentences(text: String, language: String, nlp: Nlp): (ss: seq<String>)
    ensures nlp.spacy.Some? && SpacySentences(text, ChooseModel(nlp.spacy.value, language, text)).Some? ==>
              ss == SpacySentences(text, ChooseModel(nlp.spacy.value, language, text)).value
    ensures (nlp.spacy.None? || SpacySentences(text, ChooseModel(nlp.spacy.value, language, text)).None?) ==>
              ss == (if nlp.nltk.Some? && nlp.nltk.value(text).Some? then nlp.nltk.value(text).value
                     else RegexSentences(text))
  {
    var fromSpacy := if nlp.spacy.Some? then SpacySentences(text, ChooseModel(nlp.spacy.value, language, text)) else None;
    if fromSpacy.Some? then fromSpacy.value
    else if nlp.nltk.Some? && nlp.nltk.value(text).Some? then nlp.nltk.value(text).value
    else RegexSentences(text)
  }

  /** `smart_chunk_text_enhanced(text, chunk_size, overlap, min_chunk_size,
      respect_sentence, language)`. */
  function SmartChunk(text: String, chunkSize: int, overlap: int, minSize: int, respectSentence: bool,
                      language: String, nlp: Nlp): (chunks: seq<String>)
    ensures |text| == 0 || |Strip(text)| < minSize ==> chunks == []
    ensures forall k :: 0 <= k < |chunks| ==> |chunks[k]| >= minSize
    ensures !respectSentence && |text| > 0 && |Strip(text)| >= minSize ==>
              chunks == ChunkByChars(text, chunkSize, overlap, minSize)
    ensures respectSentence && |text| > 0 && |Strip(text)| >= minSize ==>
              chunks == BuildChunks(LadderSentences(text, language, nlp), chunkSize, overlap, minSize)
  {
    if |text| == 0 || |Strip(text)| < minSize then []
    else if !respectSentence then ChunkByChars(text, chunkSize, overlap, minSize)
    else BuildChunks(LadderSentences(text, language, nlp), chunkSize, overlap, minSize)
  }

  /** With no NLP library at all, no overlap and `min_size <= 1`, the
      sentence path loses nothing: the chunks joined by spaces are the
      stripped non-blank regex sentences joined by spaces. */
  lemma {:induction false} RegexPathKeepsText(text: String, chunkSize: int, overlap: int, minSize: int, language: String)
    requires overlap <= 0 && minSize <= 1 && |Strip(text)| >= minSize && |text| > 0
    ensures Join(SmartChunk(text, chunkSize, overlap, minSize, true, language, Nlp(None, None)), ' ')
            == Join(NonBlank(RegexSentences(text)), ' ')
  {
    ChunksJoinToSentences(RegexSentences(text), chunkSize, overlap, minSize);
  }
}
