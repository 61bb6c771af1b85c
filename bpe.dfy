/** The trained tokenizer model and its reserved marker strings (bpe.go). */
module Bpe {

  /** `BPE` (bpe.go:14-17): the vocabulary as a membership set and the longest token
      length in bytes that the encoder tries. The value is never changed after it is built. */
  datatype Model = Model(maxTokenLength: int, vocab: set<string>)

  /** The reserved strings `BeginOfWord`, `EndOfWord`, `BeginOfSentence`, `EndOfSentence`
      and `UnknownToken`. Their definitions are not part of this model, so they are
      parameters; the usual ones are `<w>`, `</w>`, `<s>` and `</s>`. */
  datatype Markers = Markers(
    beginOfWord: string,
    endOfWord: string,
    beginOfSentence: string,
    endOfSentence: string,
    unknown: string)
  {
    /** Every marker is non-empty and the five are pairwise distinct. */
    predicate Valid() {
      && beginOfWord != [] && endOfWord != [] && beginOfSentence != []
      && endOfSentence != [] && unknown != []
      && |{beginOfWord, endOfWord, beginOfSentence, endOfSentence, unknown}| == 5
    }

    /** `BeginOfWord + word + EndOfWord` (bpe.go:52). */
    function Wrap(word: string): (w: string)
      ensures |w| == |beginOfWord| + |word| + |endOfWord|
    {
      beginOfWord + word + endOfWord
    }
  }

  /** The word and sentence markers that the repository's examples print,
      with a caller-chosen unknown marker. */
  function AngleMarkers(unknown: string): (mk: Markers)
  {
    Markers("<w>", "</w>", "<s>", "</s>", unknown)
  }
}
