/** Greedy longest-match encoding of words and sentences (bpe.go:41-77). */
module Encoding {
  import opened Text
  import opened Bpe

  /** Where the candidate window that starts at `p` ends: the end of the word, or
      `maxTokenLength` bytes further when the word is longer (bpe.go:57-61). */
  function WindowEnd(m: Model, w: string, p: nat): (hi: nat)
    requires m.maxTokenLength >= 0 && p <= |w|
    ensures p <= hi <= |w|
    ensures hi - p == if |w| - p > m.maxTokenLength then m.maxTokenLength else |w| - p
  {
    if |w| - p > m.maxTokenLength then p + m.maxTokenLength else |w|
  }

  /** No slice `w[p..e]` with `lo < e <= hi` is a vocabulary token. */
  ghost predicate NoMatchIn(vocab: set<string>, w: string, p: nat, lo: nat, hi: nat)
    requires p <= lo && hi <= |w|
  {
    forall e :: lo < e <= hi ==> w[p..e] !in vocab
  }

  /** The end of the longest vocabulary slice `w[p..e]` with `p < e <= hi`, or `p` when
      no non-empty slice in that range is in the vocabulary: the inner loop of
      bpe.go:63-72, which shrinks the candidate one byte at a time. */
  function LongestMatchEnd(vocab: set<string>, w: string, p: nat, hi: nat): (e: nat)
    requires p <= hi <= |w|
    ensures p <= e <= hi
    ensures e > p ==> w[p..e] in vocab
    ensures NoMatchIn(vocab, w, p, e, hi)
    decreases hi
  {
    if hi == p then p
    else if w[p..hi] in vocab then hi
    else LongestMatchEnd(vocab, w, p, hi - 1)
  }

  /** The tokens that the scan of `w` from offset `p` appends (bpe.go:56-76): the longest
      match at `p` and a jump past it, or the unknown marker and a one-byte step. */
  function GreedyFrom(m: Model, unknown: string, w: string, p: nat): (ts: seq<string>)
    requires m.maxTokenLength >= 0 && p <= |w|
    decreases |w| - p
  {
    if p == |w| then []
    else
      var e := LongestMatchEnd(m.vocab, w, p, WindowEnd(m, w, p));
      if e == p then [unknown] + GreedyFrom(m, unknown, w, p + 1)
      else [w[p..e]] + GreedyFrom(m, unknown, w, e)
  }

  /** The tokens `encodeWord` appends for `word`. */
  function WordTokens(m: Model, mk: Markers, word: string): seq<string>
    requires m.maxTokenLength >= 0
  {
    GreedyFrom(m, mk.unknown, mk.Wrap(word), 0)
  }

  /** `encodeWord` (bpe.go:51-77): appends the greedy tokenization of the marker-wrapped
      word to `target`; what `target` already held is kept as it was. A negative
      `maxTokenLength` makes the slice at bpe.go:64 panic, hence the precondition. */
  method EncodeWord(m: Model, mk: Markers, target: seq<string>, word: string) returns (out: seq<string>)
    requires m.maxTokenLength >= 0
    ensures out == target + WordTokens(m, mk, word)
  {
    var w := mk.beginOfWord + word + mk.endOfWord;
    var tokenStart := 0;
    out := target;
    label TokenLoop:
    while tokenStart < |w|
      invariant tokenStart <= |w|
      invariant out + GreedyFrom(m, mk.unknown, w, tokenStart) == target + WordTokens(m, mk, word)
      decreases |w| - tokenStart
    {
      var tokenEnd := |w|;
      if tokenEnd - tokenStart > m.maxTokenLength {
        tokenEnd := tokenStart + m.maxTokenLength;
      }
      ghost var hi := tokenEnd;
      while tokenEnd != tokenStart
        invariant tokenStart <= tokenEnd <= hi == WindowEnd(m, w, tokenStart)
        invariant LongestMatchEnd(m.vocab, w, tokenStart, hi) == LongestMatchEnd(m.vocab, w, tokenStart, tokenEnd)
        decreases tokenEnd
      {
        var token := w[tokenStart..tokenEnd];
        if token in m.vocab {
          assert GreedyFrom(m, mk.unknown, w, tokenStart) == [token] + GreedyFrom(m, mk.unknown, w, tokenEnd);
          assert out + GreedyFrom(m, mk.unknown, w, tokenStart) == (out + [token]) + GreedyFrom(m, mk.unknown, w, tokenEnd);
          out := out + [token];
          tokenStart := tokenStart + |token|;
          continue TokenLoop;
        }
        tokenEnd := tokenEnd - 1;
      }
      assert GreedyFrom(m, mk.unknown, w, tokenStart) == [mk.unknown] + GreedyFrom(m, mk.unknown, w, tokenStart + 1);
      assert out + GreedyFrom(m, mk.unknown, w, tokenStart) == (out + [mk.unknown]) + GreedyFrom(m, mk.unknown, w, tokenStart + 1);
      out := out + [mk.unknown];
      tokenStart := tokenStart + 1;
    }
  }

  /** The tokens of a list of words, word after word. */
  function WordsTokens(m: Model, mk: Markers, words: seq<string>): seq<string>
    requires m.maxTokenLength >= 0
  {
    if words == [] then []
    else WordsTokens(m, mk, words[..|words| - 1]) + WordTokens(m, mk, words[|words| - 1])
  }

  /** The tokens `encodeSentence` appends for `sentence`. */
  function SentenceTokens(m: Model, mk: Markers, sentence: string): seq<string>
    requires m.maxTokenLength >= 0
  {
    [mk.beginOfSentence] + WordsTokens(m, mk, Fields(sentence)) + [mk.endOfSentence]
  }

  /** `encodeSentence` (bpe.go:42-49): the sentence marker, the tokens of each
      white-space separated field in order, and the end-of-sentence marker. */
  method EncodeSentence(m: Model, mk: Markers, target: seq<string>, sentence: string) returns (out: seq<string>)
    requires m.maxTokenLength >= 0
    ensures out == target + SentenceTokens(m, mk, sentence)
  {
    out := target + [mk.beginOfSentence];
    var words := Fields(sentence);
    for k := 0 to |words|
      invariant out == target + [mk.beginOfSentence] + WordsTokens(m, mk, words[..k])
    {
      assert words[..k + 1][..k] == words[..k];
      out := EncodeWord(m, mk, out, words[k]);
    }
    assert words[..|words|] == words;
    out := out + [mk.endOfSentence];
  }

  /** The greedy rule stated declaratively: the first token of `ts` is either the longest
      vocabulary slice at `p` inside the window, or, when the window holds no vocabulary
      slice at all, the unknown marker standing for the single byte at `p`; the rest of
      `ts` tokenizes what follows in the same way. */
  ghost predicate IsGreedyTokenization(m: Model, unknown: string, w: string, p: nat, ts: seq<string>)
    requires m.maxTokenLength >= 0 && p <= |w|
    decreases |w| - p
  {
    if p == |w| then ts == []
    else
      var hi := WindowEnd(m, w, p);
      && ts != []
      && (|| (&& p < p + |ts[0]| <= hi
              && ts[0] == w[p..p + |ts[0]|]
              && ts[0] in m.vocab
              && NoMatchIn(m.vocab, w, p, p + |ts[0]|, hi)
              && IsGreedyTokenization(m, unknown, w, p + |ts[0]|, ts[1..]))
          || (&& ts[0] == unknown
              && NoMatchIn(m.vocab, w, p, p, hi)
              && IsGreedyTokenization(m, unknown, w, p + 1, ts[1..])))
  }

  /** The scan produces a greedy tokenization, and it is the only one. */
  lemma {:induction false} GreedyFromIsTheGreedyTokenization(m: Model, unknown: string, w: string, p: nat, ts: seq<string>)
    requires m.maxTokenLength >= 0 && p <= |w|
    ensures IsGreedyTokenization(m, unknown, w, p, ts) <==> ts == GreedyFrom(m, unknown, w, p)
    decreases |w| - p
  {
    if p < |w| {
      var hi := WindowEnd(m, w, p);
      var e := LongestMatchEnd(m.vocab, w, p, hi);
      var g := GreedyFrom(m, unknown, w, p);
      if ts != [] {
        var k := |ts[0]|;
        if p < p + k <= hi && ts[0] == w[p..p + k] && ts[0] in m.vocab && NoMatchIn(m.vocab, w, p, p + k, hi) {
          // the token the rule names is the one the scan finds
          assert e == p + k;
          GreedyFromIsTheGreedyTokenization(m, unknown, w, p + k, ts[1..]);
        } else if ts[0] == unknown && NoMatchIn(m.vocab, w, p, p, hi) {
          assert e == p;
          GreedyFromIsTheGreedyTokenization(m, unknown, w, p + 1, ts[1..]);
        }
        if ts == g {
          if e == p {
            GreedyFromIsTheGreedyTokenization(m, unknown, w, p + 1, ts[1..]);
          } else {
            GreedyFromIsTheGreedyTokenization(m, unknown, w, e, ts[1..]);
          }
        }
      }
    }
  }

  /** A non-empty remainder yields at least one token and never more tokens than bytes. */
  lemma {:induction false} GreedyTokenCount(m: Model, unknown: string, w: string, p: nat)
    requires m.maxTokenLength >= 0 && p <= |w|
    ensures |GreedyFrom(m, unknown, w, p)| <= |w| - p
    ensures p < |w| ==> 1 <= |GreedyFrom(m, unknown, w, p)|
    decreases |w| - p
  {
    if p < |w| {
      var e := LongestMatchEnd(m.vocab, w, p, WindowEnd(m, w, p));
      if e == p {
        GreedyTokenCount(m, unknown, w, p + 1);
      } else {
        GreedyTokenCount(m, unknown, w, e);
      }
    }
  }

  /** Every emitted token is the unknown marker or a vocabulary token of length
      1..maxTokenLength. */
  lemma {:induction false} GreedyTokensAreKnown(m: Model, unknown: string, w: string, p: nat)
    requires m.maxTokenLength >= 0 && p <= |w|
    ensures forall t :: t in GreedyFrom(m, unknown, w, p) ==>
              t == unknown || (t in m.vocab && 1 <= |t| <= m.maxTokenLength)
    decreases |w| - p
  {
    if p < |w| {
      var e := LongestMatchEnd(m.vocab, w, p, WindowEnd(m, w, p));
      if e == p {
        GreedyTokensAreKnown(m, unknown, w, p + 1);
      } else {
        GreedyTokensAreKnown(m, unknown, w, e);
      }
    }
  }

  /** Without an unknown marker the tokens spell the scanned text exactly. */
  lemma {:induction false} GreedyConcat(m: Model, unknown: string, w: string, p: nat)
    requires m.maxTokenLength >= 0 && p <= |w|
    requires unknown !in GreedyFrom(m, unknown, w, p)
    ensures Concat(GreedyFrom(m, unknown, w, p)) == w[p..]
    decreases |w| - p
  {
    if p < |w| {
      var e := LongestMatchEnd(m.vocab, w, p, WindowEnd(m, w, p));
      var g := GreedyFrom(m, unknown, w, p);
      assert e != p by { assert g[0] == unknown || e != p; }
      assert g[1..] == GreedyFrom(m, unknown, w, e);
      assert unknown !in g[1..] by {
        assert forall k :: 0 <= k < |g| - 1 ==> g[1..][k] == g[k + 1];
      }
      GreedyConcat(m, unknown, w, e);
      assert w[p..] == w[p..e] + w[e..];
    }
  }

  /** The number of input bytes a token list accounts for, counting one byte for each
      unknown marker. */
  function CoveredBytes(ts: seq<string>, unknown: string): nat
  {
    if ts == [] then 0
    else (if ts[0] == unknown then 1 else |ts[0]|) + CoveredBytes(ts[1..], unknown)
  }

  /** Each matched token accounts for its own bytes and each unknown marker for exactly
      one skipped byte (when the marker is not itself a vocabulary token). */
  lemma {:induction false} GreedyCoversInput(m: Model, unknown: string, w: string, p: nat)
    requires m.maxTokenLength >= 0 && p <= |w|
    requires unknown !in m.vocab
    ensures CoveredBytes(GreedyFrom(m, unknown, w, p), unknown) == |w| - p
    decreases |w| - p
  {
    if p < |w| {
      var e := LongestMatchEnd(m.vocab, w, p, WindowEnd(m, w, p));
      if e == p {
        GreedyCoversInput(m, unknown, w, p + 1);
      } else {
        GreedyCoversInput(m, unknown, w, e);
      }
    }
  }

  /** With a zero window (as in a zero-valued model) or an empty vocabulary every byte
      becomes one unknown marker. */
  lemma {:induction false} GreedyAllUnknown(m: Model, unknown: string, w: string, p: nat)
    requires m.maxTokenLength >= 0 && p <= |w|
    requires m.maxTokenLength == 0 || m.vocab == {}
    ensures GreedyFrom(m, unknown, w, p) == seq(|w| - p, _ => unknown)
    decreases |w| - p
  {
    if p < |w| {
      GreedyAllUnknown(m, unknown, w, p + 1);
      assert [unknown] + seq(|w| - (p + 1), _ => unknown) == seq(|w| - p, _ => unknown);
    }
  }

  /** `encodeWord` appends between one token and one token per byte of the wrapped word. */
  lemma WordTokenCount(m: Model, mk: Markers, word: string)
    requires m.maxTokenLength >= 0 && mk.Valid()
    ensures 1 <= |WordTokens(m, mk, word)| <= |mk.Wrap(word)|
  {
    GreedyTokenCount(m, mk.unknown, mk.Wrap(word), 0);
  }

  /** A word whose wrapped form is itself a vocabulary token short enough for the window
      is encoded as that single token. */
  lemma WholeWordToken(m: Model, mk: Markers, word: string)
    requires m.maxTokenLength >= 0 && mk.Valid()
    requires mk.Wrap(word) in m.vocab && |mk.Wrap(word)| <= m.maxTokenLength
    ensures WordTokens(m, mk, word) == [mk.Wrap(word)]
  {
    var w := mk.Wrap(word);
    assert w[0..|w|] == w;
    assert LongestMatchEnd(m.vocab, w, 0, WindowEnd(m, w, 0)) == |w|;
    assert GreedyFrom(m, mk.unknown, w, |w|) == [];
  }
}
