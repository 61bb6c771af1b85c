/** Decoding a token list back into text (bpe.go:79-103). */
module Decoding {
  import opened Text
  import opened Bpe
  import opened Encoding

  /** What one token contributes to the text: the sentence markers and the end-of-word
      marker are trimmed off its end, in that order, and a leading begin-of-word marker
      becomes one space (bpe.go:87-94). */
  function DecodeToken(mk: Markers, token: string): string
  {
    var t := TrimSuffix(TrimSuffix(TrimSuffix(token, mk.beginOfSentence), mk.endOfSentence), mk.endOfWord);
    if HasPrefix(t, mk.beginOfWord) then " " + t[|mk.beginOfWord|..] else t
  }

  /** The text assembled in the `strings.Builder` before trimming. */
  function Joined(mk: Markers, tokens: seq<string>): string
  {
    if tokens == [] then []
    else Joined(mk, tokens[..|tokens| - 1]) + DecodeToken(mk, tokens[|tokens| - 1])
  }

  /** The decoded text: the assembled text with surrounding white space trimmed. */
  function DecodedText(mk: Markers, tokens: seq<string>): string
  {
    TrimSpace(Joined(mk, tokens))
  }

  /** `Decode` (bpe.go:81-103). Writing to a `strings.Builder` never fails, so the error
      result is always nil. */
  method Decode(mk: Markers, tokens: seq<string>) returns (text: string, err: Option<string>)
    ensures text == DecodedText(mk, tokens)
    ensures err == None
  {
    var builder := "";
    for k := 0 to |tokens|
      invariant builder == Joined(mk, tokens[..k])
    {
      assert tokens[..k + 1][..k] == tokens[..k];
      var token := tokens[k];
      token := TrimSuffix(token, mk.beginOfSentence);
      token := TrimSuffix(token, mk.endOfSentence);
      token := TrimSuffix(token, mk.endOfWord);
      if HasPrefix(token, mk.beginOfWord) {
        builder := builder + " ";
        token := token[|mk.beginOfWord|..];
      }
      builder := builder + token;
    }
    assert tokens[..|tokens|] == tokens;
    text := TrimSpace(builder);
    err := None;
  }

  /** Decoding token lists one after the other concatenates their texts. */
  lemma {:induction false} JoinedAppend(mk: Markers, a: seq<string>, b: seq<string>)
    ensures Joined(mk, a + b) == Joined(mk, a) + Joined(mk, b)
    decreases |b|
  {
    if b != [] {
      var b' := b[..|b| - 1];
      assert (a + b)[..|a + b| - 1] == a + b';
      assert (a + b)[|a + b| - 1] == b[|b| - 1];
      JoinedAppend(mk, a, b');
    } else {
      assert a + b == a;
    }
  }

  /** No one of the three trimmed markers is a suffix of another. */
  predicate TrimmedMarkersSuffixFree(mk: Markers) {
    && !HasSuffix(mk.endOfSentence, mk.beginOfSentence)
    && !HasSuffix(mk.endOfWord, mk.beginOfSentence)
    && !HasSuffix(mk.endOfWord, mk.endOfSentence)
  }

  /** A token that is only a sentence marker or the end-of-word marker contributes nothing. */
  lemma MarkerTokensVanish(mk: Markers)
    requires mk.Valid() && TrimmedMarkersSuffixFree(mk)
    ensures DecodeToken(mk, mk.beginOfSentence) == []
    ensures DecodeToken(mk, mk.endOfSentence) == []
    ensures DecodeToken(mk, mk.endOfWord) == []
  {
    assert mk.beginOfSentence[|mk.beginOfSentence| - |mk.beginOfSentence|..] == mk.beginOfSentence;
    assert mk.endOfSentence[|mk.endOfSentence| - |mk.endOfSentence|..] == mk.endOfSentence;
    assert mk.endOfWord[|mk.endOfWord| - |mk.endOfWord|..] == mk.endOfWord;
  }

  /** A whole-word token decodes to a space followed by the word, provided the wrapped
      word does not end in a sentence marker. */
  lemma WrappedWordDecodes(mk: Markers, word: string)
    requires !HasSuffix(mk.Wrap(word), mk.beginOfSentence) && !HasSuffix(mk.Wrap(word), mk.endOfSentence)
    ensures DecodeToken(mk, mk.Wrap(word)) == " " + word
  {
    var w := mk.Wrap(word);
    assert w[|w| - |mk.endOfWord|..] == mk.endOfWord;
    assert w[..|w| - |mk.endOfWord|] == mk.beginOfWord + word;
    assert (mk.beginOfWord + word)[..|mk.beginOfWord|] == mk.beginOfWord;
    assert (mk.beginOfWord + word)[|mk.beginOfWord|..] == word;
  }

  /** The token list of words that are all whole-word vocabulary tokens. */
  function WrappedWords(mk: Markers, words: seq<string>): (ts: seq<string>)
    ensures |ts| == |words|
  {
    seq(|words|, k requires 0 <= k < |words| => mk.Wrap(words[k]))
  }

  /** Every word that fits the window as a whole-word token is encoded as that token. */
  ghost predicate WholeWordVocabulary(m: Model, mk: Markers, words: seq<string>)
  {
    forall k :: 0 <= k < |words| ==>
      && mk.Wrap(words[k]) in m.vocab
      && |mk.Wrap(words[k])| <= m.maxTokenLength
      && !HasSuffix(mk.Wrap(words[k]), mk.beginOfSentence)
      && !HasSuffix(mk.Wrap(words[k]), mk.endOfSentence)
  }

  lemma {:induction false} WholeWordsEncode(m: Model, mk: Markers, words: seq<string>)
    requires m.maxTokenLength >= 0 && mk.Valid() && WholeWordVocabulary(m, mk, words)
    ensures WordsTokens(m, mk, words) == WrappedWords(mk, words)
    decreases |words|
  {
    if words != [] {
      var init := words[..|words| - 1];
      WholeWordsEncode(m, mk, init);
      WholeWordToken(m, mk, words[|words| - 1]);
      assert WrappedWords(mk, words) == WrappedWords(mk, init) + [mk.Wrap(words[|words| - 1])];
    }
  }

  /** Each word preceded by one space. */
  function Spaced(words: seq<string>): (ps: seq<string>)
    ensures |ps| == |words|
  {
    if words == [] then [] else Spaced(words[..|words| - 1]) + [" " + words[|words| - 1]]
  }

  lemma {:induction false} SpacedConcat(words: seq<string>)
    ensures Concat(Spaced(words)) == if words == [] then [] else " " + JoinWithSpaces(words)
    decreases |words|
  {
    if words != [] {
      var n := |words| - 1;
      var init, last := words[..n], words[n];
      SpacedConcat(init);
      ConcatAppend(Spaced(init), [" " + last]);
      assert Concat([" " + last]) == " " + last + Concat([]);
    }
  }

  lemma {:induction false} SpacedAt(words: seq<string>, k: nat)
    requires k < |words|
    ensures Spaced(words)[k] == " " + words[k]
    decreases |words|
  {
    if k < |words| - 1 {
      SpacedAt(words[..|words| - 1], k);
    }
  }

  lemma WholeWordsJoin(mk: Markers, words: seq<string>)
    requires forall k :: 0 <= k < |words| ==>
      !HasSuffix(mk.Wrap(words[k]), mk.beginOfSentence) && !HasSuffix(mk.Wrap(words[k]), mk.endOfSentence)
    ensures Joined(mk, WrappedWords(mk, words)) == if words == [] then [] else " " + JoinWithSpaces(words)
  {
    var ts, ps := WrappedWords(mk, words), Spaced(words);
    forall k | 0 <= k < |ts| ensures DecodeToken(mk, ts[k]) == ps[k] {
      SpacedAt(words, k);
      WrappedWordDecodes(mk, words[k]);
    }
    JoinedPieces(mk, ts, ps);
    SpacedConcat(words);
  }

  /** The sentence markers around a token list add nothing to the assembled text. */
  lemma FramedJoined(mk: Markers, body: seq<string>)
    requires mk.Valid() && TrimmedMarkersSuffixFree(mk)
    ensures Joined(mk, [mk.beginOfSentence] + body + [mk.endOfSentence]) == Joined(mk, body)
  {
    MarkerTokensVanish(mk);
    JoinedAppend(mk, [mk.beginOfSentence] + body, [mk.endOfSentence]);
    JoinedAppend(mk, [mk.beginOfSentence], body);
    assert Joined(mk, [mk.beginOfSentence]) == [] by {
      assert [mk.beginOfSentence][..0] == [];
    }
    assert Joined(mk, [mk.endOfSentence]) == [] by {
      assert [mk.endOfSentence][..0] == [];
    }
  }

  /** Round trip: when every word of a sentence is a whole-word vocabulary token, decoding
      the sentence's tokens gives back its words separated by single spaces. */
  lemma SentenceRoundTrip(m: Model, mk: Markers, sentence: string)
    requires m.maxTokenLength >= 0 && mk.Valid() && TrimmedMarkersSuffixFree(mk)
    requires WholeWordVocabulary(m, mk, Fields(sentence))
    ensures DecodedText(mk, SentenceTokens(m, mk, sentence)) == JoinWithSpaces(Fields(sentence))
  {
    var words := Fields(sentence);
    WholeWordsEncode(m, mk, words);
    var body := WrappedWords(mk, words);
    FramedJoined(mk, body);
    var text := Joined(mk, body);
    assert DecodedText(mk, SentenceTokens(m, mk, sentence)) == TrimSpace(text);
    WholeWordsJoin(mk, words);
    if words != [] {
      var joined := JoinWithSpaces(words);
      JoinWithSpacesEnds(words);
      TrimSpacePadded(" ", joined, []);
      assert text == " " + joined + [];
    }
  }

  /** Round trip on joined text: words of non-space characters that are all whole-word
      vocabulary tokens, joined by single spaces, encode and decode back to that text. */
  lemma JoinedSentenceRoundTrip(m: Model, mk: Markers, words: seq<string>)
    requires m.maxTokenLength >= 0 && mk.Valid() && TrimmedMarkersSuffixFree(mk)
    requires forall k :: 0 <= k < |words| ==> words[k] != [] && NoSpace(words[k])
    requires WholeWordVocabulary(m, mk, words)
    ensures DecodedText(mk, SentenceTokens(m, mk, JoinWithSpaces(words))) == JoinWithSpaces(words)
  {
    FieldsOfJoin(words);
    SentenceRoundTrip(m, mk, JoinWithSpaces(words));
  }

  /** How single tokens decode with the angle markers, by the form of the token. */
  lemma AngleTokenDecodes(unknown: string, x: string)
    requires Unmarked(x)
    ensures DecodeToken(AngleMarkers(unknown), x) == x
    ensures DecodeToken(AngleMarkers(unknown), "<w>" + x) == " " + x
    ensures DecodeToken(AngleMarkers(unknown), x + "</w>") == x
    ensures DecodeToken(AngleMarkers(unknown), "<w>" + x + "</w>") == " " + x
  {
    Plain(unknown, x, x);
    Bow(unknown, x, "<w>" + x);
    Eow(unknown, x, x + "</w>");
    Both(unknown, x, "<w>" + x + "</w>");
  }

  /** The decoding example of examples_test.go:91-103 (with any unknown marker). */
  lemma DecodeExample(unknown: string, tokens: seq<string>)
    requires tokens
      == ["<s>", "<w>Th", "is</w>", "<w>is</w>", "<w>j", "u", "st</w>", "<w>an</w>", "<w>ex", "ample", ".</w>", "</s>"]
    ensures DecodedText(AngleMarkers(unknown), tokens) == "This is just an example."
  {
    var xs := ["Th", "is", "is", "j", "u", "st", "an", "ex", "ample", "."];
    var bow := [true, false, true, true, false, false, true, true, false, false];
    var eow := [false, true, true, false, false, true, true, false, false, true];
    ExampleShapes(tokens, xs, bow, eow);
    ExamplePieces(xs, bow);
    AngleSentenceDecodes(unknown, tokens, xs, bow, eow, "This is just an example.");
  }

  /** A sentence of tokens shaped from unmarked pieces decodes to the pieces' text. */
  lemma AngleSentenceDecodes(unknown: string, tokens: seq<string>, xs: seq<string>, bow: seq<bool>, eow: seq<bool>, text: string)
    requires |tokens| == |xs| + 2 && |xs| == |bow| == |eow|
    requires tokens[0] == "<s>" && tokens[|tokens| - 1] == "</s>"
    requires forall k :: 0 <= k < |xs| ==> Unmarked(xs[k]) && tokens[k + 1] == AngleShape(xs[k], bow[k], eow[k])
    requires Concat(AnglePieces(xs, bow)) == " " + text
    requires text != [] && !IsSpace(text[0]) && !IsSpace(text[|text| - 1])
    ensures DecodedText(AngleMarkers(unknown), tokens) == text
  {
    var body := tokens[1..|tokens| - 1];
    assert tokens == ["<s>"] + body + ["</s>"];
    AngleJoined(unknown, body, xs, bow, eow);
    AngleFramed(unknown, body);
    LeadingSpaceTrimmed(text);
  }

  /** The shapes of the example's tokens between its sentence markers. */
  lemma ExampleShapes(tokens: seq<string>, xs: seq<string>, bow: seq<bool>, eow: seq<bool>)
    requires tokens
      == ["<s>", "<w>Th", "is</w>", "<w>is</w>", "<w>j", "u", "st</w>", "<w>an</w>", "<w>ex", "ample", ".</w>", "</s>"]
    requires xs == ["Th", "is", "is", "j", "u", "st", "an", "ex", "ample", "."]
    requires bow == [true, false, true, true, false, false, true, true, false, false]
    requires eow == [false, true, true, false, false, true, true, false, false, true]
    ensures forall k :: 0 <= k < |xs| ==> Unmarked(xs[k]) && tokens[k + 1] == AngleShape(xs[k], bow[k], eow[k])
  {
  }

  /** The example's sentence markers around a token list add nothing to the text. */
  lemma AngleFramed(unknown: string, body: seq<string>)
    ensures Joined(AngleMarkers(unknown), ["<s>"] + body + ["</s>"]) == Joined(AngleMarkers(unknown), body)
  {
    var mk := AngleMarkers(unknown);
    JoinedAppend(mk, ["<s>"] + body, ["</s>"]);
    JoinedAppend(mk, ["<s>"], body);
    SentenceMarkerPiece(unknown, "<s>");
    SentenceMarkerPiece(unknown, "</s>");
    assert Joined(mk, ["<s>"]) == [] by {
      assert ["<s>"][..0] == [];
    }
    assert Joined(mk, ["</s>"]) == [] by {
      assert ["</s>"][..0] == [];
    }
  }

  /** A token built from an unmarked piece, with or without the word markers around it. */
  function AngleShape(x: string, bow: bool, eow: bool): string {
    (if bow then "<w>" else "") + x + (if eow then "</w>" else "")
  }

  /** What such tokens decode to: each piece, after a space when it opened a word. */
  function AnglePieces(xs: seq<string>, bow: seq<bool>): (ps: seq<string>)
    requires |xs| == |bow|
    ensures |ps| == |xs|
  {
    seq(|xs|, k requires 0 <= k < |xs| => (if bow[k] then " " else "") + xs[k])
  }

  /** Tokens of that shape decode piece by piece. */
  lemma AngleJoined(unknown: string, tokens: seq<string>, xs: seq<string>, bow: seq<bool>, eow: seq<bool>)
    requires |tokens| == |xs| == |bow| == |eow|
    requires forall k :: 0 <= k < |tokens| ==> Unmarked(xs[k]) && tokens[k] == AngleShape(xs[k], bow[k], eow[k])
    ensures Joined(AngleMarkers(unknown), tokens) == Concat(AnglePieces(xs, bow))
  {
    var pieces := AnglePieces(xs, bow);
    forall k | 0 <= k < |tokens| ensures DecodeToken(AngleMarkers(unknown), tokens[k]) == pieces[k] {
      ShapeDecodes(unknown, xs[k], bow[k], eow[k]);
    }
    JoinedPieces(AngleMarkers(unknown), tokens, pieces);
  }

  lemma ShapeDecodes(unknown: string, x: string, bow: bool, eow: bool)
    requires Unmarked(x)
    ensures DecodeToken(AngleMarkers(unknown), AngleShape(x, bow, eow)) == (if bow then " " else "") + x
  {
    var t := AngleShape(x, bow, eow);
    if bow && eow {
      Both(unknown, x, t);
    } else if bow {
      Bow(unknown, x, t);
    } else if eow {
      Eow(unknown, x, t);
    } else {
      Plain(unknown, x, t);
    }
  }

  /** The example's sentence markers decode to nothing. */
  lemma SentenceMarkerPiece(unknown: string, t: string)
    requires t == "<s>" || t == "</s>"
    ensures DecodeToken(AngleMarkers(unknown), t) == []
  {
    assert t[|t| - 3..] == t[|t| - 3..];
    if t == "<s>" {
      assert t[0..] == "<s>";
    } else {
      assert t[1..] == "/s>";
      assert t[0..] == "</s>";
    }
  }

  /** A piece that neither starts like a marker nor ends like one. */
  predicate Unmarked(x: string) {
    x != [] && x[0] != '<' && x[|x| - 1] != '>'
  }

  /** A piece whose last character is not `>` ends in none of the example markers. */
  lemma UnmarkedSuffixes(x: string)
    requires x != [] && x[|x| - 1] != '>'
    ensures !HasSuffix(x, "<s>") && !HasSuffix(x, "</s>") && !HasSuffix(x, "</w>")
  {
    if |x| >= 3 {
      assert x[|x| - 3..][2] == x[|x| - 1];
    }
    if |x| >= 4 {
      assert x[|x| - 4..][3] == x[|x| - 1];
    }
  }

  lemma Plain(unknown: string, x: string, t: string)
    requires Unmarked(x) && t == x
    ensures DecodeToken(AngleMarkers(unknown), t) == x
  {
    UnmarkedSuffixes(x);
    if |x| >= 3 {
      assert x[..3][0] == x[0];
    }
  }

  lemma Bow(unknown: string, x: string, t: string)
    requires Unmarked(x) && t == "<w>" + x
    ensures DecodeToken(AngleMarkers(unknown), t) == " " + x
  {
    UnmarkedSuffixes(t);
    assert t[..3] == "<w>";
    assert t[3..] == x;
  }

  lemma Eow(unknown: string, x: string, t: string)
    requires Unmarked(x) && t == x + "</w>"
    ensures DecodeToken(AngleMarkers(unknown), t) == x
  {
    assert t[|t| - 3..] == "/w>";
    assert t[|t| - 4..] == "</w>";
    assert t[..|t| - 4] == x;
    Plain(unknown, x, x);
  }

  lemma Both(unknown: string, x: string, t: string)
    requires Unmarked(x) && t == "<w>" + x + "</w>"
    ensures DecodeToken(AngleMarkers(unknown), t) == " " + x
  {
    assert t[|t| - 3..] == "/w>";
    assert t[|t| - 4..] == "</w>";
    assert t[..|t| - 4] == "<w>" + x;
    Bow(unknown, x, "<w>" + x);
  }

  /** The example's pieces glue to its text with a leading space. */
  lemma ExamplePieces(xs: seq<string>, bow: seq<bool>)
    requires xs == ["Th", "is", "is", "j", "u", "st", "an", "ex", "ample", "."]
    requires bow == [true, false, true, true, false, false, true, true, false, false]
    ensures Concat(AnglePieces(xs, bow)) == " This is just an example."
  {
    var pieces := [" Th", "is", " is", " j", "u", "st", " an", " ex", "ample", "."];
    assert forall k :: 0 <= k < |pieces| ==> AnglePieces(xs, bow)[k] == pieces[k];
    assert AnglePieces(xs, bow) == pieces;
    PiecesText(pieces);
  }

  lemma PiecesText(pieces: seq<string>)
    requires pieces == [" Th", "is", " is", " j", "u", "st", " an", " ex", "ample", "."]
    ensures Concat(pieces) == " This is just an example."
  {
    var a, b, c := pieces[..4], pieces[4..8], pieces[8..];
    assert pieces == a + (b + c);
    ConcatAppend(a, b + c);
    ConcatAppend(b, c);
    ConcatFour(a);
    ConcatFour(b);
    ConcatTwo(c);
    assert " Th" + "is" + " is" + " j" == " This is j";
    assert "u" + "st" + " an" + " ex" == "ust an ex";
    assert "ample" + "." == "ample.";
  }

  lemma ConcatFour(ss: seq<string>)
    requires |ss| == 4
    ensures Concat(ss) == ss[0] + ss[1] + ss[2] + ss[3]
  {
    ConcatTwo(ss[2..]);
    assert ss[1..][1..] == ss[2..];
  }

  lemma ConcatTwo(ss: seq<string>)
    requires |ss| == 2
    ensures Concat(ss) == ss[0] + ss[1]
  {
    assert ss[1..][1..] == [];
    assert Concat(ss[1..]) == ss[1] + Concat([]);
  }

  /** One leading space around a text with non-space ends is trimmed away. */
  lemma LeadingSpaceTrimmed(mid: string)
    requires mid != [] && !IsSpace(mid[0]) && !IsSpace(mid[|mid| - 1])
    ensures TrimSpace(" " + mid) == mid
  {
    TrimSpacePadded(" ", mid, "");
    assert " " + mid + "" == " " + mid;
  }


  lemma {:induction false} JoinedPieces(mk: Markers, tokens: seq<string>, pieces: seq<string>)
    requires |tokens| == |pieces|
    requires forall k :: 0 <= k < |tokens| ==> DecodeToken(mk, tokens[k]) == pieces[k]
    ensures Joined(mk, tokens) == Concat(pieces)
    decreases |tokens|
  {
    if tokens != [] {
      var n := |tokens| - 1;
      assert forall k :: 0 <= k < n ==> tokens[..n][k] == tokens[k] && pieces[..n][k] == pieces[k];
      JoinedPieces(mk, tokens[..n], pieces[..n]);
      assert Joined(mk, tokens) == Joined(mk, tokens[..n]) + pieces[n];
      ConcatAppend(pieces[..n], [pieces[n]]);
      assert pieces[..n] + [pieces[n]] == pieces;
      assert Concat([pieces[n]]) == pieces[n] + Concat([]);
    }
  }
}
