/** The sentence split function `scanSentences` (scan.go:11-40), in the shape of a
    `bufio.SplitFunc`: given the buffered bytes and whether the input has ended, it
    returns how far to advance and the sentence found, if any.

    Two things it uses are not part of this model and are parameters: the rune decoder
    (`utf8.DecodeRune`, which `range` over a string also follows), returning the rune at
    the start of a non-empty text and its width, and the terminator test
    `isEndOfSentence(rune, textBefore, textFromRune)`. */
module Scan {
  import opened Text

  type Decoder = string -> (char, nat)
  type Terminator = (char, string, string) -> bool

  /** A decoder reads between 1 and all of the bytes of a non-empty text. */
  ghost predicate ValidDecoder(decode: Decoder) {
    forall s :: s != [] ==> 1 <= decode(s).1 <= |s|
  }

  /** The offset of the rune after the one at `p`. */
  function NextPos(decode: Decoder, data: string, p: nat): (q: nat)
    requires ValidDecoder(decode) && p < |data|
    ensures p < q <= |data|
  {
    assert data[p..] != [];
    p + decode(data[p..]).1
  }

  /** The rune at `p`. */
  function RuneAt(decode: Decoder, data: string, p: nat): char
    requires p < |data|
  {
    decode(data[p..]).0
  }

  /** `q` is a rune offset reached from `p` by stepping rune by rune. */
  ghost predicate Reaches(decode: Decoder, data: string, p: nat, q: nat)
    requires ValidDecoder(decode)
    decreases |data| - p
  {
    p == q || (p < q && p < |data| && Reaches(decode, data, NextPos(decode, data, p), q))
  }

  /** The first rune offset from `p` on whose rune is not white space (`|data|` if none). */
  ghost function FirstNonSpace(decode: Decoder, data: string, p: nat): (q: nat)
    requires ValidDecoder(decode) && p <= |data|
    ensures p <= q <= |data|
    decreases |data| - p
  {
    if p == |data| || !IsSpace(RuneAt(decode, data, p)) then p
    else FirstNonSpace(decode, data, NextPos(decode, data, p))
  }

  /** The offset the leading-space loop (scan.go:14-21) ends with, having reached `pos`
      with the offset `start` of the last space seen so far. */
  function LeadingStart(decode: Decoder, data: string, pos: nat, start: nat): nat
    requires ValidDecoder(decode) && pos <= |data|
    decreases |data| - pos
  {
    if pos == |data| || !IsSpace(RuneAt(decode, data, pos)) then start
    else LeadingStart(decode, data, NextPos(decode, data, pos), pos)
  }

  /** The advance the terminator loop (scan.go:23-31) returns from offset `i` on,
      or None when the predicate never fires. */
  function FindEnd(decode: Decoder, isEnd: Terminator, data: string, start: nat, i: nat): Option<nat>
    requires ValidDecoder(decode) && start <= i <= |data|
    decreases |data| - i
  {
    if i == |data| then None
    else if isEnd(RuneAt(decode, data, i), data[start..i], data[i..]) then Some(NextPos(decode, data, i))
    else FindEnd(decode, isEnd, data, start, NextPos(decode, data, i))
  }

  /** `start` in scan.go. */
  function SentenceStart(decode: Decoder, data: string): nat
    requires ValidDecoder(decode)
  {
    LeadingStart(decode, data, 0, 0)
  }

  lemma {:induction false} LeadingStartBound(decode: Decoder, data: string, pos: nat, start: nat)
    requires ValidDecoder(decode) && start <= pos <= |data| && (start < pos || pos == 0)
    ensures LeadingStart(decode, data, pos, start) <= |data|
    ensures data != [] ==> LeadingStart(decode, data, pos, start) < |data|
    decreases |data| - pos
  {
    if pos < |data| && IsSpace(RuneAt(decode, data, pos)) {
      LeadingStartBound(decode, data, NextPos(decode, data, pos), pos);
    }
  }

  /** The split result as a function of the input: the advance and the token. */
  function ScanResult(decode: Decoder, isEnd: Terminator, data: string, atEOF: bool): (nat, Option<string>)
    requires ValidDecoder(decode)
  {
    var start := SentenceStart(decode, data);
    LeadingStartBound(decode, data, 0, 0);
    match FindEnd(decode, isEnd, data, start, start)
    case Some(advance) =>
      FindEndBound(decode, isEnd, data, start, start);
      (advance, Some(data[start..advance]))
    case None =>
      if atEOF && |data| > start then (|data|, Some(data[start..])) else (start, None)
  }

  lemma {:induction false} FindEndBound(decode: Decoder, isEnd: Terminator, data: string, start: nat, i: nat)
    requires ValidDecoder(decode) && start <= i <= |data|
    ensures FindEnd(decode, isEnd, data, start, i).Some? ==> i < FindEnd(decode, isEnd, data, start, i).value <= |data|
    decreases |data| - i
  {
    if i < |data| && !isEnd(RuneAt(decode, data, i), data[start..i], data[i..]) {
      FindEndBound(decode, isEnd, data, start, NextPos(decode, data, i));
    }
  }

  /** The loop of scan.go:14-21: walks the leading white-space runes and keeps the
      offset of the last one. */
  method SkipLeadingSpaces(decode: Decoder, data: string) returns (start: nat)
    requires ValidDecoder(decode)
    ensures start == SentenceStart(decode, data)
  {
    start := 0;
    var pos := 0;
    while pos < |data|
      invariant pos <= |data| && start <= pos
      invariant LeadingStart(decode, data, pos, start) == SentenceStart(decode, data)
      decreases |data| - pos
    {
      var (symbol, width) := decode(data[pos..]);
      if !IsSpace(symbol) {
        break;
      }
      start := pos;
      pos := pos + width;
    }
  }

  /** `scanSentences`. Every return has a nil error (scan.go:29, 35, 39). */
  method ScanSentences(decode: Decoder, isEnd: Terminator, data: string, atEOF: bool)
    returns (advance: nat, token: Option<string>, err: Option<string>)
    requires ValidDecoder(decode)
    ensures (advance, token) == ScanResult(decode, isEnd, data, atEOF)
    ensures err == None
  {
    var start := SkipLeadingSpaces(decode, data);
    LeadingStartBound(decode, data, 0, 0);
    var i := start;
    while i < |data|
      invariant start <= i <= |data|
      invariant FindEnd(decode, isEnd, data, start, i) == FindEnd(decode, isEnd, data, start, start)
      decreases |data| - i
    {
      var (r, width) := decode(data[i..]);
      if isEnd(r, data[start..i], data[i..]) {
        return i + width, Some(data[start..i + width]), None;
      }
      i := i + width;
    }
    if atEOF && |data| > start {
      return |data|, Some(data[start..]), None;
    }
    return start, None, None;
  }

  lemma ReachesOrder(decode: Decoder, data: string, p: nat, q: nat)
    requires ValidDecoder(decode) && Reaches(decode, data, p, q)
    ensures p <= q
  {
  }

  lemma {:induction false} ReachesStep(decode: Decoder, data: string, p: nat, q: nat)
    requires ValidDecoder(decode) && p < |data| && Reaches(decode, data, NextPos(decode, data, p), q)
    ensures Reaches(decode, data, p, q)
  {
    ReachesOrder(decode, data, NextPos(decode, data, p), q);
  }

  /** Two offsets reached from the same one are themselves reached one from the other. */
  lemma {:induction false} ReachesTotal(decode: Decoder, data: string, p: nat, q: nat, r: nat)
    requires ValidDecoder(decode) && Reaches(decode, data, p, q) && Reaches(decode, data, p, r) && q <= r
    ensures Reaches(decode, data, q, r)
    decreases |data| - p
  {
    if p != q {
      ReachesOrder(decode, data, NextPos(decode, data, p), r);
      ReachesTotal(decode, data, NextPos(decode, data, p), q, r);
    }
  }

  /** The first white-space-free rune offset is reached from `p`, and every rune before
      it, stepping from `p`, is white space. */
  lemma {:induction false} FirstNonSpaceFacts(decode: Decoder, data: string, p: nat)
    requires ValidDecoder(decode) && p <= |data|
    ensures Reaches(decode, data, p, FirstNonSpace(decode, data, p))
    ensures FirstNonSpace(decode, data, p) < |data| ==> !IsSpace(RuneAt(decode, data, FirstNonSpace(decode, data, p)))
    ensures forall r: nat :: Reaches(decode, data, p, r) && r < FirstNonSpace(decode, data, p) ==> r < |data| && IsSpace(RuneAt(decode, data, r))
    decreases |data| - p
  {
    if !(p == |data| || !IsSpace(RuneAt(decode, data, p))) {
      var n := NextPos(decode, data, p);
      FirstNonSpaceFacts(decode, data, n);
      ReachesStep(decode, data, p, FirstNonSpace(decode, data, n));
      forall r: nat | Reaches(decode, data, p, r) && r < FirstNonSpace(decode, data, p)
        ensures r < |data| && IsSpace(RuneAt(decode, data, r))
      {
        if r != p {
          assert Reaches(decode, data, n, r);
        }
      }
    }
  }

  lemma {:induction false} LeadingStartFacts(decode: Decoder, data: string, pos: nat, start: nat)
    requires ValidDecoder(decode) && pos <= |data|
    requires (pos == 0 && start == 0) || (start < |data| && NextPos(decode, data, start) == pos)
    ensures var s, q := LeadingStart(decode, data, pos, start), FirstNonSpace(decode, data, pos);
      (q == pos && s == start) || (pos <= s < q && NextPos(decode, data, s) == q && Reaches(decode, data, pos, s))
    decreases |data| - pos
  {
    if !(pos == |data| || !IsSpace(RuneAt(decode, data, pos))) {
      var n := NextPos(decode, data, pos);
      LeadingStartFacts(decode, data, n, pos);
      var s := LeadingStart(decode, data, n, pos);
      if s != pos {
        ReachesStep(decode, data, pos, s);
      }
    }
  }

  /** `start` (scan.go:12-21) is 0 when the data does not start with white space, and
      otherwise the offset of the LAST leading white-space rune: every rune before it is
      white space and the rune after it is the first one that is not (or the end). */
  lemma SentenceStartFacts(decode: Decoder, data: string)
    requires ValidDecoder(decode)
    ensures var s, q := SentenceStart(decode, data), FirstNonSpace(decode, data, 0);
      (q == 0 && s == 0) || (s < q && NextPos(decode, data, s) == q && Reaches(decode, data, 0, s))
    ensures forall r: nat :: Reaches(decode, data, 0, r) && r < SentenceStart(decode, data) ==> r < |data| && IsSpace(RuneAt(decode, data, r))
  {
    LeadingStartFacts(decode, data, 0, 0);
    FirstNonSpaceFacts(decode, data, 0);
  }

  /** The quirk of `start = pos`: one leading space before a non-space rune is kept. */
  lemma SingleLeadingSpaceKept(decode: Decoder, data: string)
    requires ValidDecoder(decode) && data != [] && IsSpace(RuneAt(decode, data, 0))
    requires NextPos(decode, data, 0) < |data| && !IsSpace(RuneAt(decode, data, NextPos(decode, data, 0)))
    ensures SentenceStart(decode, data) == 0
  {
    var n := NextPos(decode, data, 0);
    assert LeadingStart(decode, data, n, 0) == 0;
  }

  /** The terminator test, as scan.go:28 calls it at offset `p`: the rune there, the text
      of the sentence before it and the text from it on. */
  ghost predicate Fires(decode: Decoder, isEnd: Terminator, data: string, start: nat, p: nat)
    requires start <= p < |data|
  {
    isEnd(RuneAt(decode, data, p), data[start..p], data[p..])
  }

  /** `p` is the first rune offset, stepping from `i`, at which the test fires. */
  ghost predicate FirstFire(decode: Decoder, isEnd: Terminator, data: string, start: nat, i: nat, p: nat)
    requires ValidDecoder(decode) && start <= i
  {
    && Reaches(decode, data, i, p) && i <= p < |data| && Fires(decode, isEnd, data, start, p)
    && forall r: nat :: Reaches(decode, data, i, r) && i <= r < p ==> !Fires(decode, isEnd, data, start, r)
  }

  /** The test fires at no rune offset stepping from `start`. */
  ghost predicate NoTerminator(decode: Decoder, isEnd: Terminator, data: string, start: nat)
    requires ValidDecoder(decode)
  {
    forall r: nat :: Reaches(decode, data, start, r) && start <= r < |data| ==> !Fires(decode, isEnd, data, start, r)
  }

  lemma {:induction false} FindEndFacts(decode: Decoder, isEnd: Terminator, data: string, start: nat, i: nat)
    requires ValidDecoder(decode) && start <= i <= |data|
    ensures FindEnd(decode, isEnd, data, start, i).Some? ==> exists p ::
      FirstFire(decode, isEnd, data, start, i, p)
      && FindEnd(decode, isEnd, data, start, i).value == NextPos(decode, data, p)
    ensures FindEnd(decode, isEnd, data, start, i).None? ==>
      forall r: nat :: Reaches(decode, data, i, r) && i <= r < |data| ==> !Fires(decode, isEnd, data, start, r)
    decreases |data| - i
  {
    if i < |data| && !Fires(decode, isEnd, data, start, i) {
      var n := NextPos(decode, data, i);
      FindEndFacts(decode, isEnd, data, start, n);
      if FindEnd(decode, isEnd, data, start, n).Some? {
        var p :| FirstFire(decode, isEnd, data, start, n, p)
          && FindEnd(decode, isEnd, data, start, n).value == NextPos(decode, data, p);
        ReachesStep(decode, data, i, p);
        forall r: nat | Reaches(decode, data, i, r) && i <= r < p ensures !Fires(decode, isEnd, data, start, r) {
          if r != i {
            assert Reaches(decode, data, n, r);
          }
        }
        assert FirstFire(decode, isEnd, data, start, i, p);
      } else {
        forall r: nat | Reaches(decode, data, i, r) && i <= r < |data| ensures !Fires(decode, isEnd, data, start, r) {
          if r != i {
            assert Reaches(decode, data, n, r);
          }
        }
      }
    } else if i < |data| {
      assert FirstFire(decode, isEnd, data, start, i, i);
    }
  }

  /** A terminator first firing at `p` (stepping from `start`) ends the sentence after its
      rune: advance `p + width` and token `data[start..p + width]` (scan.go:24-31). */
  lemma ScanAtTerminator(decode: Decoder, isEnd: Terminator, data: string, atEOF: bool, p: nat)
    requires ValidDecoder(decode)
    requires FirstFire(decode, isEnd, data, SentenceStart(decode, data), SentenceStart(decode, data), p)
    ensures ScanResult(decode, isEnd, data, atEOF)
      == (NextPos(decode, data, p), Some(data[SentenceStart(decode, data)..NextPos(decode, data, p)]))
  {
    var start := SentenceStart(decode, data);
    LeadingStartBound(decode, data, 0, 0);
    FindEndFacts(decode, isEnd, data, start, start);
    var q: nat :| FirstFire(decode, isEnd, data, start, start, q)
      && FindEnd(decode, isEnd, data, start, start).value == NextPos(decode, data, q);
    if q < p {
      ReachesTotal(decode, data, start, q, p);
    } else if p < q {
      ReachesTotal(decode, data, start, p, q);
    }
  }

  /** Without a terminator, at the end of the input a non-empty rest is the final
      sentence (scan.go:33-36). */
  lemma ScanAtEOF(decode: Decoder, isEnd: Terminator, data: string)
    requires ValidDecoder(decode)
    requires NoTerminator(decode, isEnd, data, SentenceStart(decode, data))
    requires |data| > SentenceStart(decode, data)
    ensures ScanResult(decode, isEnd, data, true) == (|data|, Some(data[SentenceStart(decode, data)..]))
  {
    var start := SentenceStart(decode, data);
    FindEndFacts(decode, isEnd, data, start, start);
  }

  /** Otherwise no sentence is returned and the scanner is asked for more data, advancing
      only past the skipped white space (scan.go:38-39). */
  lemma ScanNeedsMoreData(decode: Decoder, isEnd: Terminator, data: string, atEOF: bool)
    requires ValidDecoder(decode)
    requires NoTerminator(decode, isEnd, data, SentenceStart(decode, data))
    requires !(atEOF && |data| > SentenceStart(decode, data))
    ensures ScanResult(decode, isEnd, data, atEOF) == (SentenceStart(decode, data), None)
  {
    var start := SentenceStart(decode, data);
    LeadingStartBound(decode, data, 0, 0);
    FindEndFacts(decode, isEnd, data, start, start);
  }

  /** Whatever the case, the advance stays within the data, a returned token is the
      non-empty slice from `start` to the advance, and without a token the advance is
      `start`; empty data gives `(0, nil)`. */
  lemma ScanShape(decode: Decoder, isEnd: Terminator, data: string, atEOF: bool)
    requires ValidDecoder(decode)
    ensures var (advance, token) := ScanResult(decode, isEnd, data, atEOF);
      && advance <= |data|
      && (token.Some? ==> SentenceStart(decode, data) < advance && token.value == data[SentenceStart(decode, data)..advance])
      && (token.None? ==> advance == SentenceStart(decode, data))
    ensures data == [] ==> ScanResult(decode, isEnd, data, atEOF) == (0, None)
  {
    var start := SentenceStart(decode, data);
    LeadingStartBound(decode, data, 0, 0);
    FindEndBound(decode, isEnd, data, start, start);
  }
}
