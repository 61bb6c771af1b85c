/** Building a model from a token frequency table (`newModelFromTokensFrequencyTable`,
    bpe.go:105-144): list the (token, weight) pairs, sort them by descending weight,
    keep the first `tokensLimit` and record the longest kept token. */
module Selection {
  import opened Bpe

  /** `weightedToken` (bpe.go:19-22); the token pointer is modelled by the token itself. */
  datatype WeightedToken = WeightedToken(token: string, weight: int)

  function Min(a: int, b: int): int {
    if a <= b then a else b
  }

  /** No token occurs twice in the list. */
  ghost predicate DistinctTokens(s: seq<WeightedToken>) {
    forall i, j :: 0 <= i < j < |s| ==> s[i].token != s[j].token
  }

  /** `s` lists every entry of the table exactly once, with its weight. */
  ghost predicate IsListing(s: seq<WeightedToken>, tft: map<string, int>) {
    && DistinctTokens(s)
    && (forall k :: 0 <= k < |s| ==> s[k].token in tft && s[k].weight == tft[s[k].token])
    && (forall t :: t in tft ==> WeightedToken(t, tft[t]) in s)
  }

  ghost predicate SortedByWeight(s: seq<WeightedToken>) {
    forall i, j :: 0 <= i < j < |s| ==> s[i].weight >= s[j].weight
  }

  /** The tokens of a list, as a set. */
  ghost function TokenSet(s: seq<WeightedToken>): set<string> {
    set k | 0 <= k < |s| :: s[k].token
  }

  /** What a model built from `tft` with limit `n` is, independently of how ties are
      broken: it keeps `min(|tft|, n)` of the table's tokens, no dropped token outweighs
      a kept one, and the length bound is the longest kept token (0 for none). */
  ghost predicate IsTopSelection(tft: map<string, int>, n: int, model: Model) {
    && model.vocab <= tft.Keys
    && |model.vocab| == Min(|tft|, n)
    && (forall t, u :: t in model.vocab && u in tft && u !in model.vocab ==> tft[t] >= tft[u])
    && (forall t :: t in model.vocab ==> |t| <= model.maxTokenLength)
    && (model.vocab == {} ==> model.maxTokenLength == 0)
    && (model.vocab != {} ==> exists t :: t in model.vocab && |t| == model.maxTokenLength)
  }

  /** The loop of bpe.go:106-114: one pair per table entry, in the map's (arbitrary)
      iteration order. */
  method ListTable(tft: map<string, int>) returns (a: array<WeightedToken>)
    ensures fresh(a)
    ensures a.Length == |tft| && IsListing(a[..], tft)
  {
    a := new WeightedToken[|tft|];
    var rest := tft.Keys;
    var i := 0;
    while rest != {}
      invariant rest <= tft.Keys && i + |rest| == |tft|
      invariant DistinctTokens(a[..i])
      invariant forall k :: 0 <= k < i ==> a[k].token in tft.Keys - rest && a[k].weight == tft[a[k].token]
      invariant forall t :: t in tft && t !in rest ==> WeightedToken(t, tft[t]) in a[..i]
      decreases |rest|
    {
      var t :| t in rest;
      a[i] := WeightedToken(t, tft[t]);
      rest := rest - {t};
      i := i + 1;
      assert a[..i] == a[..i - 1] + [a[i - 1]];
    }
    assert a[..] == a[..i];
  }

  /** `sort.Slice` by descending weight (bpe.go:116-118), as an in-place selection sort.
      Ties may end up in any order. */
  method SortByWeight(a: array<WeightedToken>)
    modifies a
    ensures SortedByWeight(a[..])
    ensures multiset(a[..]) == multiset(old(a[..]))
  {
    var i := 0;
    while i < a.Length
      invariant 0 <= i <= a.Length
      invariant SortedPrefix(a[..], i)
      invariant multiset(a[..]) == multiset(old(a[..]))
    {
      var m := Heaviest(a, i);
      ghost var before := a[..];
      Swap(a, i, m);
      SwapKeepsOrder(before, a[..], i, m);
      i := i + 1;
    }
  }

  /** The first `i` entries are in place: sorted, and none lighter than a later entry. */
  ghost predicate SortedPrefix(s: seq<WeightedToken>, i: int) {
    && (forall p, q :: 0 <= p < q < i && q < |s| ==> s[p].weight >= s[q].weight)
    && (forall p, q :: 0 <= p < i <= q < |s| ==> s[p].weight >= s[q].weight)
  }

  /** Moving a heaviest entry of the unsorted part to its front extends the sorted prefix;
      once the prefix is everything, the list is sorted. */
  lemma SwapKeepsOrder(s: seq<WeightedToken>, t: seq<WeightedToken>, i: int, m: int)
    requires 0 <= i <= m < |s| && t == s[i := s[m]][m := s[i]]
    requires SortedPrefix(s, i)
    requires forall q :: i <= q < |s| ==> s[m].weight >= s[q].weight
    ensures SortedPrefix(t, i + 1)
    ensures i + 1 == |t| ==> SortedByWeight(t)
  {
  }

  /** The position of a heaviest pair at or after `i`. */
  method Heaviest(a: array<WeightedToken>, i: int) returns (m: int)
    requires 0 <= i < a.Length
    ensures i <= m < a.Length
    ensures forall q :: i <= q < a.Length ==> a[..][m].weight >= a[..][q].weight
  {
    m := i;
    var k := i + 1;
    while k < a.Length
      invariant i <= m < a.Length && i < k <= a.Length
      invariant forall q :: i <= q < k ==> a[m].weight >= a[q].weight
    {
      if a[k].weight > a[m].weight {
        m := k;
      }
      k := k + 1;
    }
  }

  /** Exchanges two entries of the array, keeping its contents as a multiset. */
  method Swap(a: array<WeightedToken>, i: int, j: int)
    requires 0 <= i < a.Length && 0 <= j < a.Length
    modifies a
    ensures a[..] == old(a[..])[i := old(a[j])][j := old(a[i])]
    ensures multiset(a[..]) == multiset(old(a[..]))
  {
    a[i], a[j] := a[j], a[i];
  }

  lemma {:induction false} DistinctCount(s: seq<WeightedToken>, x: WeightedToken)
    requires DistinctTokens(s)
    ensures multiset(s)[x] <= 1
  {
    if s != [] {
      var n := |s| - 1;
      assert s == s[..n] + [s[n]];
      assert DistinctTokens(s[..n]);
      DistinctCount(s[..n], x);
      if s[n] == x {
        assert x !in s[..n];
      }
    }
  }

  lemma RepeatCount(s: seq<WeightedToken>, i: int, j: int)
    requires 0 <= i < j < |s| && s[i] == s[j]
    ensures multiset(s)[s[i]] >= 2
  {
    assert s == s[..j] + [s[j]] + s[j + 1..];
    assert s[i] in s[..j];
  }

  /** Reordering a listing of the table (as the sort does) leaves it a listing. */
  lemma PermutedListing(s: seq<WeightedToken>, t: seq<WeightedToken>, tft: map<string, int>)
    requires IsListing(s, tft) && multiset(s) == multiset(t)
    ensures IsListing(t, tft)
  {
    forall k | 0 <= k < |t| ensures t[k].token in tft && t[k].weight == tft[t[k].token] {
      assert t[k] in multiset(t);
    }
    forall u | u in tft ensures WeightedToken(u, tft[u]) in t {
      assert WeightedToken(u, tft[u]) in multiset(s);
    }
    forall i, j | 0 <= i < j < |t| ensures t[i].token != t[j].token {
      if t[i].token == t[j].token {
        assert t[i] == t[j];
        RepeatCount(t, i, j);
        DistinctCount(s, t[i]);
        assert false;
      }
    }
  }

  /** `newModelFromTokensFrequencyTable`. A negative limit makes the truncation on
      bpe.go:121 panic, so it is excluded. */
  method NewModelFromTokensFrequencyTable(tft: map<string, int>, tokensLimit: int) returns (model: Model)
    requires tokensLimit >= 0
    ensures IsTopSelection(tft, tokensLimit, model)
  {
    var a := ListTable(tft);
    ghost var listed := a[..];
    SortByWeight(a);
    PermutedListing(listed, a[..], tft);
    var n := a.Length;
    if n > tokensLimit {
      n := tokensLimit;
    }
    model := ModelOfPrefix(a, n);
    SelectionFacts(tft, tokensLimit, a[..], n, model.vocab);
  }

  /** The loop of bpe.go:124-138 over the first `n` pairs: the set of their tokens and
      the greatest token length, starting from 0. */
  method ModelOfPrefix(a: array<WeightedToken>, n: int) returns (model: Model)
    requires 0 <= n <= a.Length && DistinctTokens(a[..])
    ensures model.vocab == TokenSet(a[..n]) && |model.vocab| == n
    ensures forall t :: t in model.vocab ==> |t| <= model.maxTokenLength
    ensures model.vocab == {} ==> model.maxTokenLength == 0
    ensures model.vocab != {} ==> exists t :: t in model.vocab && |t| == model.maxTokenLength
  {
    ghost var s := a[..];
    var maxTokenLength := 0;
    var vocab: set<string> := {};
    var k := 0;
    while k < n
      invariant 0 <= k <= n
      invariant vocab == TokenSet(s[..k]) && |vocab| == k
      invariant forall t :: t in vocab ==> |t| <= maxTokenLength
      invariant vocab == {} ==> maxTokenLength == 0
      invariant vocab != {} ==> exists t :: t in vocab && |t| == maxTokenLength
    {
      var token := a[k].token;
      if |token| > maxTokenLength {
        maxTokenLength := |token|;
      }
      PrefixStep(s, k);
      vocab := vocab + {token};
      k := k + 1;
    }
    model := Model(maxTokenLength, vocab);
  }

  /** In a distinct list, the next token is new to the prefix before it. */
  lemma PrefixStep(s: seq<WeightedToken>, k: int)
    requires 0 <= k < |s| && DistinctTokens(s)
    ensures s[k].token !in TokenSet(s[..k])
    ensures TokenSet(s[..k + 1]) == TokenSet(s[..k]) + {s[k].token}
  {
    assert forall p :: 0 <= p < k ==> s[..k + 1][p] == s[..k][p] == s[p];
  }

  /** The kept prefix of a sorted listing is a top selection of the table. */
  lemma SelectionFacts(tft: map<string, int>, tokensLimit: int, s: seq<WeightedToken>, n: int, vocab: set<string>)
    requires tokensLimit >= 0
    requires IsListing(s, tft) && SortedByWeight(s) && |s| == |tft|
    requires n == Min(|s|, tokensLimit) && vocab == TokenSet(s[..n])
    ensures vocab <= tft.Keys
    ensures forall t, u :: t in vocab && u in tft && u !in vocab ==> tft[t] >= tft[u]
  {
    forall t, u | t in vocab && u in tft && u !in vocab ensures tft[t] >= tft[u] {
      var p :| 0 <= p < n && s[..n][p].token == t;
      var q :| 0 <= q < |s| && s[q] == WeightedToken(u, tft[u]);
    }
  }

  lemma {:induction false} SubsetSize<T>(a: set<T>, b: set<T>)
    requires a <= b
    ensures |a| <= |b|
    decreases |b|
  {
    if a != {} {
      var x :| x in a;
      SubsetSize(a - {x}, b - {x});
    }
  }

  /** A limit at least the table's size keeps every token. */
  lemma {:induction false} LargeLimitKeepsAll(tft: map<string, int>, n: int, model: Model)
    requires n >= |tft| && IsTopSelection(tft, n, model)
    ensures model.vocab == tft.Keys
  {
    if model.vocab != tft.Keys {
      assert !(tft.Keys <= model.vocab);
      var u :| u in tft.Keys && u !in model.vocab;
      SubsetSize(model.vocab, tft.Keys - {u});
    }
  }

  /** With a limit of one, a token strictly heavier than all others is the whole vocabulary. */
  lemma KeepsHeaviest(tft: map<string, int>, h: string, model: Model)
    requires h in tft && forall u :: u in tft && u != h ==> tft[u] < tft[h]
    requires IsTopSelection(tft, 1, model)
    ensures model.vocab == {h} && model.maxTokenLength == |h|
  {
    var t :| t in model.vocab;
    assert model.vocab == {t} by {
      forall x | x in model.vocab ensures x == t {
        if x != t {
          SubsetSize({t, x}, model.vocab);
        }
      }
    }
  }

  /** train_test.go:88-95: from the table a:9, aa:8, aaa:7, aaaa:6, aaaaa:5 (the table
      of "aaaaaaaaa", see `Train.RepeatedLetterTable`) a limit of one keeps only "a". */
  lemma RepeatedLetterKeepsA(tft: map<string, int>, model: Model)
    requires tft == map["a" := 9, "aa" := 8, "aaa" := 7, "aaaa" := 6, "aaaaa" := 5]
    requires IsTopSelection(tft, 1, model)
    ensures model.vocab == {"a"} && model.maxTokenLength == 1
  {
    KeepsHeaviest(tft, "a", model);
  }
}
