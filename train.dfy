/** Counting candidate tokens (train.go): every character of a word, and every longer
    run of word characters that starts at a word character, up to a length bound. */
module Train {
  import opened Text
  import opened Bpe
  import opened Selection

  /** `maxTokenLength` (train.go:12), the bound `buildFrequencyTable` passes to `tokenize`. */
  const MaxTokenLength := 5

  /** `isWordChar` (train.go:82-88). */
  predicate IsWordChar(c: char) {
    IsLetter(c) || c == '-'
  }

  ghost predicate AllWordChars(s: string) {
    forall k :: 0 <= k < |s| ==> IsWordChar(s[k])
  }

  lemma AllWordCharsCons(s: string)
    requires s != []
    ensures AllWordChars(s) <==> IsWordChar(s[0]) && AllWordChars(s[1..])
  {
    if IsWordChar(s[0]) && AllWordChars(s[1..]) {
      forall k | 0 <= k < |s| ensures IsWordChar(s[k]) {
        if k > 0 {
          assert s[k] == s[1..][k - 1];
        }
      }
    }
  }

  /** A Go map reads as 0 at a missing key. */
  function Get(table: map<string, int>, key: string): int {
    if key in table then table[key] else 0
  }

  /** `table[key]++`. */
  function Bump(table: map<string, int>, key: string): map<string, int>
  {
    table[key := Get(table, key) + 1]
  }

  /** Increments the keys of `keys` one after the other. */
  function AddKeys(table: map<string, int>, keys: seq<string>): map<string, int>
    decreases |keys|
  {
    if keys == [] then table else AddKeys(Bump(table, keys[0]), keys[1..])
  }

  lemma AddKeysCons(table: map<string, int>, key: string, keys: seq<string>)
    ensures AddKeys(table, [key] + keys) == AddKeys(Bump(table, key), keys)
  {
    assert ([key] + keys)[1..] == keys;
  }

  /** The keys counted by the inner loop of train.go:66-78 from position `i` once it
      has reached the end offset `e`: `word[i..e]`, `word[i..e+1]`, … while the end
      stays within the word and the bound and the last character is a word character. */
  function RunKeys(word: string, maxTokenLength: int, i: nat, e: nat): seq<string>
    requires i < e
    decreases |word| + 1 - e
  {
    if e > |word| || e - i > maxTokenLength || !IsWordChar(word[e - 1]) then []
    else [word[i..e]] + RunKeys(word, maxTokenLength, i, e + 1)
  }

  /** The keys counted for position `i` by one turn of the outer loop (train.go:59-79). */
  function KeysAt(word: string, maxTokenLength: int, i: nat): seq<string>
    requires i < |word|
  {
    [word[i..i + 1]] + (if IsWordChar(word[i]) then RunKeys(word, maxTokenLength, i, i + 2) else [])
  }

  /** The keys counted for the positions from `i` on, in order. */
  function EmittedFrom(word: string, maxTokenLength: int, i: nat): seq<string>
    decreases |word| - i
  {
    if i >= |word| then [] else KeysAt(word, maxTokenLength, i) + EmittedFrom(word, maxTokenLength, i + 1)
  }

  lemma {:induction false} AddKeysAppend(table: map<string, int>, a: seq<string>, b: seq<string>)
    ensures AddKeys(table, a + b) == AddKeys(AddKeys(table, a), b)
    decreases |a|
  {
    if a != [] {
      assert (a + b)[1..] == a[1..] + b;
      AddKeysAppend(Bump(table, a[0]), a[1..], b);
    } else {
      assert a + b == b;
    }
  }

  /** `tokenize` (train.go:58-80). The map is owned by the caller and updated in place;
      the model passes it in and returns its new value. */
  method Tokenize(tokens: map<string, int>, word: string, maxTokenLength: int) returns (out: map<string, int>)
    ensures out == AddKeys(tokens, EmittedFrom(word, maxTokenLength, 0))
  {
    out := tokens;
    var i := 0;
    while i < |word|
      invariant 0 <= i <= |word|
      invariant AddKeys(out, EmittedFrom(word, maxTokenLength, i)) == AddKeys(tokens, EmittedFrom(word, maxTokenLength, 0))
    {
      ghost var before := out;
      out := Bump(out, word[i..i + 1]);
      if IsWordChar(word[i]) {
        out := CountRun(out, word, maxTokenLength, i);
      }
      TokenizeStep(before, word, maxTokenLength, i);
      i := i + 1;
    }
  }

  /** One turn of the outer loop: the single character, then the run from it, then the
      keys of the later positions. */
  lemma TokenizeStep(table: map<string, int>, word: string, maxTokenLength: int, i: nat)
    requires i < |word|
    ensures var run := if IsWordChar(word[i]) then RunKeys(word, maxTokenLength, i, i + 2) else [];
      AddKeys(table, EmittedFrom(word, maxTokenLength, i))
        == AddKeys(AddKeys(Bump(table, word[i..i + 1]), run), EmittedFrom(word, maxTokenLength, i + 1))
  {
    var run := if IsWordChar(word[i]) then RunKeys(word, maxTokenLength, i, i + 2) else [];
    var rest := EmittedFrom(word, maxTokenLength, i + 1);
    AddKeysAppend(Bump(table, word[i..i + 1]), run, rest);
    assert EmittedFrom(word, maxTokenLength, i) == [word[i..i + 1]] + (run + rest);
    AddKeysCons(table, word[i..i + 1], run + rest);
  }

  /** The inner loop of `tokenize` (train.go:66-78) for a word character at `i`. */
  method CountRun(tokens: map<string, int>, word: string, maxTokenLength: int, i: nat) returns (out: map<string, int>)
    requires i < |word|
    ensures out == AddKeys(tokens, RunKeys(word, maxTokenLength, i, i + 2))
  {
    out := tokens;
    var j := 0;
    while i + 1 + j < |word|
      invariant 0 <= j && i + 1 + j <= |word|
      invariant AddKeys(out, RunKeys(word, maxTokenLength, i, i + j + 2))
        == AddKeys(tokens, RunKeys(word, maxTokenLength, i, i + 2))
      decreases |word| - j
    {
      var next := word[i + 1 + j];
      var i2 := i + j + 2;
      if i2 - i > maxTokenLength {
        return;
      }
      if !IsWordChar(next) {
        return;
      }
      RunKeysStep(word, maxTokenLength, i, i2);
      AddKeysCons(out, word[i..i2], RunKeys(word, maxTokenLength, i, i2 + 1));
      out := Bump(out, word[i..i2]);
      j := j + 1;
    }
  }

  lemma RunKeysStep(word: string, maxTokenLength: int, i: nat, e: nat)
    requires i < e <= |word| && e - i <= maxTokenLength && IsWordChar(word[e - 1])
    ensures RunKeys(word, maxTokenLength, i, e) == [word[i..e]] + RunKeys(word, maxTokenLength, i, e + 1)
  {
  }

  /** The count of every key after `AddKeys` is its old count plus its number of
      occurrences in `keys`; the keys present are the old ones and those of `keys`. */
  lemma {:induction false} AddKeysCounts(table: map<string, int>, keys: seq<string>)
    ensures forall k :: Get(AddKeys(table, keys), k) == Get(table, k) + multiset(keys)[k]
    ensures AddKeys(table, keys).Keys == table.Keys + set k | k in keys
    decreases |keys|
  {
    if keys != [] {
      AddKeysCounts(Bump(table, keys[0]), keys[1..]);
      assert keys == [keys[0]] + keys[1..];
      assert multiset(keys) == multiset{keys[0]} + multiset(keys[1..]);
      assert (set k | k in keys) == {keys[0]} + set k | k in keys[1..];
    }
  }

  /** The keys that `tokenize` counts at all: single characters, and runs of two to
      `maxTokenLength` word characters. */
  ghost predicate Counted(key: string, maxTokenLength: int) {
    |key| == 1 || (2 <= |key| <= maxTokenLength && AllWordChars(key))
  }

  ghost predicate OccursAt(word: string, i: nat, key: string) {
    i + |key| <= |word| && word[i..i + |key|] == key
  }

  /** Number of positions from `i` on at which `key` occurs in `word`. */
  ghost function Occurrences(word: string, key: string, i: nat): nat
    decreases |word| - i
  {
    if i >= |word| then 0 else (if OccursAt(word, i, key) then 1 else 0) + Occurrences(word, key, i + 1)
  }

  /** `RunKeys` from end offset `e` holds `key` when `key` starts at `i`, is no shorter
      than `e - i`, fits the bound, and the word characters reach from `e - 1` to its end. */
  ghost predicate RunReaches(word: string, maxTokenLength: int, i: nat, e: nat, key: string)
    requires i < e
  {
    && e <= i + |key| <= |word| && |key| <= maxTokenLength && word[i..i + |key|] == key
    && AllWordChars(word[e - 1..i + |key|])
  }

  lemma {:induction false} RunKeysCount(word: string, maxTokenLength: int, i: nat, e: nat, key: string)
    requires i < e
    ensures multiset(RunKeys(word, maxTokenLength, i, e))[key]
      == if RunReaches(word, maxTokenLength, i, e, key) then 1 else 0
    decreases |word| + 1 - e
  {
    var n := i + |key|;
    if e > |word| || e - i > maxTokenLength || !IsWordChar(word[e - 1]) {
      RunStops(word, maxTokenLength, i, e, key);
    } else {
      var r := RunKeys(word, maxTokenLength, i, e + 1);
      RunKeysCount(word, maxTokenLength, i, e + 1, key);
      assert multiset(RunKeys(word, maxTokenLength, i, e)) == multiset{word[i..e]} + multiset(r);
      RunReachesCases(word, maxTokenLength, i, e, key);
    }
  }

  /** One more end offset: `key` is reached from `e` when it is the slice ending at `e`,
      or when it is reached from `e + 1`, and never both. */
  lemma RunReachesCases(word: string, maxTokenLength: int, i: nat, e: nat, key: string)
    requires i < e <= |word| && e - i <= maxTokenLength && IsWordChar(word[e - 1])
    ensures RunReaches(word, maxTokenLength, i, e, key)
      <==> word[i..e] == key || RunReaches(word, maxTokenLength, i, e + 1, key)
    ensures !(word[i..e] == key && RunReaches(word, maxTokenLength, i, e + 1, key))
  {
    var n := i + |key|;
    if n < e {
      assert |word[i..e]| != |key|;
    } else if n == e {
      assert word[e - 1..n] == [word[e - 1]];
    } else {
      assert |word[i..e]| != |key|;
      if n <= |word| {
        RunReachesStep(word, maxTokenLength, i, e, key);
      }
    }
  }

  lemma RunStops(word: string, maxTokenLength: int, i: nat, e: nat, key: string)
    requires i < e && (e > |word| || e - i > maxTokenLength || !IsWordChar(word[e - 1]))
    ensures !RunReaches(word, maxTokenLength, i, e, key)
  {
    var n := i + |key|;
    if e <= n <= |word| && e - i <= maxTokenLength {
      assert word[e - 1..n][0] == word[e - 1];
    }
  }

  lemma RunReachesStep(word: string, maxTokenLength: int, i: nat, e: nat, key: string)
    requires i < e && e < i + |key| <= |word| && IsWordChar(word[e - 1])
    ensures RunReaches(word, maxTokenLength, i, e, key) <==> RunReaches(word, maxTokenLength, i, e + 1, key)
  {
    var n := i + |key|;
    AllWordCharsCons(word[e - 1..n]);
    assert word[e - 1..n][1..] == word[e..n];
  }

  /** One turn of the outer loop counts `key` once exactly when `key` is counted at all
      and occurs at `i`. */
  lemma KeysAtCount(word: string, maxTokenLength: int, i: nat, key: string)
    requires i < |word|
    ensures multiset(KeysAt(word, maxTokenLength, i))[key]
      == if Counted(key, maxTokenLength) && OccursAt(word, i, key) then 1 else 0
  {
    var run := if IsWordChar(word[i]) then RunKeys(word, maxTokenLength, i, i + 2) else [];
    assert multiset(KeysAt(word, maxTokenLength, i)) == multiset{word[i..i + 1]} + multiset(run);
    if IsWordChar(word[i]) {
      RunKeysCount(word, maxTokenLength, i, i + 2, key);
      RunFromStart(word, maxTokenLength, i, key);
    } else if 2 <= |key| && OccursAt(word, i, key) {
      assert key[0] == word[i];
    }
  }

  /** From a word character, the run holds exactly the counted keys of length two or
      more that occur there. */
  lemma RunFromStart(word: string, maxTokenLength: int, i: nat, key: string)
    requires i < |word| && IsWordChar(word[i])
    ensures RunReaches(word, maxTokenLength, i, i + 2, key)
      <==> 2 <= |key| && Counted(key, maxTokenLength) && OccursAt(word, i, key)
  {
    if 2 <= |key| && i + |key| <= |word| {
      var n := i + |key|;
      AllWordCharsCons(word[i..n]);
      assert word[i..n][1..] == word[i + 1..n];
      assert word[i..n][0] == word[i];
    }
  }

  lemma {:induction false} EmittedCount(word: string, maxTokenLength: int, i: nat, key: string)
    ensures multiset(EmittedFrom(word, maxTokenLength, i))[key]
      == if Counted(key, maxTokenLength) then Occurrences(word, key, i) else 0
    decreases |word| - i
  {
    if i < |word| {
      EmittedCount(word, maxTokenLength, i + 1, key);
      KeysAtCount(word, maxTokenLength, i, key);
    }
  }

  /** What `tokenize` does to the table, in closed form: each key's count grows by its
      number of occurrences in the word if it is a single character or a run of two to
      `maxTokenLength` word characters, and by nothing otherwise. */
  lemma TokenizeCounts(tokens: map<string, int>, word: string, maxTokenLength: int, key: string)
    ensures Get(AddKeys(tokens, EmittedFrom(word, maxTokenLength, 0)), key)
      == Get(tokens, key) + (if Counted(key, maxTokenLength) then Occurrences(word, key, 0) else 0)
  {
    AddKeysCounts(tokens, EmittedFrom(word, maxTokenLength, 0));
    EmittedCount(word, maxTokenLength, 0, key);
  }

  /** `tokenize` never lowers a count and never removes a key. */
  lemma TokenizeOnlyGrows(tokens: map<string, int>, word: string, maxTokenLength: int)
    ensures tokens.Keys <= AddKeys(tokens, EmittedFrom(word, maxTokenLength, 0)).Keys
    ensures forall k :: Get(AddKeys(tokens, EmittedFrom(word, maxTokenLength, 0)), k) >= Get(tokens, k)
  {
    AddKeysCounts(tokens, EmittedFrom(word, maxTokenLength, 0));
  }

  function Max(a: int, b: int): int {
    if a >= b then a else b
  }

  lemma {:induction false} RunKeysLength(word: string, maxTokenLength: int, i: nat, e: nat)
    requires i < e
    ensures |RunKeys(word, maxTokenLength, i, e)| <= Max(0, maxTokenLength - (e - i) + 1)
    decreases |word| + 1 - e
  {
    if !(e > |word| || e - i > maxTokenLength || !IsWordChar(word[e - 1])) {
      RunKeysLength(word, maxTokenLength, i, e + 1);
    }
  }

  /** A word of `n` characters makes `tokenize` count between `n` and
      `n * max(1, maxTokenLength)` keys. */
  lemma {:induction false} EmittedLength(word: string, maxTokenLength: int, i: nat)
    requires i <= |word|
    ensures |word| - i <= |EmittedFrom(word, maxTokenLength, i)| <= (|word| - i) * Max(1, maxTokenLength)
    decreases |word| - i
  {
    if i < |word| {
      EmittedLength(word, maxTokenLength, i + 1);
      if IsWordChar(word[i]) {
        RunKeysLength(word, maxTokenLength, i, i + 2);
      }
      assert |KeysAt(word, maxTokenLength, i)| <= Max(1, maxTokenLength);
      assert (|word| - i) * Max(1, maxTokenLength)
        == (|word| - (i + 1)) * Max(1, maxTokenLength) + Max(1, maxTokenLength);
    }
  }

  /** The keys `tokenize` counts for four words of train_test.go:142-201. */
  lemma DigitsKeys(w: string)
    requires w == "12314"
    ensures EmittedFrom(w, 3, 0) == ["1", "2", "3", "1", "4"]
  {
    assert w[0..1] == "1" && w[1..2] == "2" && w[2..3] == "3" && w[3..4] == "1" && w[4..5] == "4";
    assert EmittedFrom(w, 3, 5) == [];
    assert EmittedFrom(w, 3, 4) == ["4"];
    assert EmittedFrom(w, 3, 3) == ["1", "4"];
    assert EmittedFrom(w, 3, 2) == ["3", "1", "4"];
    assert EmittedFrom(w, 3, 1) == ["2", "3", "1", "4"];
  }

  lemma HyphenKeys(w: string)
    requires w == "a-b"
    ensures EmittedFrom(w, 3, 0) == ["a", "a-", "a-b", "-", "-b", "b"]
  {
    assert w[0..1] == "a" && w[1..2] == "-" && w[2..3] == "b";
    assert w[0..2] == "a-" && w[0..3] == "a-b" && w[1..3] == "-b";
    assert RunKeys(w, 3, 0, 4) == [];
    assert RunKeys(w, 3, 0, 3) == ["a-b"];
    assert RunKeys(w, 3, 1, 4) == [];
    assert EmittedFrom(w, 3, 3) == [];
    assert EmittedFrom(w, 3, 2) == ["b"];
  }

  lemma BracketedKeys(w: string)
    requires w == "[xxx]"
    ensures EmittedFrom(w, 3, 0) == ["[", "x", "xx", "xxx", "x", "xx", "x", "]"]
  {
    assert w[0..1] == "[" && w[1..2] == "x" && w[2..3] == "x" && w[3..4] == "x" && w[4..5] == "]";
    assert w[1..3] == "xx" && w[1..4] == "xxx" && w[2..4] == "xx";
    assert RunKeys(w, 3, 1, 5) == [];
    assert RunKeys(w, 3, 1, 4) == ["xxx"];
    assert RunKeys(w, 3, 1, 3) == ["xx", "xxx"];
    assert RunKeys(w, 3, 2, 5) == [];
    assert RunKeys(w, 3, 2, 4) == ["xx"];
    assert RunKeys(w, 3, 3, 5) == [];
    assert EmittedFrom(w, 3, 5) == [];
    assert EmittedFrom(w, 3, 4) == ["]"];
    assert EmittedFrom(w, 3, 3) == ["x", "]"];
    assert EmittedFrom(w, 3, 2) == ["x", "xx", "x", "]"];
  }

  lemma ParenthesizedKeys(w: string)
    requires w == "(foo)"
    ensures EmittedFrom(w, 1, 0) == ["(", "f", "o", "o", ")"]
  {
    assert w[0..1] == "(" && w[1..2] == "f" && w[2..3] == "o" && w[3..4] == "o" && w[4..5] == ")";
    assert EmittedFrom(w, 1, 5) == [];
    assert EmittedFrom(w, 1, 4) == [")"];
    assert EmittedFrom(w, 1, 3) == ["o", ")"];
    assert EmittedFrom(w, 1, 2) == ["o", "o", ")"];
  }

  /** The one-character strings of `s`, in order. */
  function Characters(s: string): seq<string> {
    seq(|s|, k requires 0 <= k < |s| => s[k..k + 1])
  }

  /** With a bound below 2 no run is counted (train.go:69-71 breaks at once): the keys are
      the word's characters one by one. */
  lemma BoundOneOnlySingles(word: string, maxTokenLength: int)
    requires maxTokenLength <= 1
    ensures EmittedFrom(word, maxTokenLength, 0) == Characters(word)
  {
    SinglesFrom(word, maxTokenLength, 0);
    assert word[0..] == word;
  }

  lemma {:induction false} SinglesFrom(word: string, maxTokenLength: int, i: nat)
    requires maxTokenLength <= 1 && i <= |word|
    ensures EmittedFrom(word, maxTokenLength, i) == Characters(word[i..])
    decreases |word| - i
  {
    if i < |word| {
      SinglesFrom(word, maxTokenLength, i + 1);
      assert KeysAt(word, maxTokenLength, i) == [word[i..i + 1]];
      CharactersCons(word[i..]);
      assert word[i..][..1] == word[i..i + 1];
      assert word[i..][1..] == word[i + 1..];
    }
  }

  lemma CharactersCons(s: string)
    requires s != []
    ensures Characters(s) == [s[..1]] + Characters(s[1..])
  {
    var cs := Characters(s);
    forall k | 1 <= k < |cs| ensures cs[k] == Characters(s[1..])[k - 1] {
      assert s[k..k + 1] == s[1..][k - 1..k];
    }
  }

  /** The tables of train_test.go:142-201 (and bpe_test.go:30-74), one lemma each. */
  lemma DigitsTable(w: string)
    requires w == "12314"
    ensures AddKeys(map[], EmittedFrom(w, 3, 0)) == map["1" := 2, "2" := 1, "3" := 1, "4" := 1]
  {
    DigitsKeys(w);
    assert AddKeys(map[], ["1", "2", "3", "1", "4"]) == map["1" := 2, "2" := 1, "3" := 1, "4" := 1];
  }

  lemma HyphenTable(w: string)
    requires w == "a-b"
    ensures AddKeys(map[], EmittedFrom(w, 3, 0))
      == map["a" := 1, "a-" := 1, "a-b" := 1, "-" := 1, "-b" := 1, "b" := 1]
  {
    HyphenKeys(w);
    assert AddKeys(map[], ["a", "a-", "a-b", "-", "-b", "b"])
      == map["a" := 1, "a-" := 1, "a-b" := 1, "-" := 1, "-b" := 1, "b" := 1];
  }

  lemma BracketedTable(w: string)
    requires w == "[xxx]"
    ensures AddKeys(map[], EmittedFrom(w, 3, 0)) == map["[" := 1, "]" := 1, "x" := 3, "xx" := 2, "xxx" := 1]
  {
    BracketedKeys(w);
    assert AddKeys(map[], ["[", "x", "xx", "xxx", "x", "xx", "x", "]"])
      == map["[" := 1, "]" := 1, "x" := 3, "xx" := 2, "xxx" := 1];
  }

  lemma ParenthesizedTable(w: string)
    requires w == "(foo)"
    ensures AddKeys(map[], EmittedFrom(w, 1, 0)) == map["(" := 1, "f" := 1, "o" := 2, ")" := 1]
  {
    ParenthesizedKeys(w);
    assert AddKeys(map[], ["(", "f", "o", "o", ")"]) == map["(" := 1, "f" := 1, "o" := 2, ")" := 1];
  }

  lemma FiveLetterKeys(w: string)
    requires w == "abcad"
    ensures EmittedFrom(w, 3, 0) == ["a", "ab", "abc", "b", "bc", "bca", "c", "ca", "cad", "a", "ad", "d"]
  {
    assert w[0..1] == "a" && w[1..2] == "b";
    assert w[0..2] == "ab" && w[0..3] == "abc" && w[1..3] == "bc" && w[1..4] == "bca";
    assert RunKeys(w, 3, 0, 4) == [] && RunKeys(w, 3, 1, 5) == [];
    assert RunKeys(w, 3, 0, 3) == ["abc"] && RunKeys(w, 3, 1, 4) == ["bca"];
    FiveLetterKeysTail(w);
    assert KeysAt(w, 3, 0) == ["a", "ab", "abc"];
    assert KeysAt(w, 3, 1) == ["b", "bc", "bca"];
    assert EmittedFrom(w, 3, 0) == KeysAt(w, 3, 0) + (KeysAt(w, 3, 1) + EmittedFrom(w, 3, 2));
  }

  lemma FiveLetterKeysTail(w: string)
    requires w == "abcad"
    ensures EmittedFrom(w, 3, 2) == ["c", "ca", "cad", "a", "ad", "d"]
  {
    assert w[2..3] == "c" && w[3..4] == "a" && w[4..5] == "d";
    assert w[2..4] == "ca" && w[2..5] == "cad" && w[3..5] == "ad";
    assert RunKeys(w, 3, 2, 6) == [] && RunKeys(w, 3, 3, 6) == [] && RunKeys(w, 3, 4, 6) == [];
    assert RunKeys(w, 3, 2, 5) == ["cad"] && RunKeys(w, 3, 3, 5) == ["ad"];
    assert EmittedFrom(w, 3, 5) == [];
    assert EmittedFrom(w, 3, 4) == ["d"];
    assert EmittedFrom(w, 3, 3) == ["a", "ad", "d"];
  }

  /** The 11-entry table of train_test.go:153-167. */
  lemma FiveLetterTable(w: string)
    requires w == "abcad"
    ensures AddKeys(map[], EmittedFrom(w, 3, 0)) == map[
      "a" := 2, "b" := 1, "c" := 1, "d" := 1, "ab" := 1, "ad" := 1,
      "abc" := 1, "bc" := 1, "bca" := 1, "ca" := 1, "cad" := 1]
  {
    FiveLetterKeys(w);
    var front, back := ["a", "ab", "abc", "b", "bc", "bca"], ["c", "ca", "cad", "a", "ad", "d"];
    assert EmittedFrom(w, 3, 0) == front + back;
    AddKeysAppend(map[], front, back);
    FiveLetterHalves(front, back);
  }

  lemma FiveLetterHalves(front: seq<string>, back: seq<string>)
    requires front == ["a", "ab", "abc", "b", "bc", "bca"] && back == ["c", "ca", "cad", "a", "ad", "d"]
    ensures AddKeys(AddKeys(map[], front), back) == map[
      "a" := 2, "b" := 1, "c" := 1, "d" := 1, "ab" := 1, "ad" := 1,
      "abc" := 1, "bc" := 1, "bca" := 1, "ca" := 1, "cad" := 1]
  {
    assert AddKeys(map[], ["a", "ab", "abc", "b", "bc", "bca"])
      == map["a" := 1, "ab" := 1, "abc" := 1, "b" := 1, "bc" := 1, "bca" := 1];
    AddKeysAppend(AddKeys(map[], front), back[..3], back[3..]);
    assert back[..3] + back[3..] == back;
    FiveLetterStep(AddKeys(map[], front), back[..3]);
    FiveLetterLast(AddKeys(AddKeys(map[], front), back[..3]), back[3..]);
  }

  lemma FiveLetterStep(t: map<string, int>, keys: seq<string>)
    requires t == map["a" := 1, "ab" := 1, "abc" := 1, "b" := 1, "bc" := 1, "bca" := 1]
    requires keys == ["c", "ca", "cad"]
    ensures AddKeys(t, keys)
      == map["a" := 1, "ab" := 1, "abc" := 1, "b" := 1, "bc" := 1, "bca" := 1, "c" := 1, "ca" := 1, "cad" := 1]
  {
    assert AddKeys(map["a" := 1, "ab" := 1, "abc" := 1, "b" := 1, "bc" := 1, "bca" := 1], ["c", "ca", "cad"])
      == map["a" := 1, "ab" := 1, "abc" := 1, "b" := 1, "bc" := 1, "bca" := 1, "c" := 1, "ca" := 1, "cad" := 1];
  }

  lemma FiveLetterLast(t: map<string, int>, keys: seq<string>)
    requires t == map["a" := 1, "ab" := 1, "abc" := 1, "b" := 1, "bc" := 1, "bca" := 1, "c" := 1, "ca" := 1, "cad" := 1]
    requires keys == ["a", "ad", "d"]
    ensures AddKeys(t, keys) == map[
      "a" := 2, "b" := 1, "c" := 1, "d" := 1, "ab" := 1, "ad" := 1,
      "abc" := 1, "bc" := 1, "bca" := 1, "ca" := 1, "cad" := 1]
  {
    assert AddKeys(map["a" := 1, "ab" := 1, "abc" := 1, "b" := 1, "bc" := 1, "bca" := 1, "c" := 1, "ca" := 1, "cad" := 1],
      ["a", "ad", "d"]) == map[
      "a" := 2, "b" := 1, "c" := 1, "d" := 1, "ab" := 1, "ad" := 1,
      "abc" := 1, "bc" := 1, "bca" := 1, "ca" := 1, "cad" := 1];
  }

  /** The keys counted for a list of words, word after word. */
  function WordsKeys(words: seq<string>, maxTokenLength: int): seq<string>
  {
    if words == [] then []
    else WordsKeys(words[..|words| - 1], maxTokenLength) + EmittedFrom(words[|words| - 1], maxTokenLength, 0)
  }

  /** Number of occurrences of `key` in all the words together. */
  ghost function TotalOccurrences(words: seq<string>, key: string): nat
  {
    if words == [] then 0
    else TotalOccurrences(words[..|words| - 1], key) + Occurrences(words[|words| - 1], key, 0)
  }

  /** The per-word fold of `buildFrequencyTable` (train.go:34-55), with the word scanner
      replaced by the list of words it yields. */
  method BuildFrequencyTable(words: seq<string>) returns (table: map<string, int>)
    ensures table == AddKeys(map[], WordsKeys(words, MaxTokenLength))
  {
    table := map[];
    for k := 0 to |words|
      invariant table == AddKeys(map[], WordsKeys(words[..k], MaxTokenLength))
    {
      table := Tokenize(table, words[k], MaxTokenLength);
      assert words[..k + 1][..k] == words[..k];
      AddKeysAppend(map[], WordsKeys(words[..k], MaxTokenLength), EmittedFrom(words[k], MaxTokenLength, 0));
    }
    assert words[..|words|] == words;
  }

  lemma {:induction false} WordsKeysCount(words: seq<string>, maxTokenLength: int, key: string)
    ensures multiset(WordsKeys(words, maxTokenLength))[key]
      == if Counted(key, maxTokenLength) then TotalOccurrences(words, key) else 0
    decreases |words|
  {
    if words != [] {
      WordsKeysCount(words[..|words| - 1], maxTokenLength, key);
      EmittedCount(words[|words| - 1], maxTokenLength, 0, key);
    }
  }

  /** The frequency table counts every single character and every run of two to five
      word characters by its number of occurrences in all the words, and nothing else. */
  lemma FrequencyTableCounts(words: seq<string>, key: string)
    ensures Get(AddKeys(map[], WordsKeys(words, MaxTokenLength)), key)
      == if Counted(key, MaxTokenLength) then TotalOccurrences(words, key) else 0
  {
    AddKeysCounts(map[], WordsKeys(words, MaxTokenLength));
    WordsKeysCount(words, MaxTokenLength, key);
  }

  /** `Train` (train.go:15-30) without the file: the frequency table of the words, then
      the model with at most `tokensLimit` tokens. */
  method TrainWords(words: seq<string>, tokensLimit: int) returns (model: Model)
    requires tokensLimit >= 0
    ensures IsTopSelection(AddKeys(map[], WordsKeys(words, MaxTokenLength)), tokensLimit, model)
  {
    var tft := BuildFrequencyTable(words);
    model := NewModelFromTokensFrequencyTable(tft, tokensLimit);
  }

  /** Every position from `i` at which `key` fits is an occurrence: `key` occurs at the
      `|word| - |key| + 1 - i` positions left, or at none. */
  lemma {:induction false} OccurrencesEverywhere(word: string, key: string, i: nat)
    requires key != []
    requires forall p :: i <= p && p + |key| <= |word| ==> OccursAt(word, p, key)
    ensures Occurrences(word, key, i) == if i + |key| <= |word| then |word| - |key| + 1 - i else 0
    decreases |word| - i
  {
    if i < |word| {
      OccurrencesEverywhere(word, key, i + 1);
    }
  }

  /** A key counted a positive number of times occurs somewhere. */
  lemma {:induction false} OccurrencesSomewhere(word: string, key: string, i: nat)
    requires Occurrences(word, key, i) > 0
    ensures exists p :: i <= p && OccursAt(word, p, key)
    decreases |word| - i
  {
    if !OccursAt(word, i, key) {
      OccurrencesSomewhere(word, key, i + 1);
    }
  }

  ghost predicate AllA(s: string) {
    forall k :: 0 <= k < |s| ==> s[k] == 'a'
  }

  /** In a word of `a`s, a non-empty key of `a`s occurs at every position it fits. */
  lemma RepeatedLetterOccurs(word: string, key: string, p: nat)
    requires AllA(word) && AllA(key) && p + |key| <= |word|
    ensures OccursAt(word, p, key)
  {
    assert forall k :: 0 <= k < |key| ==> word[p..p + |key|][k] == key[k];
  }

  /** A key of one to five `a`s is one of the five repeated-letter keys. */
  lemma RepeatedLetterKey(t: string)
    requires AllA(t) && 1 <= |t| <= 5
    ensures t in {"a", "aa", "aaa", "aaaa", "aaaaa"}
  {
    if |t| == 1 {
      assert t == "a";
    } else if |t| == 2 {
      assert t == "aa";
    } else if |t| == 3 {
      assert t == "aaa";
    } else if |t| == 4 {
      assert t == "aaaa";
    } else {
      assert t == "aaaaa";
    }
  }

  /** The count of one key after tokenizing nine `a`s with bound 5: the keys of one to
      five `a`s occur 9, 8, 7, 6 and 5 times, and every other key not at all. */
  lemma RepeatedLetterCount(w: string, t: string)
    requires w == "aaaaaaaaa"
    ensures Get(AddKeys(map[], EmittedFrom(w, MaxTokenLength, 0)), t)
      == Get(map["a" := 9, "aa" := 8, "aaa" := 7, "aaaa" := 6, "aaaaa" := 5], t)
  {
    TokenizeCounts(map[], w, MaxTokenLength, t);
    assert AllA(w);
    if Counted(t, MaxTokenLength) && Occurrences(w, t, 0) > 0 {
      OccursInRepeated(w, t);
    }
    if AllA(t) && 1 <= |t| <= 5 {
      forall p | 0 <= p && p + |t| <= |w| ensures OccursAt(w, p, t) {
        RepeatedLetterOccurs(w, t, p);
      }
      OccurrencesEverywhere(w, t, 0);
      assert Counted(t, MaxTokenLength) by {
        assert forall k :: 0 <= k < |t| ==> IsLetter(t[k]);
      }
      RepeatedLetterKey(t);
    }
  }

  /** Only keys of one to five `a`s are counted in a word of `a`s. */
  lemma OccursInRepeated(w: string, t: string)
    requires AllA(w) && Counted(t, MaxTokenLength) && Occurrences(w, t, 0) > 0
    ensures AllA(t) && 1 <= |t| <= 5
  {
    OccurrencesSomewhere(w, t, 0);
    var p :| 0 <= p && OccursAt(w, p, t);
    assert forall k :: 0 <= k < |t| ==> t[k] == w[p..p + |t|][k];
  }

  /** A table built from nothing equals `e` when every key counts as in `e` and `e`
      holds no zero or negative entry. */
  lemma SameCounts(keys: seq<string>, e: map<string, int>)
    requires forall t :: t in e ==> e[t] > 0
    requires forall t :: Get(AddKeys(map[], keys), t) == Get(e, t)
    ensures AddKeys(map[], keys) == e
  {
    var r := AddKeys(map[], keys);
    AddKeysCounts(map[], keys);
    forall t ensures t in r <==> t in e {
      assert Get(r, t) == Get(e, t);
      assert t in keys <==> multiset(keys)[t] > 0;
    }
    forall t | t in r ensures r[t] == e[t] {
      assert Get(r, t) == Get(e, t);
    }
  }

  /** Tokenizing nine `a`s with bound 5 counts a:9, aa:8, aaa:7, aaaa:6, aaaaa:5. */
  lemma RepeatedLetterWordTable(w: string)
    requires w == "aaaaaaaaa"
    ensures AddKeys(map[], EmittedFrom(w, MaxTokenLength, 0))
      == map["a" := 9, "aa" := 8, "aaa" := 7, "aaaa" := 6, "aaaaa" := 5]
  {
    forall t ensures Get(AddKeys(map[], EmittedFrom(w, MaxTokenLength, 0)), t)
      == Get(map["a" := 9, "aa" := 8, "aaa" := 7, "aaaa" := 6, "aaaaa" := 5], t)
    {
      RepeatedLetterCount(w, t);
    }
    SameCounts(EmittedFrom(w, MaxTokenLength, 0), map["a" := 9, "aa" := 8, "aaa" := 7, "aaaa" := 6, "aaaaa" := 5]);
  }

  /** train_test.go:88-95: the frequency table of the single word "aaaaaaaaa". */
  lemma RepeatedLetterTable(words: seq<string>)
    requires words == ["aaaaaaaaa"]
    ensures AddKeys(map[], WordsKeys(words, MaxTokenLength))
      == map["a" := 9, "aa" := 8, "aaa" := 7, "aaaa" := 6, "aaaaa" := 5]
  {
    assert WordsKeys(words, MaxTokenLength) == EmittedFrom(words[0], MaxTokenLength, 0) by {
      assert words[..0] == [];
    }
    RepeatedLetterWordTable(words[0]);
  }

  /** train_test.go:88-95 end to end: training on "aaaaaaaaa" with a limit of one token
      gives the vocabulary {"a"} with bound 1. */
  lemma RepeatedLetterVocabulary(words: seq<string>, model: Model)
    requires words == ["aaaaaaaaa"]
    requires IsTopSelection(AddKeys(map[], WordsKeys(words, MaxTokenLength)), 1, model)
    ensures model.vocab == {"a"} && model.maxTokenLength == 1
  {
    RepeatedLetterTable(words);
    RepeatedLetterKeepsA(map["a" := 9, "aa" := 8, "aaa" := 7, "aaaa" := 6, "aaaaa" := 5], model);
  }

  /** The runs of a five-letter word of word characters, start by start. */
  lemma FiveLetterRuns(w: string)
    requires |w| == 5 && IsWordChar(w[0]) && IsWordChar(w[1]) && IsWordChar(w[2])
    requires IsWordChar(w[3]) && IsWordChar(w[4])
    ensures RunKeys(w, 5, 0, 2) == [w[0..2], w[0..3], w[0..4], w[0..5]]
    ensures RunKeys(w, 5, 1, 3) == [w[1..3], w[1..4], w[1..5]]
    ensures RunKeys(w, 5, 2, 4) == [w[2..4], w[2..5]]
    ensures RunKeys(w, 5, 3, 5) == [w[3..5]]
  {
    assert RunKeys(w, 5, 0, 6) == [] && RunKeys(w, 5, 1, 6) == [] && RunKeys(w, 5, 2, 6) == [];
    assert RunKeys(w, 5, 3, 6) == [];
    assert RunKeys(w, 5, 0, 5) == [w[0..5]];
    assert RunKeys(w, 5, 0, 4) == [w[0..4], w[0..5]];
    assert RunKeys(w, 5, 0, 3) == [w[0..3], w[0..4], w[0..5]];
    assert RunKeys(w, 5, 1, 5) == [w[1..5]];
    assert RunKeys(w, 5, 1, 4) == [w[1..4], w[1..5]];
    assert RunKeys(w, 5, 2, 5) == [w[2..5]];
  }

  /** All the keys of a five-letter word of word characters with a length bound of five. */
  lemma FiveLetterEmitted(w: string)
    requires |w| == 5 && IsWordChar(w[0]) && IsWordChar(w[1]) && IsWordChar(w[2])
    requires IsWordChar(w[3]) && IsWordChar(w[4])
    ensures EmittedFrom(w, 5, 0) == [w[0..1], w[0..2], w[0..3], w[0..4], w[0..5],
      w[1..2], w[1..3], w[1..4], w[1..5], w[2..3], w[2..4], w[2..5], w[3..4], w[3..5], w[4..5]]
  {
    FiveLetterRuns(w);
    FiveLetterTail(w);
    assert KeysAt(w, 5, 0) == [w[0..1], w[0..2], w[0..3], w[0..4], w[0..5]];
    assert KeysAt(w, 5, 1) == [w[1..2], w[1..3], w[1..4], w[1..5]];
    assert EmittedFrom(w, 5, 0) == KeysAt(w, 5, 0) + (KeysAt(w, 5, 1) + EmittedFrom(w, 5, 2));
  }

  /** The keys from the third position on. */
  lemma FiveLetterTail(w: string)
    requires |w| == 5 && IsWordChar(w[0]) && IsWordChar(w[1]) && IsWordChar(w[2])
    requires IsWordChar(w[3]) && IsWordChar(w[4])
    ensures EmittedFrom(w, 5, 2) == [w[2..3], w[2..4], w[2..5], w[3..4], w[3..5], w[4..5]]
  {
    FiveLetterRuns(w);
    assert EmittedFrom(w, 5, 4) == [w[4..5]];
    assert EmittedFrom(w, 5, 3) == [w[3..4], w[3..5], w[4..5]];
  }

  lemma LoremKeys(w: string)
    requires w == "Lorem"
    ensures EmittedFrom(w, 5, 0)
      == ["L", "Lo", "Lor", "Lore", "Lorem", "o", "or", "ore", "orem", "r", "re", "rem", "e", "em", "m"]
  {
    FiveLetterEmitted(w);
    assert w[0..1] == "L" && w[1..2] == "o" && w[2..3] == "r" && w[3..4] == "e" && w[4..5] == "m";
    assert w[0..2] == "Lo" && w[0..3] == "Lor" && w[0..4] == "Lore" && w[0..5] == "Lorem";
    assert w[1..3] == "or" && w[1..4] == "ore" && w[1..5] == "orem";
    assert w[2..4] == "re" && w[2..5] == "rem" && w[3..5] == "em";
  }

  lemma IpsumKeys(w: string)
    requires w == "Ipsum"
    ensures EmittedFrom(w, 5, 0)
      == ["I", "Ip", "Ips", "Ipsu", "Ipsum", "p", "ps", "psu", "psum", "s", "su", "sum", "u", "um", "m"]
  {
    FiveLetterEmitted(w);
    assert w[0..1] == "I" && w[1..2] == "p" && w[2..3] == "s" && w[3..4] == "u" && w[4..5] == "m";
    assert w[0..2] == "Ip" && w[0..3] == "Ips" && w[0..4] == "Ipsu" && w[0..5] == "Ipsum";
    assert w[1..3] == "ps" && w[1..4] == "psu" && w[1..5] == "psum";
    assert w[2..4] == "su" && w[2..5] == "sum" && w[3..5] == "um";
  }

  /** The set of a concatenation's entries is the union of the parts' sets. */
  lemma EntriesAppend(a: seq<string>, b: seq<string>)
    ensures (set k | k in a + b) == (set k | k in a) + (set k | k in b)
  {
  }

  /** The distinct keys of "Lorem", grouped by length. */
  lemma LoremKeySet(a: seq<string>)
    requires a == ["L", "Lo", "Lor", "Lore", "Lorem", "o", "or", "ore", "orem", "r", "re", "rem", "e", "em", "m"]
    ensures (set k | k in a) == {"L", "o", "r", "e", "m"} + {"Lo", "or", "re", "em"} + {"Lor", "ore", "rem"}
      + {"Lore", "orem"} + {"Lorem"}
  {
  }

  /** The distinct keys of "Ipsum", grouped by length. */
  lemma IpsumKeySet(b: seq<string>)
    requires b == ["I", "Ip", "Ips", "Ipsu", "Ipsum", "p", "ps", "psu", "psum", "s", "su", "sum", "u", "um", "m"]
    ensures (set k | k in b) == {"I", "p", "s", "u", "m"} + {"Ip", "ps", "su", "um"} + {"Ips", "psu", "sum"}
      + {"Ipsu", "psum"} + {"Ipsum"}
  {
  }

  /** Two unions of five groups, regrouped group by group. */
  lemma Regroup(a1: set<string>, a2: set<string>, a3: set<string>, a4: set<string>, a5: set<string>,
                b1: set<string>, b2: set<string>, b3: set<string>, b4: set<string>, b5: set<string>)
    ensures (a1 + a2 + a3 + a4 + a5) + (b1 + b2 + b3 + b4 + b5)
         == (a1 + b1) + (a2 + b2) + (a3 + b3) + (a4 + b4) + (a5 + b5)
  {
  }

  lemma DisjointByLength(a: set<string>, b: set<string>, n: nat)
    requires forall x :: x in a ==> |x| < n
    requires forall y :: y in b ==> |y| == n
    ensures |a + b| == |a| + |b|
    ensures forall x :: x in a + b ==> |x| <= n
  {
    assert a * b == {};
  }

  lemma OneLetterKeys(g: set<string>)
    requires g == {"L", "o", "r", "e", "m"} + {"I", "p", "s", "u", "m"}
    ensures |g| == 9 && forall x :: x in g ==> |x| == 1
  {
    assert g == {"L", "o", "r", "e", "m", "I", "p", "s", "u"};
  }

  lemma TwoLetterKeys(g: set<string>)
    requires g == {"Lo", "or", "re", "em"} + {"Ip", "ps", "su", "um"}
    ensures |g| == 8 && forall x :: x in g ==> |x| == 2
  {
    assert g == {"Lo", "or", "re", "em", "Ip", "ps", "su", "um"};
  }

  lemma ThreeLetterKeys(g: set<string>)
    requires g == {"Lor", "ore", "rem"} + {"Ips", "psu", "sum"}
    ensures |g| == 6 && forall x :: x in g ==> |x| == 3
  {
    assert g == {"Lor", "ore", "rem", "Ips", "psu", "sum"};
  }

  lemma FourLetterKeys(g: set<string>)
    requires g == {"Lore", "orem"} + {"Ipsu", "psum"}
    ensures |g| == 4 && forall x :: x in g ==> |x| == 4
  {
    assert g == {"Lore", "orem", "Ipsu", "psum"};
  }

  lemma FiveLetterKeySet(g: set<string>)
    requires g == {"Lorem"} + {"Ipsum"}
    ensures |g| == 2 && forall x :: x in g ==> |x| == 5
  {
    assert g == {"Lorem", "Ipsum"};
  }

  lemma LoremIpsumCount(g1: set<string>, g2: set<string>, g3: set<string>, g4: set<string>, g5: set<string>)
    requires g1 == {"L", "o", "r", "e", "m"} + {"I", "p", "s", "u", "m"}
    requires g2 == {"Lo", "or", "re", "em"} + {"Ip", "ps", "su", "um"}
    requires g3 == {"Lor", "ore", "rem"} + {"Ips", "psu", "sum"}
    requires g4 == {"Lore", "orem"} + {"Ipsu", "psum"}
    requires g5 == {"Lorem"} + {"Ipsum"}
    ensures |g1 + g2 + g3 + g4 + g5| == 29
  {
    OneLetterKeys(g1);
    TwoLetterKeys(g2);
    ThreeLetterKeys(g3);
    FourLetterKeys(g4);
    FiveLetterKeySet(g5);
    DisjointByLength(g1, g2, 2);
    DisjointByLength(g1 + g2, g3, 3);
    DisjointByLength(g1 + g2 + g3, g4, 4);
    DisjointByLength(g1 + g2 + g3 + g4, g5, 5);
  }

  lemma LoremIpsumSetSize(a: seq<string>, b: seq<string>)
    requires a == ["L", "Lo", "Lor", "Lore", "Lorem", "o", "or", "ore", "orem", "r", "re", "rem", "e", "em", "m"]
    requires b == ["I", "Ip", "Ips", "Ipsu", "Ipsum", "p", "ps", "psu", "psum", "s", "su", "sum", "u", "um", "m"]
    ensures |set k | k in a + b| == 29
  {
    EntriesAppend(a, b);
    LoremKeySet(a);
    IpsumKeySet(b);
    var a1, a2, a3, a4, a5 := {"L", "o", "r", "e", "m"}, {"Lo", "or", "re", "em"}, {"Lor", "ore", "rem"}, {"Lore", "orem"}, {"Lorem"};
    var b1, b2, b3, b4, b5 := {"I", "p", "s", "u", "m"}, {"Ip", "ps", "su", "um"}, {"Ips", "psu", "sum"}, {"Ipsu", "psum"}, {"Ipsum"};
    Regroup(a1, a2, a3, a4, a5, b1, b2, b3, b4, b5);
    LoremIpsumCount(a1 + b1, a2 + b2, a3 + b3, a4 + b4, a5 + b5);
  }

  lemma PairKeys(words: seq<string>, maxTokenLength: int)
    requires |words| == 2
    ensures WordsKeys(words, maxTokenLength)
      == EmittedFrom(words[0], maxTokenLength, 0) + EmittedFrom(words[1], maxTokenLength, 0)
  {
    assert words[..1][..0] == [];
    assert WordsKeys(words[..1], maxTokenLength) == [] + EmittedFrom(words[0], maxTokenLength, 0);
  }

  lemma TableKeys(keys: seq<string>)
    ensures AddKeys(map[], keys).Keys == set k | k in keys
  {
    AddKeysCounts(map[], keys);
  }

  lemma LoremIpsumKeyCount(lorem: string, ipsum: string)
    requires lorem == "Lorem" && ipsum == "Ipsum"
    ensures |set k | k in EmittedFrom(lorem, MaxTokenLength, 0) + EmittedFrom(ipsum, MaxTokenLength, 0)| == 29
  {
    LoremKeys(lorem);
    IpsumKeys(ipsum);
    LoremIpsumSetSize(EmittedFrom(lorem, MaxTokenLength, 0), EmittedFrom(ipsum, MaxTokenLength, 0));
  }

  /** train_test.go:11-19: the frequency table of "Lorem Ipsum" has 29 keys. */
  lemma LoremIpsumTable(words: seq<string>)
    requires words == ["Lorem", "Ipsum"]
    ensures |AddKeys(map[], WordsKeys(words, MaxTokenLength)).Keys| == 29
  {
    PairKeys(words, MaxTokenLength);
    TableKeys(WordsKeys(words, MaxTokenLength));
    LoremIpsumKeyCount(words[0], words[1]);
  }

  /** So a model trained on "Lorem Ipsum" with a limit of at least 29 (the default is
      50000) has 29 tokens. */
  lemma LoremIpsumVocabulary(words: seq<string>, tokensLimit: int, model: Model)
    requires words == ["Lorem", "Ipsum"] && tokensLimit >= 29
    requires IsTopSelection(AddKeys(map[], WordsKeys(words, MaxTokenLength)), tokensLimit, model)
    ensures |model.vocab| == 29
  {
    LoremIpsumTable(words);
    LargeLimitKeepsAll(AddKeys(map[], WordsKeys(words, MaxTokenLength)), tokensLimit, model);
  }
}
