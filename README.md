# bpe — a Dafny model of a substring-vocabulary tokenizer

This project models the core of the Go package `bpe` (github.com/cheshir/bpe) and proves
properties of the model. The package is a small tokenizer in five parts.

- **Training.** `tokenize` counts, for every word of a text, each single character and every
  longer substring that starts at a word character and runs over word characters (letters
  and `-`) up to a length bound.
- **Selection.** `newModelFromTokensFrequencyTable` keeps the heaviest `tokensLimit` table
  entries as the vocabulary and records the longest kept token.
- **Encoding and decoding.** `encodeWord` wraps a word in word markers and splits it by
  greedy longest match against the vocabulary, emitting the unknown marker for a byte no
  token covers. `encodeSentence` frames the words' tokens with sentence markers. `Decode`
  strips the markers and joins the tokens back into text.
- **Sentence splitting.** `scanSentences` is a `bufio.SplitFunc` that drops all but the
  last of the leading whitespace runes and cuts at the first rune a terminator predicate
  accepts.
- **Persistence.** `Export` copies a model into a record `(max_token_length, vocab list)`
  and hands it to an encoder. `Import` has a decoder turn a record back into a model. Both
  choose their coder through functional options, as do the training options.

Text is `seq<char>` with one `char` per byte, so byte offsets (`word[i:j]`, `len`) are
sequence offsets. This is exact for ASCII text. `unicode.IsSpace` is modelled by the Unicode
White_Space set and `unicode.IsLetter` by the ASCII letters. The marker strings `BeginOfWord`,
`EndOfWord`, `BeginOfSentence`, `EndOfSentence` and `UnknownToken` are defined in no file of
this model. They are a `Markers` parameter; lemmas that need them distinct and non-empty
require `Markers.Valid()`, and `AngleMarkers` gives the `<w>`, `</w>`, `<s>`, `</s>` of the
package's examples.

Each imperative Go operation is a Dafny `method` with the same loops, proved against a
specification function. Each option struct is a `class` whose `Apply` assigns its fields in
place. A slice or map that Go mutates through a pointer (`*target` in `encodeWord`, the map in
`tokenize`) becomes an in/out value: the method takes the old value and returns the new one.

Modules, one per file:

- `Text` (`text.dfy`): the string helpers the core calls, such as `strings.Fields`,
  `strings.TrimSpace` and `strings.TrimSuffix`.
- `Bpe` (`bpe.dfy`): the model and the markers.
- `Encoding` (`encoding.dfy`) and `Decoding` (`decoding.dfy`): bpe.go:42-103.
- `Selection` (`selection.dfy`): bpe.go:105-144.
- `Train` (`train.dfy`): train.go.
- `Scan` (`scan.dfy`): scan.go.
- `Export` (`export.dfy`), `Import` (`import.dfy`) and `TrainOptions` (`train_options.dfy`).

Behaviour that follows from the code and is easy to misread:

- The word-piece length bound used by training is 5 (train.go:12).
- `tokenize` stops a substring at the first character that is not a letter or `-`
  (train.go:73-75).
- Training neither wraps words in markers nor filters them (train.go:58-80).
- `scanSentences` keeps the last leading whitespace rune in the sentence: `start` is the
  offset of the last leading space, not of the first non-space rune (scan.go:15-21).
- `Import` copies `max_token_length` verbatim (import.go:58-61).
- Lengths and offsets are in bytes, not in Unicode scalar values (bpe.go:57-61).

## Model

| member | source | states |
|---|---|---|
| Bpe.Markers.Wrap | bpe.go:52 | the wrapped word is `BeginOfWord + word + EndOfWord`, of the summed length |
| Encoding.WindowEnd | bpe.go:57-61 | the first candidate end is `min(len(word), tokenStart + maxTokenLength)` |
| Encoding.LongestMatchEnd | bpe.go:63-72 | the inner loop's stop is the longest in-vocabulary slice from the position within the window, and no longer slice in the window is in the vocabulary (`e == p` when none is) |
| Encoding.EncodeWord | bpe.go:51-77 | the labelled loops append exactly the greedy tokenization of the wrapped word, and the entries already in `target` are unchanged |
| Encoding.GreedyFromIsTheGreedyTokenization | bpe.go:56-75 | a token list is the greedy one if and only if each token is the longest vocabulary slice at its position within the window, or is the unknown marker and no non-empty slice in the window is known |
| Encoding.GreedyTokenCount | bpe.go:56-76 | from position p the encoder emits at most `len(word) - p` tokens, and at least one while bytes remain |
| Encoding.WordTokenCount | bpe.go:51-77 | a word yields between 1 and `len(BeginOfWord+word+EndOfWord)` tokens |
| Encoding.GreedyTokensAreKnown | bpe.go:59-70 | every emitted token is the unknown marker, or a vocabulary member of length 1 to `maxTokenLength` |
| Encoding.GreedyConcat | bpe.go:64-70 | when no unknown marker is emitted, the tokens concatenate to the rest of the wrapped word |
| Encoding.GreedyCoversInput | bpe.go:68-75 | with the unknown marker outside the vocabulary, the known tokens' lengths plus one byte per unknown marker add up to the bytes consumed |
| Encoding.GreedyAllUnknown | bpe.go:59-75 | with `maxTokenLength == 0` (as in `&BPE{}`) or an empty vocabulary, every byte yields one unknown marker |
| Encoding.WholeWordToken | bpe.go:57-70 | a wrapped word that is itself a short enough vocabulary token is emitted as the single token |
| Encoding.EncodeSentence | bpe.go:42-49 | appends `BeginOfSentence`, then the tokens of each whitespace-separated field in order, then `EndOfSentence` |
| Text.Fields | bpe.go:44 | `strings.Fields`: every field is non-empty and free of whitespace |
| Text.FieldsConcat | bpe.go:44 | together the fields hold exactly the non-space characters of the sentence, in order |
| Text.WordLengthOf | bpe.go:44 | a run of non-space characters ended by a space or the end of the text is one whole field |
| Text.JoinWithSpacesCons | bpe.go:44 | words joined by single spaces are the first word, a space, and the others joined |
| Text.FieldsOfJoin | bpe.go:44 | `strings.Fields` splits non-empty space-free words joined by single spaces back into exactly those words, so the fields are maximal runs |
| Text.TrimSuffix | bpe.go:87-89 | `strings.TrimSuffix`: removes the suffix when present, and leaves the string unchanged otherwise |
| Text.TrimSpace | bpe.go:102 | `strings.TrimSpace`: the result is empty exactly when the input is all whitespace, and otherwise starts and ends with a non-space character |
| Text.TrimSpacePadded | bpe.go:102 | trimming whitespace padding from around a text with non-space ends gives that text back |
| Decoding.Decode | bpe.go:81-103 | the builder loop yields the trimmed join of the decoded tokens, and the error is always nil |
| Decoding.JoinedAppend | bpe.go:84-100 | decoding processes tokens independently and in order: the join of a concatenation is the concatenation of the joins |
| Decoding.MarkerTokensVanish | bpe.go:87-89 | a token that is only a sentence marker or only the end-of-word marker decodes to nothing |
| Decoding.WrappedWordDecodes | bpe.go:87-94 | a marker-wrapped word decodes to one space followed by the word |
| Decoding.AngleTokenDecodes | bpe.go:87-96 | with the example markers, a piece `x`, `<w>x`, `x</w>` or `<w>x</w>` decodes to `x`, ` x`, `x` and ` x` respectively |
| Decoding.WholeWordsEncode | bpe.go:45-47 | when every wrapped word of a sentence is a vocabulary token, each word encodes to that single token |
| Decoding.WholeWordsJoin | bpe.go:91-96 | the wrapped words decode to the words separated by single spaces, with one leading space |
| Decoding.FramedJoined | bpe.go:42-49 | the sentence markers framing a sentence contribute nothing to its decoding |
| Decoding.SentenceRoundTrip | bpe.go:42-102 | decoding the encoding of a sentence whose wrapped words are all tokens gives its fields joined by single spaces |
| Decoding.JoinedSentenceRoundTrip | bpe.go:42-102 | a text of non-empty space-free words joined by single spaces, all of them whole-word vocabulary tokens, decodes from its encoding to itself |
| Decoding.DecodeExample | examples_test.go:91-103 | the example's twelve tokens decode to "This is just an example." |
| Selection.ListTable | bpe.go:106-114 | the pair list holds every table entry exactly once, with its weight |
| Selection.SortByWeight | bpe.go:116-118 | the in-place sort leaves the pairs in non-increasing weight order, as a permutation of the input |
| Selection.PermutedListing | bpe.go:116-118 | reordering the pair list keeps it a listing of the table |
| Selection.ModelOfPrefix | bpe.go:124-138 | the vocabulary is the set of the first n tokens, it has n members, and the length bound is the longest of them (0 for none) |
| Selection.SelectionFacts | bpe.go:116-122 | the kept tokens of a sorted listing are table keys, and none weighs less than a dropped one |
| Selection.NewModelFromTokensFrequencyTable | bpe.go:105-144 | for a limit n ≥ 0 the vocabulary is a subset of the keys with `min(len(tft), n)` members, no dropped token outweighs a kept one, and `maxTokenLength` is the longest kept token's length, or 0 when none is kept |
| Selection.LargeLimitKeepsAll | bpe.go:120-122 | a limit at least the table's size keeps every key |
| Selection.KeepsHeaviest | bpe.go:116-138 | with limit 1, a strictly heaviest token is the whole vocabulary and sets the bound |
| Selection.RepeatedLetterKeepsA | train_test.go:88-95 | the table a:9 … aaaaa:5 with limit 1 gives the vocabulary {"a"} with bound 1 |
| Train.Tokenize | train.go:58-80 | the nested loops add exactly one count for each key the word emits, in order |
| Train.CountRun | train.go:66-78 | the inner loop counts the substrings from i over consecutive word characters, of length 2 up to the bound |
| Train.AddKeysCounts | train.go:59-77 | counting a key list adds each key's multiplicity to its count, and the table's keys grow by exactly the listed keys |
| Train.RunKeysCount | train.go:66-78 | a run emits a key once exactly when the key starts at i, has length 2 up to the bound, and consists of word characters |
| Train.TokenizeCounts | train.go:58-80 | after `tokenize`, a key's count grows by its number of occurrences in the word when it is one character long, or 2 to `maxTokenLength` word characters long, and by nothing otherwise |
| Train.TokenizeOnlyGrows | train.go:58-80 | `tokenize` never removes a key or lowers a count |
| Train.EmittedLength | train.go:58-80 | a word of length L adds at least L and at most L × max(1, `maxTokenLength`) counts |
| Train.DigitsKeys | train.go:59-64 | "12314" emits only its five single characters |
| Train.DigitsTable | bpe_test.go:29-37 | "12314" with bound 3 counts {"1":2, "2":1, "3":1, "4":1} |
| Train.FiveLetterKeys | train.go:58-80 | "abcad" with bound 3 emits a, ab, abc, b, bc, bca, c, ca, cad, a, ad, d |
| Train.FiveLetterTable | bpe_test.go:38-53 | "abcad" with bound 3 gives exactly the 11-entry table of the test |
| Train.HyphenKeys | train.go:82-88 | `-` is a word character: "a-b" emits a, a-, a-b, -, -b, b |
| Train.HyphenTable | bpe_test.go:54-64 | "a-b" with bound 3 counts each of a, a-, a-b, -, -b and b once |
| Train.BracketedKeys | train.go:62-75 | a non-word character emits only itself and stops substrings: "[xxx]" emits [, x, xx, xxx, x, xx, x, ] |
| Train.BracketedTable | bpe_test.go:65-74 | "[xxx]" with bound 3 counts {"[":1, "]":1, "x":3, "xx":2, "xxx":1} |
| Train.BoundOneOnlySingles | train.go:69-71 | with a length bound of 1 or less the inner loop breaks at once, so `tokenize` emits exactly the word's characters one by one, in order |
| Train.SinglesFrom | train.go:59-79 | the same from any position of the word: the outer loop then emits one key per remaining character |
| Train.ParenthesizedKeys | train_test.go:192-201 | the word "(foo)" with bound 1 emits its five characters, in order |
| Train.ParenthesizedTable | train_test.go:192-201 | "(foo)" with bound 1 counts {"(":1, "f":1, "o":2, ")":1} |
| Train.BuildFrequencyTable | train.go:41-52 | folding `tokenize` with the bound 5 over the words gives the table of all the words' emitted keys, counted from an empty map |
| Train.FrequencyTableCounts | train.go:41-52 | a key's count in the table is its total number of counted occurrences over all the words |
| Train.TrainWords | train.go:15-30 | training keeps a top selection of the frequency table of the words |
| Train.OccurrencesEverywhere | train.go:58-80 | a key that fits at every position from `i` on is counted once per position left |
| Train.OccurrencesSomewhere | train.go:58-80 | a key with a positive count occurs at some position of the word |
| Train.RepeatedLetterCount | train_test.go:88-95 | tokenizing "aaaaaaaaa" with bound 5 counts the keys of one to five `a`s 9, 8, 7, 6 and 5 times and no other key |
| Train.SameCounts | train.go:34-55 | a table counted from nothing that agrees key by key with a table of positive counts is that table |
| Train.RepeatedLetterTable | train_test.go:88-95 | the frequency table of the word "aaaaaaaaa" is exactly {a:9, aa:8, aaa:7, aaaa:6, aaaaa:5} |
| Train.RepeatedLetterVocabulary | train_test.go:88-95 | training on "aaaaaaaaa" with a limit of one token gives the vocabulary {"a"} with bound 1 |
| Train.LoremIpsumTable | train_test.go:11-19 | the words "Lorem" and "Ipsum" give a table with 29 keys |
| Train.LoremIpsumVocabulary | train_test.go:11-19 | so a model trained on them with a limit of at least 29 has 29 tokens |
| Scan.NextPos | scan.go:26 | a decoded rune width is at least 1, so each step advances and stays within the data |
| Scan.SkipLeadingSpaces | scan.go:12-21 | the leading loop yields the specified sentence start |
| Scan.SentenceStartFacts | scan.go:12-21 | the start is 0 or the offset of the last leading whitespace rune: it lies before the first non-space rune and every rune before it is whitespace |
| Scan.SingleLeadingSpaceKept | scan.go:14-21 | a single leading space is not skipped: the start stays 0 |
| Scan.FindEndFacts | scan.go:23-31 | the terminator loop stops after the first rune, on the rune grid from the start, at which the predicate fires (given the text before it and the text from it); it finds nothing when the predicate fires nowhere |
| Scan.ScanSentences | scan.go:11-40 | the split function returns the specified advance and token, and its error is always nil |
| Scan.ScanAtTerminator | scan.go:23-31 | when the predicate first fires at offset i with width w, the result is advance `i+w` with token `data[start:i+w]` |
| Scan.ScanAtEOF | scan.go:33-36 | at EOF with no terminator and data beyond the start, the result is `(len(data), data[start:])` |
| Scan.ScanNeedsMoreData | scan.go:38-39 | otherwise the result is `(start, nil)`, a request for more data |
| Scan.ScanShape | scan.go:11-40 | the advance never exceeds the data; a token is always the non-empty slice `data[start:advance]`; without a token the advance is the start; empty data gives `(0, nil)` |
| Export.ExportOptions.constructor | export.go:24-28 | the default options select the default encoder |
| Export.ExportOptions.Apply | export.go:38-42 | options are applied to the struct in place, left to right |
| Export.LastEncoderWins | export.go:38-50 | the last `WithEncoder` decides the encoder; with none, the starting one stays |
| Export.ToExportedModel | export.go:12-19 | the record has the model's length bound, and a list of every vocabulary token exactly once and nothing else, of the vocabulary's size |
| Export.SnapshotLength | export.go:14-19 | every such list has exactly as many entries as the vocabulary |
| Export.Export | export.go:8-22 | the encoder chosen by the options receives a faithful record, and its output and error are returned unchanged |
| Export.FooSnapshot | export_test.go:30-39 | the model trained from {"foo": 1} with limit 1 exports to the record (3, ["foo"]) |
| Import.ImportOptions.constructor | import.go:15-19 | the default options select the default decoder |
| Import.ImportOptions.Apply | import.go:29-33 | options are applied to the struct in place, left to right |
| Import.LastDecoderWins | import.go:29-41 | the last `WithDecoder` decides the decoder; with none, the starting one stays |
| Import.FromExportedModel | import.go:52-61 | the vocabulary is the set of the list's entries, and the length bound is copied verbatim |
| Import.DefaultDecode | import.go:45-64 | a parse failure gives a nil model with the error; otherwise the converted record with a nil error |
| Import.Import | import.go:8-13 | the decoder chosen by the options reads the input; a custom decoder's model and error are returned unchanged |
| Import.ImportSize | import.go:52-56 | duplicates collapse: the set is no larger than the list, and equal in size exactly when the list has no repeats |
| Import.RoundTrip | import.go:52-61 | exporting a model and importing the record gives back the same vocabulary and length bound |
| Import.RecordRoundTrip | import.go:52-61 | importing a repeat-free record and exporting again gives the same bound and the same list up to order |
| Import.TokenOnlyRecord | examples_test.go:57-71 | the record with only the list ["token"] (bound left at 0) imports as {"token"} with bound 0 |
| TrainOptions.TrainOptions.constructor | train_options.go:3-7 | the defaults are 50000 tokens, length 5 and buffer 65536 |
| TrainOptions.TrainOptions.Apply | train_options.go:15-21 | options, the package's own and any caller-written one, assign the struct's fields in place, left to right |
| TrainOptions.ApplyAppend | train_options.go:15-19 | applying a concatenation of option lists is applying the parts in turn |
| TrainOptions.DefaultsDiscardEarlier | train_options.go:23-27 | `WithDefaultTrainOptions` discards the effect of every earlier option |
| TrainOptions.UntouchedFieldsKept | train_options.go:29-45 | a field keeps its value through any options that do not set it; a caller-written option counts as setting every field |
| TrainOptions.CustomSeesEarlier | train_options.go:15-21 | a caller-written option is handed the settings produced by the options before it, and its result is the new settings |
| TrainOptions.LastSetterWins | train_options.go:29-45 | each setter changes only its own field, to its argument, with no range check |
| TrainOptions.LaterSettingOverrides | train_options.go:15-19 | a later token-limit setting overrides an earlier one, whatever other fields are set after it |
| TrainOptions.DefaultsThenTokenLimit | train_test.go:111-116 | the list [defaults, token limit 1] gives (1, 5, 65536) from any starting settings |

## Left out

- `Encode` (bpe.go:24-39), the `bufio.Scanner` loop of `buildFrequencyTable` (train.go:34-55)
  and the file opening of `Train` (train.go:15-30) are I/O drivers and are not modelled. The
  per-sentence and per-word operations they call are; `TrainWords` takes the word list that
  `bufio.ScanWords` would produce.
- The scanner error "token too long" and the buffer size it depends on belong to `bufio`.
  `ScanBufferSize` is modelled as a setting only.
- JSON encoding and decoding (export.go:59-61, import.go:47) belong to `encoding/json`. The
  encoder's effect is a function parameter of `Export`, and the parser's result is a
  parameter of `DefaultDecode`. So the JSON text of export_test.go:39, and the zero value
  that JSON gives a missing `max_token_length`, are outside the model; `TokenOnlyRecord`
  starts from the record with that zero already in place.
- `isEndOfSentence` (called at scan.go:28) is defined in no file of this model. It is a
  predicate parameter, so every property of `Scan` holds for any predicate. Its heuristics
  (scan_test.go) are not modelled.
- UTF-8 decoding in `scanSentences` is a rune-decoder parameter whose width is between 1 and
  the remaining length. Multi-byte characters in `tokenize` and `encodeWord` are not
  modelled: one character is one byte there, so `tokenize`'s mid-rune re-slicing and
  partial-rune keys do not arise.
- Selection.SortByWeight: `sort.Slice` is unstable. The model specifies only the weight
  order and the permutation, not the order among equal weights, so which of several
  equally weighted tokens survive the cut is not determined.
- Selection.NewModelFromTokensFrequencyTable: a negative `tokensLimit` makes the truncation
  at bpe.go:121 panic. It is excluded by a precondition instead of modelled as a panic.
- Encoding.EncodeWord: a negative `maxTokenLength` makes the slice at bpe.go:64 panic. It is
  excluded by a precondition.
- Decoding.SentenceRoundTrip: the general `Decode(encode(T))` relation is not proved. Only
  the case where every wrapped word is a vocabulary token is, because unknown markers and
  partial pieces are passed through verbatim. In that case any sentence decodes to its
  fields joined by single spaces, and `JoinedSentenceRoundTrip` gives back a text that is
  already in that form exactly.
- Decoding.Decode: the error from `strings.Builder.WriteString` (bpe.go:96-99) is always nil
  in Go, so the model's error is always `None`.
- The historical variants in the tests are not modelled: `Train` with options,
  `newModelFromTokensFrequencyTable` with three arguments and `Save`. Only expectations
  consistent with the code are stated, such as `FooSnapshot` through the two-argument selection.
