/** Loading a model (import.go): the decoder chosen by the options reads a record, and the
    default decoder turns the record's list into the vocabulary set. */
module Import {
  import opened Text
  import opened Bpe
  import opened Export

  /** A `ModelDecoder`: the default JSON decoder, or a caller-supplied one told apart by
      an identifier. What a custom decoder returns is a parameter of `Import`. */
  datatype Decoder = DefaultDecoder | CustomDecoder(id: nat)

  /** The `(*BPE, error)` pair a decoder returns; `None` is the nil model. */
  datatype DecodeOutcome = DecodeOutcome(model: Option<Model>, err: Option<string>)

  /** What the JSON library makes of the input: a record, or its error. */
  datatype Parsed = Parsed(record: ExportedModel) | ParseError(message: string)

  /** `WithDecoder(decoder)` (import.go:37-41), the only way to build an `ImportOption`. */
  datatype ImportOption = WithDecoder(decoder: Decoder)

  /** The effect of one option closure on the chosen decoder. */
  function ApplyImportOption(d: Decoder, opt: ImportOption): Decoder {
    match opt
    case WithDecoder(dec) => dec
  }

  /** The options applied left to right, starting from `d`. */
  function ApplyImportOptions(d: Decoder, opts: seq<ImportOption>): Decoder
    decreases |opts|
  {
    if opts == [] then d else ApplyImportOptions(ApplyImportOption(d, opts[0]), opts[1..])
  }

  /** `importOptions` (import.go:25-27), updated in place by `Apply`. */
  class ImportOptions {
    var decoder: Decoder

    /** `defaultImportOptions` (import.go:15-19). */
    constructor ()
      ensures decoder == DefaultDecoder
    {
      decoder := DefaultDecoder;
    }

    /** `Apply` (import.go:29-33): each option in turn mutates the struct. */
    method Apply(opts: seq<ImportOption>)
      modifies this
      ensures decoder == ApplyImportOptions(old(decoder), opts)
    {
      for i := 0 to |opts|
        invariant ApplyImportOptions(old(decoder), opts) == ApplyImportOptions(decoder, opts[i..])
      {
        assert opts[i..][1..] == opts[i + 1..];
        match opts[i]
        case WithDecoder(dec) =>
          decoder := dec;
      }
    }
  }

  /** The last `WithDecoder` wins; with none, the starting decoder stays. */
  lemma {:induction false} LastDecoderWins(d: Decoder, opts: seq<ImportOption>)
    ensures opts == [] ==> ApplyImportOptions(d, opts) == d
    ensures opts != [] ==> ApplyImportOptions(d, opts) == opts[|opts| - 1].decoder
    decreases |opts|
  {
    if opts != [] {
      LastDecoderWins(ApplyImportOption(d, opts[0]), opts[1..]);
    }
  }

  /** `model` is what the record describes: the length bound copied verbatim (never
      recomputed from the tokens) and the set of the list's entries. */
  ghost predicate IsImportOf(rec: ExportedModel, model: Model) {
    && model.maxTokenLength == rec.maxTokenLength
    && (forall t :: t in model.vocab <==> t in rec.vocab)
  }

  /** The conversion of import.go:52-61: every list entry is inserted into the set. */
  method FromExportedModel(rec: ExportedModel) returns (model: Model)
    ensures IsImportOf(rec, model)
  {
    var vocab: set<string> := {};
    for i := 0 to |rec.vocab|
      invariant forall t :: t in vocab <==> t in rec.vocab[..i]
    {
      assert rec.vocab[..i + 1] == rec.vocab[..i] + [rec.vocab[i]];
      vocab := vocab + {rec.vocab[i]};
    }
    assert rec.vocab[..|rec.vocab|] == rec.vocab;
    model := Model(rec.maxTokenLength, vocab);
  }

  /** `defaultDecoder.Decode` (import.go:45-64). A parse failure gives a nil model with
      the error; otherwise the record is converted and the error is nil. */
  method DefaultDecode(input: string, parse: string -> Parsed) returns (out: DecodeOutcome)
    ensures parse(input).ParseError? ==> out == DecodeOutcome(None, Some(parse(input).message))
    ensures parse(input).Parsed? ==>
      out.err == None && out.model.Some? && IsImportOf(parse(input).record, out.model.value)
  {
    var parsed := parse(input);
    if parsed.ParseError? {
      return DecodeOutcome(None, Some(parsed.message));
    }
    var model := FromExportedModel(parsed.record);
    out := DecodeOutcome(Some(model), None);
  }

  /** `Import` (import.go:8-13): the decoder chosen by the options reads the input. A
      custom decoder's outcome is returned unchanged. */
  method Import(input: string, opts: seq<ImportOption>, parse: string -> Parsed,
                custom: (nat, string) -> DecodeOutcome)
    returns (out: DecodeOutcome)
    ensures ApplyImportOptions(DefaultDecoder, opts).CustomDecoder? ==>
      out == custom(ApplyImportOptions(DefaultDecoder, opts).id, input)
    ensures ApplyImportOptions(DefaultDecoder, opts) == DefaultDecoder && parse(input).ParseError? ==>
      out == DecodeOutcome(None, Some(parse(input).message))
    ensures ApplyImportOptions(DefaultDecoder, opts) == DefaultDecoder && parse(input).Parsed? ==>
      out.err == None && out.model.Some? && IsImportOf(parse(input).record, out.model.value)
  {
    var options := new ImportOptions();
    options.Apply(opts);
    match options.decoder
    case DefaultDecoder =>
      out := DefaultDecode(input, parse);
    case CustomDecoder(id) =>
      out := custom(id, input);
  }

  /** Duplicates collapse: the set never has more tokens than the list, and exactly as
      many when the list is distinct. */
  lemma {:induction false} ImportSize(rec: ExportedModel, model: Model)
    requires IsImportOf(rec, model)
    ensures |model.vocab| <= |rec.vocab|
    ensures |model.vocab| == |rec.vocab| <==> Distinct(rec.vocab)
  {
    assert model.vocab == set t | t in rec.vocab;
    SetSize(rec.vocab);
  }

  /** Exporting and importing again gives back the same model. */
  lemma RoundTrip(model: Model, rec: ExportedModel, back: Model)
    requires IsSnapshot(model, rec) && IsImportOf(rec, back)
    ensures back == model
  {
    assert back.vocab == model.vocab;
  }

  /** Importing a distinct list and exporting again gives the same list up to order. */
  lemma {:induction false} RecordRoundTrip(rec: ExportedModel, model: Model, back: ExportedModel)
    requires Distinct(rec.vocab) && IsImportOf(rec, model) && IsSnapshot(model, back)
    ensures back.maxTokenLength == rec.maxTokenLength
    ensures multiset(back.vocab) == multiset(rec.vocab)
  {
    SameElements(back.vocab, rec.vocab);
  }

  /** Two distinct lists with the same entries are permutations of each other. */
  lemma {:induction false} SameElements(s: seq<string>, u: seq<string>)
    requires Distinct(s) && Distinct(u)
    requires forall t :: t in s <==> t in u
    ensures multiset(s) == multiset(u)
  {
    forall t ensures multiset(s)[t] == multiset(u)[t] {
      DistinctCount(s, t);
      DistinctCount(u, t);
    }
  }

  /** In a distinct list every entry is counted once at most. */
  lemma {:induction false} DistinctCount(s: seq<string>, t: string)
    requires Distinct(s)
    ensures multiset(s)[t] == if t in s then 1 else 0
  {
    if s != [] {
      var n := |s| - 1;
      assert s == s[..n] + [s[n]];
      assert Distinct(s[..n]);
      DistinctCount(s[..n], t);
      if s[n] == t {
        assert t !in s[..n];
      }
    }
  }

  /** examples_test.go:63-70: a record holding only the list ["token"] (its length bound
      left at zero) imports as the model {"token"} with bound 0. */
  lemma TokenOnlyRecord(rec: ExportedModel, model: Model)
    requires rec == ExportedModel(0, ["token"]) && IsImportOf(rec, model)
    ensures model == Model(0, {"token"})
  {
    assert model.vocab == {"token"};
  }
}
