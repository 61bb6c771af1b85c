/** Saving a model (export.go): the model is copied into a serialisable record, and the
    encoder chosen by the options writes that record. */
module Export {
  import opened Text
  import opened Bpe
  import opened Selection

  /** `exportedModel` (export.go:52-55): the length bound and the vocabulary as a list. */
  datatype ExportedModel = ExportedModel(maxTokenLength: int, vocab: seq<string>)

  /** A `ModelEncoder`: the default JSON encoder, or a caller-supplied one told apart by
      an identifier. What an encoder does is a parameter of `Export`. */
  datatype Encoder = DefaultEncoder | CustomEncoder(id: nat)

  /** What an encoder writes to the writer, and the error it returns. */
  datatype EncodeOutcome = EncodeOutcome(written: string, err: Option<string>)

  /** `WithEncoder(enc)` (export.go:46-50), the only way to build an `ExportOption`. */
  datatype ExportOption = WithEncoder(encoder: Encoder)

  /** The effect of one option closure on the chosen encoder. */
  function ApplyExportOption(e: Encoder, opt: ExportOption): Encoder {
    match opt
    case WithEncoder(enc) => enc
  }

  /** The options applied left to right, starting from `e`. */
  function ApplyExportOptions(e: Encoder, opts: seq<ExportOption>): Encoder
    decreases |opts|
  {
    if opts == [] then e else ApplyExportOptions(ApplyExportOption(e, opts[0]), opts[1..])
  }

  /** `exportOptions` (export.go:34-36), updated in place by `Apply`. */
  class ExportOptions {
    var encoder: Encoder

    /** `defaultExportOptions` (export.go:24-28). */
    constructor ()
      ensures encoder == DefaultEncoder
    {
      encoder := DefaultEncoder;
    }

    /** `Apply` (export.go:38-42): each option in turn mutates the struct. */
    method Apply(opts: seq<ExportOption>)
      modifies this
      ensures encoder == ApplyExportOptions(old(encoder), opts)
    {
      for i := 0 to |opts|
        invariant ApplyExportOptions(old(encoder), opts) == ApplyExportOptions(encoder, opts[i..])
      {
        assert opts[i..][1..] == opts[i + 1..];
        match opts[i]
        case WithEncoder(enc) =>
          encoder := enc;
      }
    }
  }

  /** The last `WithEncoder` wins; with none, the starting encoder stays. */
  lemma {:induction false} LastEncoderWins(e: Encoder, opts: seq<ExportOption>)
    ensures opts == [] ==> ApplyExportOptions(e, opts) == e
    ensures opts != [] ==> ApplyExportOptions(e, opts) == opts[|opts| - 1].encoder
    decreases |opts|
  {
    if opts != [] {
      LastEncoderWins(ApplyExportOption(e, opts[0]), opts[1..]);
    }
  }

  /** No token occurs twice in the list. */
  ghost predicate Distinct(s: seq<string>) {
    forall i, j :: 0 <= i < j < |s| ==> s[i] != s[j]
  }

  /** `rec` is a faithful snapshot of `model`: the same length bound, and a list holding
      every vocabulary token exactly once and nothing else, in some order. */
  ghost predicate IsSnapshot(model: Model, rec: ExportedModel) {
    && rec.maxTokenLength == model.maxTokenLength
    && Distinct(rec.vocab)
    && (forall t :: t in rec.vocab <==> t in model.vocab)
  }

  /** The copy of export.go:12-19; the list follows the map's (arbitrary) iteration order. */
  method ToExportedModel(model: Model) returns (rec: ExportedModel)
    ensures IsSnapshot(model, rec)
    ensures |rec.vocab| == |model.vocab|
  {
    var list: seq<string> := [];
    var rest := model.vocab;
    while rest != {}
      invariant rest <= model.vocab
      invariant Distinct(list) && |list| + |rest| == |model.vocab|
      invariant forall t :: t in list <==> t in model.vocab && t !in rest
      decreases |rest|
    {
      var t :| t in rest;
      list := list + [t];
      rest := rest - {t};
    }
    rec := ExportedModel(model.maxTokenLength, list);
  }

  /** The set of a list's entries is no larger than the list, and as large exactly when
      no entry repeats. */
  lemma {:induction false} SetSize(s: seq<string>)
    ensures |set t | t in s| <= |s|
    ensures |set t | t in s| == |s| <==> Distinct(s)
  {
    if s != [] {
      var n := |s| - 1;
      assert s == s[..n] + [s[n]];
      SetSize(s[..n]);
      assert (set t | t in s) == (set t | t in s[..n]) + {s[n]};
      DistinctSnoc(s);
      if s[n] in s[..n] {
        assert (set t | t in s) == (set t | t in s[..n]);
      }
    }
  }

  /** A list is distinct when its front is and its last entry is new. */
  lemma DistinctSnoc(s: seq<string>)
    requires s != []
    ensures Distinct(s) <==> Distinct(s[..|s| - 1]) && s[|s| - 1] !in s[..|s| - 1]
  {
    var n := |s| - 1;
    if s[n] in s[..n] {
      var k :| 0 <= k < n && s[..n][k] == s[n];
    }
  }

  /** Every snapshot of a model has exactly as many entries as the vocabulary. */
  lemma SnapshotLength(model: Model, rec: ExportedModel)
    requires IsSnapshot(model, rec)
    ensures |rec.vocab| == |model.vocab|
  {
    SetSize(rec.vocab);
    assert (set t | t in rec.vocab) == model.vocab;
  }

  /** `Export` (export.go:8-22): the encoder chosen by the options writes a snapshot of
      the model, and its outcome (what it wrote and its error) is returned unchanged. */
  method Export(model: Model, opts: seq<ExportOption>, encode: (Encoder, ExportedModel) -> EncodeOutcome)
    returns (out: EncodeOutcome)
    ensures exists rec :: IsSnapshot(model, rec) && out == encode(ApplyExportOptions(DefaultEncoder, opts), rec)
  {
    var options := new ExportOptions();
    options.Apply(opts);
    var rec := ToExportedModel(model);
    out := encode(options.encoder, rec);
  }

  /** export_test.go:31-39: the model trained from {"foo": 1} with limit 1 exports to
      the record (3, ["foo"]), whatever the iteration order. */
  lemma FooSnapshot(tft: map<string, int>, model: Model, rec: ExportedModel)
    requires tft == map["foo" := 1] && IsTopSelection(tft, 1, model)
    requires IsSnapshot(model, rec)
    ensures rec == ExportedModel(3, ["foo"])
  {
    KeepsHeaviest(tft, "foo", model);
    SnapshotLength(model, rec);
    assert rec.vocab[0] in model.vocab;
  }
}
