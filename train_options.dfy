/** Training settings and the functional options that adjust them (train_options.go). */
module TrainOptions {

  /** The three settings of `TrainOptions` (train_options.go:9-13). */
  datatype TrainSettings = TrainSettings(maxNumberOfTokens: int, maxTokenLength: int, scanBufferSize: int)

  /** `defaultTrainOptions` (train_options.go:3-7). */
  const DefaultTrainSettings := TrainSettings(50000, 5, 64 * 1024)

  /** The option constructors of train_options.go:23-45, none of which checks its
      argument, and any other `func(*TrainOptions)` a caller writes (train_options.go:21),
      given by what it makes of the settings it is handed. */
  datatype TrainOption =
    | WithDefaultTrainOptions
    | WithMaxNumberOfTokens(n: int)
    | WithMaxTokenLength(length: int)
    | WithScanBufferSize(size: int)
    | Custom(update: TrainSettings -> TrainSettings)

  /** The effect of one option closure on the settings. */
  function ApplyTrainOption(s: TrainSettings, opt: TrainOption): TrainSettings {
    match opt
    case WithDefaultTrainOptions => DefaultTrainSettings
    case WithMaxNumberOfTokens(n) => s.(maxNumberOfTokens := n)
    case WithMaxTokenLength(length) => s.(maxTokenLength := length)
    case WithScanBufferSize(size) => s.(scanBufferSize := size)
    case Custom(update) => update(s)
  }

  /** The options applied left to right, starting from `s`. */
  function ApplyTrainOptions(s: TrainSettings, opts: seq<TrainOption>): TrainSettings
    decreases |opts|
  {
    if opts == [] then s else ApplyTrainOptions(ApplyTrainOption(s, opts[0]), opts[1..])
  }

  /** `TrainOptions`, a struct whose fields the options assign in place. */
  class TrainOptions {
    var maxNumberOfTokens: int
    var maxTokenLength: int
    var scanBufferSize: int

    function Settings(): TrainSettings
      reads this
    {
      TrainSettings(maxNumberOfTokens, maxTokenLength, scanBufferSize)
    }

    /** A struct that starts from the defaults. */
    constructor ()
      ensures Settings() == DefaultTrainSettings
    {
      maxNumberOfTokens := 50000;
      maxTokenLength := 5;
      scanBufferSize := 64 * 1024;
    }

    /** `Apply` (train_options.go:15-19): each option in turn mutates the struct. */
    method Apply(opts: seq<TrainOption>)
      modifies this
      ensures Settings() == ApplyTrainOptions(old(Settings()), opts)
    {
      for i := 0 to |opts|
        invariant ApplyTrainOptions(old(Settings()), opts) == ApplyTrainOptions(Settings(), opts[i..])
      {
        assert opts[i..][1..] == opts[i + 1..];
        match opts[i]
        case WithDefaultTrainOptions =>
          maxNumberOfTokens, maxTokenLength, scanBufferSize := 50000, 5, 64 * 1024;
        case WithMaxNumberOfTokens(n) =>
          maxNumberOfTokens := n;
        case WithMaxTokenLength(length) =>
          maxTokenLength := length;
        case WithScanBufferSize(size) =>
          scanBufferSize := size;
        case Custom(update) =>
          var t := update(Settings());
          maxNumberOfTokens, maxTokenLength, scanBufferSize := t.maxNumberOfTokens, t.maxTokenLength, t.scanBufferSize;
      }
    }
  }

  /** Applying a concatenation is applying its parts in turn. */
  lemma {:induction false} ApplyAppend(s: TrainSettings, a: seq<TrainOption>, b: seq<TrainOption>)
    ensures ApplyTrainOptions(s, a + b) == ApplyTrainOptions(ApplyTrainOptions(s, a), b)
    decreases |a|
  {
    if a != [] {
      assert (a + b)[1..] == a[1..] + b;
      ApplyAppend(ApplyTrainOption(s, a[0]), a[1..], b);
    } else {
      assert a + b == b;
    }
  }

  /** `WithDefaultTrainOptions` resets all three fields, discarding earlier options. */
  lemma DefaultsDiscardEarlier(s: TrainSettings, before: seq<TrainOption>, after: seq<TrainOption>)
    ensures ApplyTrainOptions(s, before + [WithDefaultTrainOptions] + after)
         == ApplyTrainOptions(DefaultTrainSettings, after)
  {
    ApplyAppend(s, before + [WithDefaultTrainOptions], after);
    ApplyAppend(s, before, [WithDefaultTrainOptions]);
  }

  /** The option may touch the token-count field (a caller's option may touch any). */
  predicate SetsMaxNumberOfTokens(opt: TrainOption) {
    opt.WithDefaultTrainOptions? || opt.WithMaxNumberOfTokens? || opt.Custom?
  }

  /** The option may touch the token-length field. */
  predicate SetsMaxTokenLength(opt: TrainOption) {
    opt.WithDefaultTrainOptions? || opt.WithMaxTokenLength? || opt.Custom?
  }

  /** The option may touch the buffer-size field. */
  predicate SetsScanBufferSize(opt: TrainOption) {
    opt.WithDefaultTrainOptions? || opt.WithScanBufferSize? || opt.Custom?
  }

  /** Each field keeps its value through options that do not touch it. */
  lemma {:induction false} UntouchedFieldsKept(s: TrainSettings, opts: seq<TrainOption>)
    ensures (forall k :: 0 <= k < |opts| ==> !SetsMaxNumberOfTokens(opts[k])) ==>
      ApplyTrainOptions(s, opts).maxNumberOfTokens == s.maxNumberOfTokens
    ensures (forall k :: 0 <= k < |opts| ==> !SetsMaxTokenLength(opts[k])) ==>
      ApplyTrainOptions(s, opts).maxTokenLength == s.maxTokenLength
    ensures (forall k :: 0 <= k < |opts| ==> !SetsScanBufferSize(opts[k])) ==>
      ApplyTrainOptions(s, opts).scanBufferSize == s.scanBufferSize
    decreases |opts|
  {
    if opts != [] {
      UntouchedFieldsKept(ApplyTrainOption(s, opts[0]), opts[1..]);
      assert forall k :: 1 <= k < |opts| ==> opts[1..][k - 1] == opts[k];
    }
  }

  /** A setter changes only its own field; a later setter on a field overrides an earlier
      one, whatever lies between them on other fields. */
  lemma LastSetterWins(s: TrainSettings, opts: seq<TrainOption>, n: int, length: int, size: int)
    ensures ApplyTrainOptions(s, opts + [WithMaxNumberOfTokens(n)])
         == ApplyTrainOptions(s, opts).(maxNumberOfTokens := n)
    ensures ApplyTrainOptions(s, opts + [WithMaxTokenLength(length)])
         == ApplyTrainOptions(s, opts).(maxTokenLength := length)
    ensures ApplyTrainOptions(s, opts + [WithScanBufferSize(size)])
         == ApplyTrainOptions(s, opts).(scanBufferSize := size)
  {
    ApplyAppend(s, opts, [WithMaxNumberOfTokens(n)]);
    ApplyAppend(s, opts, [WithMaxTokenLength(length)]);
    ApplyAppend(s, opts, [WithScanBufferSize(size)]);
  }

  /** A caller's option is handed the settings the options before it produced, and its
      result is what the struct then holds. */
  lemma CustomSeesEarlier(s: TrainSettings, opts: seq<TrainOption>, update: TrainSettings -> TrainSettings)
    ensures ApplyTrainOptions(s, opts + [Custom(update)]) == update(ApplyTrainOptions(s, opts))
  {
    ApplyAppend(s, opts, [Custom(update)]);
  }

  /** Options with no effect on a field leave its last setting in place. */
  lemma LaterSettingOverrides(s: TrainSettings, before: seq<TrainOption>, n: int, after: seq<TrainOption>)
    requires forall k :: 0 <= k < |after| ==> !SetsMaxNumberOfTokens(after[k])
    ensures ApplyTrainOptions(s, before + [WithMaxNumberOfTokens(n)] + after).maxNumberOfTokens == n
  {
    ApplyAppend(s, before + [WithMaxNumberOfTokens(n)], after);
    LastSetterWins(s, before, n, 0, 0);
    UntouchedFieldsKept(ApplyTrainOptions(s, before + [WithMaxNumberOfTokens(n)]), after);
  }

  /** train_test.go:88-95 with 111-116: the option list [defaults, token limit 1] gives
      the token limit 1 and the default token length and buffer size, whatever came before. */
  lemma DefaultsThenTokenLimit(s: TrainSettings)
    ensures ApplyTrainOptions(s, [WithDefaultTrainOptions, WithMaxNumberOfTokens(1)])
         == TrainSettings(1, 5, 65536)
  {
    assert [WithDefaultTrainOptions, WithMaxNumberOfTokens(1)][1..] == [WithMaxNumberOfTokens(1)];
  }
}
