/** The process-wide options of one walk (options.go): the key prefix, whether
    values may be loaded through files by default, the default suffix of the
    file-path variable, and whether values are trimmed. */
module Options {
  import opened GoStrings

  const DEFAULT_FILE_SUFFIX := "_FILE"

  datatype Options = Options(prefix: string, isLoadFromFile: bool, defaultFileSuffix: string, trimSpaces: bool)

  /** The functional options a caller passes, each standing for the closure the
      Go function of the same name returns. */
  datatype Option =
    | WithPrefix(prefix: string)
    | WithoutDefaultLoadingFromFiles
    | WithDefaultFileSuffix(suffix: string)
    | WithoutTrimSpaces

  /** defaultOptions. */
  function DefaultOptions(): (o: Options)
    ensures o.prefix == "" && o.isLoadFromFile && o.defaultFileSuffix == DEFAULT_FILE_SUFFIX && o.trimSpaces
  {
    Options("", true, DEFAULT_FILE_SUFFIX, true)
  }

  /** Non-empty, with no white space at either end. */
  predicate IsTrimmed(s: string) {
    s != [] && !IsSpace(s[0]) && !IsSpace(s[|s| - 1])
  }

  /** The suffix WithDefaultFileSuffix stores: its argument trimmed, or the
      default suffix when nothing is left. */
  function NormalizedSuffix(suffix: string): (r: string)
    ensures IsTrimmed(r)
    ensures IsBlank(suffix) ==> r == DEFAULT_FILE_SUFFIX
    ensures !IsBlank(suffix) ==> r == TrimSpace(suffix)
  {
    var s := TrimSpace(suffix);
    if s == "" then
      assert DEFAULT_FILE_SUFFIX[0] == '_' && DEFAULT_FILE_SUFFIX[|DEFAULT_FILE_SUFFIX| - 1] == 'E';
      DEFAULT_FILE_SUFFIX
    else s
  }

  /** The setting an option writes. */
  datatype Setting = PrefixSetting | LoadFromFileSetting | FileSuffixSetting | TrimSpacesSetting

  function Touches(opt: Option): Setting {
    match opt
    case WithPrefix(_) => PrefixSetting
    case WithoutDefaultLoadingFromFiles => LoadFromFileSetting
    case WithDefaultFileSuffix(_) => FileSuffixSetting
    case WithoutTrimSpaces => TrimSpacesSetting
  }

  /** Two records hold the same value for one setting. */
  predicate Agree(o: Options, o': Options, s: Setting) {
    match s
    case PrefixSetting => o.prefix == o'.prefix
    case LoadFromFileSetting => o.isLoadFromFile == o'.isLoadFromFile
    case FileSuffixSetting => o.defaultFileSuffix == o'.defaultFileSuffix
    case TrimSpacesSetting => o.trimSpaces == o'.trimSpaces
  }

  /** Running one option: it writes exactly the one setting it touches, and what
      it writes does not depend on the record it is applied to. */
  function Effect(opt: Option, o: Options): (r: Options)
    ensures forall s :: s != Touches(opt) ==> Agree(r, o, s)
    ensures opt.WithPrefix? ==> r.prefix == ToUpper(opt.prefix)
    ensures opt.WithoutDefaultLoadingFromFiles? ==> !r.isLoadFromFile
    ensures opt.WithDefaultFileSuffix? ==> r.defaultFileSuffix == NormalizedSuffix(opt.suffix)
    ensures opt.WithoutTrimSpaces? ==> !r.trimSpaces
  {
    match opt
    case WithPrefix(p) => o.(prefix := ToUpper(p))
    case WithoutDefaultLoadingFromFiles => o.(isLoadFromFile := false)
    case WithDefaultFileSuffix(s) => o.(defaultFileSuffix := NormalizedSuffix(s))
    case WithoutTrimSpaces => o.(trimSpaces := false)
  }

  /** The options run left to right over one record. */
  function ApplyAll(o: Options, opts: seq<Option>): Options
    decreases |opts|
  {
    if opts == [] then o else ApplyAll(Effect(opts[0], o), opts[1..])
  }

  /** A setting no option touches keeps its value. */
  lemma {:induction false} UntouchedSettingKept(o: Options, opts: seq<Option>, s: Setting)
    requires forall j :: 0 <= j < |opts| ==> Touches(opts[j]) != s
    ensures Agree(ApplyAll(o, opts), o, s)
    decreases |opts|
  {
    if opts != [] {
      UntouchedSettingKept(Effect(opts[0], o), opts[1..], s);
    }
  }

  lemma {:induction false} ApplyAllSplit(o: Options, opts: seq<Option>, i: nat)
    requires i < |opts|
    ensures ApplyAll(o, opts) == ApplyAll(Effect(opts[i], ApplyAll(o, opts[..i])), opts[i + 1..])
    decreases i
  {
    if i > 0 {
      assert opts[1..][..i - 1] == opts[1..i];
      assert opts[..i][1..] == opts[1..i];
      ApplyAllSplit(Effect(opts[0], o), opts[1..], i - 1);
      assert opts[1..][i..] == opts[i + 1..];
    }
  }

  /** A later option overrides an earlier one touching the same setting: the
      last option touching a setting decides it. */
  lemma LastOptionWins(o: Options, opts: seq<Option>, i: nat)
    requires i < |opts|
    requires forall j :: i < j < |opts| ==> Touches(opts[j]) != Touches(opts[i])
    ensures Agree(ApplyAll(o, opts), Effect(opts[i], o), Touches(opts[i]))
  {
    var s := Touches(opts[i]);
    var mid := Effect(opts[i], ApplyAll(o, opts[..i]));
    ApplyAllSplit(o, opts, i);
    UntouchedSettingKept(mid, opts[i + 1..], s);
  }

  /** What every reachable record satisfies: an upper-case prefix and a
      non-blank, trimmed file suffix. */
  predicate WellFormed(o: Options) {
    IsUpperCase(o.prefix) && IsTrimmed(o.defaultFileSuffix)
  }

  lemma {:induction false} ApplyAllWellFormed(o: Options, opts: seq<Option>)
    requires WellFormed(o)
    ensures WellFormed(ApplyAll(o, opts))
    decreases |opts|
  {
    if opts != [] {
      ApplyAllWellFormed(Effect(opts[0], o), opts[1..]);
    }
  }

  /** options.copy: keeps the prefix and the file settings; trimming is off. */
  function CopyOf(o: Options): (r: Options)
    ensures r.prefix == o.prefix && r.isLoadFromFile == o.isLoadFromFile
    ensures r.defaultFileSuffix == o.defaultFileSuffix && !r.trimSpaces
  {
    Options(o.prefix, o.isLoadFromFile, o.defaultFileSuffix, false)
  }

  /** The `*options` record the engine passes around, updated in place by
      the option closures. */
  class Record {
    var prefix: string
    var isLoadFromFile: bool
    var defaultFileSuffix: string
    var trimSpaces: bool

    function View(): Options
      reads this
    {
      Options(prefix, isLoadFromFile, defaultFileSuffix, trimSpaces)
    }

    /** defaultOptions. */
    constructor Default()
      ensures View() == DefaultOptions()
    {
      prefix, isLoadFromFile, defaultFileSuffix, trimSpaces := "", true, DEFAULT_FILE_SUFFIX, true;
    }

    /** One option closure run on the record. */
    method Run(opt: Option)
      modifies this
      ensures View() == Effect(opt, old(View()))
    {
      match opt
      case WithPrefix(p) => prefix := ToUpper(p);
      case WithoutDefaultLoadingFromFiles => isLoadFromFile := false;
      case WithDefaultFileSuffix(s) => defaultFileSuffix := NormalizedSuffix(s);
      case WithoutTrimSpaces => trimSpaces := false;
    }

    /** apply: the options run left to right on this same record. */
    method Apply(opts: seq<Option>)
      modifies this
      ensures View() == ApplyAll(old(View()), opts)
    {
      var i := 0;
      while i < |opts|
        invariant 0 <= i <= |opts|
        invariant ApplyAll(old(View()), opts) == ApplyAll(View(), opts[i..])
      {
        assert opts[i..][1..] == opts[i + 1..];
        Run(opts[i]);
        i := i + 1;
      }
      assert opts[i..] == [];
    }
  }
}
