/** The value of one variable (variable.go: value, tryEnv, loadFromFile,
    resolveFileLoading, isRequired). For each of its names, the key and then
    the alternate key, the environment is consulted before the file whose path
    a `<NAME><SUFFIX>` variable holds; then the `default` tag; values from the
    environment or a file are trimmed when the options say so. */
module Resolver {
  import opened Wrappers
  import opened GoStrings
  import opened Strconv
  import opened Errors
  import opened Keys
  import opened Walker
  import Coerce

  /** The process environment as os.LookupEnv sees it. */
  type Env = map<string, string>

  /** The file system as os.ReadFile sees it: the contents of a file, or the
      text of the error reading it. A path outside the map names no file. */
  type Files = map<string, Result<string, string>>

  /** os.ReadFile. */
  function ReadFile(fs: Files, path: string): (r: Result<string, Error>)
    ensures path in fs && fs[path].Ok? ==> r == Ok(fs[path].value)
    ensures path in fs && fs[path].Err? ==> r == Err(ReadFailure(fs[path].error))
    ensures path !in fs ==> r == Err(ReadFailure("open " + path + ": no such file or directory"))
  {
    if path !in fs then Err(ReadFailure("open " + path + ": no such file or directory"))
    else match fs[path]
      case Ok(contents) => Ok(contents)
      case Err(message) => Err(ReadFailure(message))
  }

  /** isRequired: the `required` tag reads as true; an unparseable tag, like
      an absent one, does not. */
  function IsRequired(v: Variable): (r: bool)
    ensures r <==> TAG_REQUIRED in v.field.tags && v.field.tags[TAG_REQUIRED] in TRUE_TOKENS
  {
    Coerce.IsTrue(TagGet(v.field.tags, TAG_REQUIRED))
  }

  /** The errors looking a value up can give: a blank path variable, or a
      file that cannot be read. */
  predicate LoadError(e: Error) {
    e.EmptyFilePath? || e.ReadFailure?
  }

  /** resolveFileLoading: whether a value may come from a file, and the suffix
      the `file` tag gives ("" when it gives none). A `file` tag overrides the
      options, and turns loading off only when it is a false token. */
  function FileLoading(v: Variable): (r: (string, bool))
    ensures TAG_FILE in v.field.tags ==> (r.1 <==> v.field.tags[TAG_FILE] !in FALSE_TOKENS)
    ensures TAG_FILE !in v.field.tags ==> r.1 == v.opts.isLoadFromFile
    ensures r.0 != "" ==> TAG_FILE in v.field.tags && r.0 == v.field.tags[TAG_FILE]
  {
    if TAG_FILE in v.field.tags then
      var tag := v.field.tags[TAG_FILE];
      match ParseBool(tag)
      case Ok(b) => ("", b)
      case Err(_) => (tag, true)
    else ("", v.opts.isLoadFromFile)
  }

  /** The suffix of the path variable: the tag's suffix trimmed, or the
      options' default suffix when that leaves nothing. */
  function FileSuffix(v: Variable): string {
    var tag := TrimSpace(FileLoading(v).0);
    if tag == "" then v.opts.defaultFileSuffix else tag
  }

  /** The name of the variable holding the path of the file for `name`. */
  function FileVariable(v: Variable, name: string): string {
    ToUpper(name + FileSuffix(v))
  }

  /** loadFromFile: nothing when file loading is off or the path variable is
      not set; an error when it is set to blank text or the file cannot be
      read; else the file's contents. */
  function LoadFromFile(v: Variable, env: Env, fs: Files, name: string): (r: Result<Option<string>, Error>)
    ensures !FileLoading(v).1 ==> r == Ok(None)
    ensures r != Ok(None) ==> FileVariable(v, name) in env
    ensures r.Ok? && r.value.Some? ==> !IsBlank(env[FileVariable(v, name)])
    ensures r.Err? ==> LoadError(r.error)
  {
    if !FileLoading(v).1 then Ok(None)
    else
      var pathVar := FileVariable(v, name);
      if pathVar !in env then Ok(None)
      else
        var path := TrimSpace(env[pathVar]);
        if path == "" then Err(EmptyFilePath(FileSuffix(v)))
        else match ReadFile(fs, path)
          case Ok(contents) => Ok(Some(contents))
          case Err(e) => Err(e)
  }

  /** tryEnv: the environment first, then the file. */
  function TryEnv(v: Variable, env: Env, fs: Files, name: string): (r: Result<Option<string>, Error>)
    ensures name in env ==> r == Ok(Some(env[name]))
    ensures r.Err? ==> name !in env && LoadError(r.error)
  {
    if name in env then Ok(Some(env[name])) else LoadFromFile(v, env, fs, name)
  }

  /** The names tried, in order: the key, then the alternate key if there is one. */
  function Names(v: Variable): (r: seq<string>)
    ensures 1 <= |r| <= 2 && r[0] == v.key
    ensures |r| == 2 <==> v.altKey != ""
    ensures |r| == 2 ==> r[1] == v.altKey
  {
    [v.key] + (if v.altKey != "" then [v.altKey] else [])
  }

  /** The first of `names` that yields a value; an error on the way stops the search. */
  function FirstFound(v: Variable, env: Env, fs: Files, names: seq<string>): (r: Result<Option<string>, Error>)
    ensures r.Err? ==> LoadError(r.error)
    decreases |names|
  {
    if names == [] then Ok(None)
    else match TryEnv(v, env, fs, names[0])
      case Err(e) => Err(e)
      case Ok(Some(s)) => Ok(Some(s))
      case Ok(None) => FirstFound(v, env, fs, names[1..])
  }

  /** A value from the environment or a file, as the options leave it. */
  function Trimmed(v: Variable, s: string): string {
    if v.opts.trimSpaces then TrimSpace(s) else s
  }

  /** value: the text for the variable and whether there is one, or the error
      that stopped the search. */
  function ValueOf(v: Variable, env: Env, fs: Files): (r: Result<(string, bool), Error>)
    ensures r.Err? ==> LoadError(r.error)
    ensures r.Ok? && !r.value.1 ==> r.value.0 == "" && TAG_DEFAULT !in v.field.tags
  {
    match FirstFound(v, env, fs, Names(v))
    case Err(e) => Err(e)
    case Ok(Some(s)) => Ok((Trimmed(v, s), true))
    case Ok(None) =>
      if TAG_DEFAULT in v.field.tags then Ok((v.field.tags[TAG_DEFAULT], true)) else Ok(("", false))
  }

  /** value, as it runs: a loop over the names that stops at the first value
      or error, then trimming, then the default. */
  method Value(v: Variable, env: Env, fs: Files) returns (r: Result<(string, bool), Error>)
    ensures r == ValueOf(v, env, fs)
  {
    var rest := Names(v);
    var found: Option<string> := None;
    while rest != []
      invariant FirstFound(v, env, fs, Names(v)) == FirstFound(v, env, fs, rest)
      decreases |rest|
    {
      var t := TryEnv(v, env, fs, rest[0]);
      if t.Err? {
        return Err(t.error);
      }
      if t.value.Some? {
        found := t.value;
        break;
      }
      rest := rest[1..];
    }
    if found.Some? {
      var s := found.value;
      if v.opts.trimSpaces {
        s := TrimSpace(s);
      }
      return Ok((s, true));
    }
    if TAG_DEFAULT in v.field.tags {
      return Ok((v.field.tags[TAG_DEFAULT], true));
    }
    return Ok(("", false));
  }

  // ---------------------------------------------------------------- properties

  /** The `file` tag decides before the options: a true token enables file
      loading with the default suffix, a false token disables it whatever the
      options say, any other text enables it with that text as the suffix
      (blank text standing for the default suffix); without the tag the
      options decide. */
  lemma FileLoadingCases(v: Variable)
    ensures TAG_FILE in v.field.tags && v.field.tags[TAG_FILE] in TRUE_TOKENS ==>
              FileLoading(v).1 && FileSuffix(v) == v.opts.defaultFileSuffix
    ensures TAG_FILE in v.field.tags && v.field.tags[TAG_FILE] in FALSE_TOKENS ==> !FileLoading(v).1
    ensures TAG_FILE in v.field.tags && v.field.tags[TAG_FILE] !in TRUE_TOKENS + FALSE_TOKENS ==>
              FileLoading(v).1 &&
              FileSuffix(v) == if IsBlank(v.field.tags[TAG_FILE]) then v.opts.defaultFileSuffix else TrimSpace(v.field.tags[TAG_FILE])
    ensures TAG_FILE !in v.field.tags ==>
              FileLoading(v).1 == v.opts.isLoadFromFile && FileSuffix(v) == v.opts.defaultFileSuffix
  {
    assert TrimSpace("") == "";
  }

  /** Where the file name comes from: an absent path variable means no value,
      a blank path is an error naming the suffix, an unreadable file is the
      read error, and a readable one gives its contents verbatim. */
  lemma FileIndirection(v: Variable, env: Env, fs: Files, name: string)
    requires FileLoading(v).1
    ensures FileVariable(v, name) !in env ==> LoadFromFile(v, env, fs, name) == Ok(None)
    ensures FileVariable(v, name) in env && IsBlank(env[FileVariable(v, name)]) ==>
              LoadFromFile(v, env, fs, name) == Err(EmptyFilePath(FileSuffix(v)))
    ensures FileVariable(v, name) in env && !IsBlank(env[FileVariable(v, name)]) ==>
              var path := TrimSpace(env[FileVariable(v, name)]);
              LoadFromFile(v, env, fs, name) ==
                if path in fs && fs[path].Ok? then Ok(Some(fs[path].value))
                else Err(ReadFile(fs, path).error)
  {
  }

  /** With file loading off, neither the file system nor any path variable is
      consulted: the value only depends on the environment entries named by
      the key and the alternate key. */
  lemma {:induction false} NoFilesWhenDisabled(v: Variable, env: Env, env': Env, fs: Files, fs': Files, names: seq<string>)
    requires !FileLoading(v).1
    requires forall n :: n in names ==> (n in env <==> n in env') && (n in env ==> env[n] == env'[n])
    ensures FirstFound(v, env, fs, names) == FirstFound(v, env', fs', names)
    ensures FirstFound(v, env, fs, names).Ok?
    decreases |names|
  {
    if names != [] {
      NoFilesWhenDisabled(v, env, env', fs, fs', names[1..]);
    }
  }

  /** A key set in the environment wins over its own file and over the
      alternate key. */
  lemma EnvironmentFirst(v: Variable, env: Env, fs: Files)
    requires v.key in env
    ensures ValueOf(v, env, fs) == Ok((Trimmed(v, env[v.key]), true))
  {
    KeyFirst(v, env, fs);
  }

  /** The key is tried before the alternate key: when it yields a value or an
      error, that decides, whatever the alternate key would give. */
  lemma KeyFirst(v: Variable, env: Env, fs: Files)
    ensures TryEnv(v, env, fs, v.key).Err? ==> ValueOf(v, env, fs) == Err(TryEnv(v, env, fs, v.key).error)
    ensures TryEnv(v, env, fs, v.key).Ok? && TryEnv(v, env, fs, v.key).value.Some? ==>
              ValueOf(v, env, fs) == Ok((Trimmed(v, TryEnv(v, env, fs, v.key).value.value), true))
  {
    assert Names(v)[0] == v.key;
  }

  /** When the key yields nothing, the alternate key is tried, environment
      then file, before the default. */
  lemma AlternateKeySecond(v: Variable, env: Env, fs: Files)
    requires TryEnv(v, env, fs, v.key) == Ok(None) && v.altKey != ""
    ensures FirstFound(v, env, fs, Names(v)) == TryEnv(v, env, fs, v.altKey)
  {
    var names := Names(v);
    assert names == [v.key, v.altKey];
    assert names[1..] == [v.altKey] && [v.altKey][1..] == [];
    assert FirstFound(v, env, fs, names) == FirstFound(v, env, fs, [v.altKey]);
    match TryEnv(v, env, fs, v.altKey)
    case Err(e) =>
    case Ok(Some(x)) =>
    case Ok(None) => assert FirstFound(v, env, fs, []) == Ok(None);
  }

  /** No name yields a value: the `default` tag, when present (even empty),
      counts as loaded and is taken verbatim, never trimmed. */
  lemma DefaultWhenNothingFound(v: Variable, env: Env, fs: Files)
    requires FirstFound(v, env, fs, Names(v)) == Ok(None)
    ensures TAG_DEFAULT in v.field.tags ==> ValueOf(v, env, fs) == Ok((v.field.tags[TAG_DEFAULT], true))
    ensures TAG_DEFAULT !in v.field.tags ==> ValueOf(v, env, fs) == Ok(("", false))
  {
  }

  /** A value read from the environment or a file has no surrounding white
      space when trimming is on, and is untouched when it is off. */
  lemma TrimmingOnlyWhenAsked(v: Variable, env: Env, fs: Files)
    requires FirstFound(v, env, fs, Names(v)).Ok? && FirstFound(v, env, fs, Names(v)).value.Some?
    ensures var s := FirstFound(v, env, fs, Names(v)).value.value;
            var r := ValueOf(v, env, fs).value.0;
            && (v.opts.trimSpaces ==> r == TrimSpace(s) && (r == "" || (!IsSpace(r[0]) && !IsSpace(r[|r| - 1]))))
            && (!v.opts.trimSpaces ==> r == s)
  {
  }

  /** The search yields a value only from one of the names, the first `j`
      of them having yielded nothing: from the environment entry itself, or
      from the file its path variable names. */
  lemma {:induction false} FoundFromSomeName(v: Variable, env: Env, fs: Files, names: seq<string>) returns (j: nat)
    requires FirstFound(v, env, fs, names).Ok? && FirstFound(v, env, fs, names).value.Some?
    ensures j < |names| && TryEnv(v, env, fs, names[j]) == FirstFound(v, env, fs, names)
    ensures forall i :: 0 <= i < j ==> TryEnv(v, env, fs, names[i]) == Ok(None)
    decreases |names|
  {
    var t := TryEnv(v, env, fs, names[0]);
    if t.Ok? && t.value.Some? {
      assert FirstFound(v, env, fs, names) == t;
      return 0;
    }
    assert t == Ok(None);
    var rest := names[1..];
    assert FirstFound(v, env, fs, names) == FirstFound(v, env, fs, rest);
    var k := FoundFromSomeName(v, env, fs, rest);
    j := k + 1;
    assert names[j] == rest[k];
    assert forall i :: 1 <= i < j ==> names[i] == rest[i - 1];
  }
}
