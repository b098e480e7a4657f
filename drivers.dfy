/** The two entry points (process.go): Process walks the specification, then
    resolves and converts each variable in walk order, stopping at the first
    failure; CheckDisallowed walks it only to learn its keys, then reports
    the first prefixed environment entry that is not one of them. */
module Drivers {
  import opened Wrappers
  import opened GoStrings
  import opened Reflection
  import opened Errors
  import Options
  import opened Walker
  import opened Resolver
  import Coerce

  // ---------------------------------------------------------------- Process

  /** The errors Process reports once the walk succeeded: a file-loading
      error, a missing required value, or a failed conversion wrapped with
      where it was going. */
  predicate ProcessError(e: Error) {
    LoadError(e) || e.RequiredMissing? || e.Parse?
  }

  /** Process on one variable: what the specification's value becomes, and the
      error that stops Process there, if any. The value only changes when
      there is text for the variable. */
  function Step(f: Coerce.Foreign, v: Variable, value: Value, env: Env, fs: Files): (r: (Value, Option<Error>))
    ensures r.0 != value ==> ValueOf(v, env, fs).Ok? && ValueOf(v, env, fs).value.1
    ensures r.1.Some? ==> ProcessError(r.1.value)
  {
    match ValueOf(v, env, fs)
    case Err(e) => (value, Some(e))
    case Ok((s, loaded)) =>
      if !loaded then (value, if IsRequired(v) then Some(RequiredMissing(v.key)) else None)
      else
        var o := Coerce.Coerce(f, v.typ, GetAt(value, v.path), s);
        (SetAt(value, v.path, o.value),
         if o.err.Some? then Some(Parse(ParseError(v.key, v.field.name, TypeString(v.typ), s, o.err.value))) else None)
  }

  /** Process on the variables in order, from the specification's value
      `value`: the value at the end, and the first error. */
  function Run(f: Coerce.Foreign, vars: seq<Variable>, value: Value, env: Env, fs: Files): (r: (Value, Option<Error>))
    ensures r.1.Some? ==> ProcessError(r.1.value)
    decreases |vars|
  {
    if vars == [] then (value, None)
    else
      var st := Step(f, vars[0], value, env, fs);
      if st.1.Some? then st else Run(f, vars[1..], st.0, env, fs)
  }

  /** The body of Process's loop for one variable: the value, the required
      check, then the conversion into the variable's location. */
  method ProcessVariable(f: Coerce.Foreign, target: Target, v: Variable, env: Env, fs: Files) returns (err: Option<Error>)
    modifies target
    ensures (target.value, err) == Step(f, v, old(target.value), env, fs)
  {
    var value := Resolver.Value(v, env, fs);
    if value.Err? {
      return Some(value.error);
    }
    var (s, loaded) := value.value;
    if !loaded {
      if IsRequired(v) {
        return Some(RequiredMissing(v.key));
      }
      return None;
    }
    var e := Coerce.ProcessField(f, target, v.path, v.typ, s);
    if e.Some? {
      return Some(Parse(ParseError(v.key, v.field.name, TypeString(v.typ), s, e.value)));
    }
    return None;
  }

  /** Process's loop over the gathered variables, returning at the first error. */
  method ProcessVariables(f: Coerce.Foreign, target: Target, vars: seq<Variable>, env: Env, fs: Files) returns (err: Option<Error>)
    modifies target
    ensures (target.value, err) == Run(f, vars, old(target.value), env, fs)
  {
    err := None;
    var rest := vars;
    while rest != []
      invariant err == None
      invariant Run(f, vars, old(target.value), env, fs) == Run(f, rest, target.value, env, fs)
      decreases |rest|
    {
      err := ProcessVariable(f, target, rest[0], env, fs);
      if err.Some? {
        return;
      }
      rest := rest[1..];
    }
  }

  /** Process: the options applied to the defaults, the walk, then each
      variable in turn, returning at the first error. */
  method Process(spec: Spec, options: seq<Options.Option>, env: Env, fs: Files, f: Coerce.Foreign) returns (err: Option<Error>)
    modifies if spec.PointerTo? then {spec.target} else {}
    ensures !IsStructPointer(spec) ==> err == Some(InvalidSpecification)
    ensures IsStructPointer(spec) ==>
              var g := Gather(spec, old(spec.target.value), Options.ApplyAll(Options.DefaultOptions(), options)).value;
              (spec.target.value, err) == Run(f, g.0, g.1, env, fs)
    ensures spec.PointerTo? && !IsStructPointer(spec) ==> spec.target.value == old(spec.target.value)
  {
    var record := new Options.Record.Default();
    record.Apply(options);
    var gathered := GatherInfo(spec, record.View());
    if gathered.Err? {
      return Some(gathered.error);
    }
    err := ProcessVariables(f, spec.target, gathered.value, env, fs);
  }

  // ---------------------------------------------------------------- CheckDisallowed

  /** The keys of the variables: the whitelist. Alternate keys and the names
      of path variables are not in it. */
  function KeySet(vars: seq<Variable>): set<string> {
    set v | v in vars :: v.key
  }

  /** The loop that collects the keys. */
  method KnownKeys(vars: seq<Variable>) returns (keys: set<string>)
    ensures keys == KeySet(vars)
  {
    keys := {};
    var i := 0;
    while i < |vars|
      invariant 0 <= i <= |vars|
      invariant keys == KeySet(vars[..i])
    {
      assert vars[..i + 1] == vars[..i] + [vars[i]];
      keys := keys + {vars[i].key};
      i := i + 1;
    }
    assert vars[..i] == vars;
  }

  /** What an entry must start with to be checked: the upper-cased prefix and
      an underscore, or nothing when there is no prefix. */
  function ScanPrefix(o: Options.Options): string {
    if o.prefix != "" then ToUpper(o.prefix) + "_" else ""
  }

  /** An environment entry `NAME=VALUE` that is checked and whose name is not
      a key. */
  predicate Unknown(entry: string, keys: set<string>, prefix: string) {
    HasPrefix(entry, prefix) && Before(entry, '=') !in keys
  }

  /** The name of the first unknown entry, in the environment's own order. */
  function FirstUnknown(environ: seq<string>, keys: set<string>, prefix: string): (r: Option<string>)
    ensures r.None? <==> forall j :: 0 <= j < |environ| ==> !Unknown(environ[j], keys, prefix)
    ensures r.Some? ==>
              exists j :: 0 <= j < |environ| && Unknown(environ[j], keys, prefix) && r.value == Before(environ[j], '=') &&
                forall i :: 0 <= i < j ==> !Unknown(environ[i], keys, prefix)
    decreases |environ|
  {
    if environ == [] then None
    else if Unknown(environ[0], keys, prefix) then Some(Before(environ[0], '='))
    else
      var r := FirstUnknown(environ[1..], keys, prefix);
      assert forall j :: 1 <= j < |environ| ==> environ[j] == environ[1..][j - 1];
      if r.Some? then
        ghost var j :| 0 <= j < |environ[1..]| && Unknown(environ[1..][j], keys, prefix) &&
                       r.value == Before(environ[1..][j], '=') &&
                       forall i :: 0 <= i < j ==> !Unknown(environ[1..][i], keys, prefix);
        assert Unknown(environ[j + 1], keys, prefix) && r.value == Before(environ[j + 1], '=');
        assert forall i :: 0 <= i < j + 1 ==> !Unknown(environ[i], keys, prefix);
        r
      else
        r
  }

  /** The scan of the environment, returning at the first unknown entry. */
  method Scan(environ: seq<string>, keys: set<string>, prefix: string) returns (r: Option<string>)
    ensures r == FirstUnknown(environ, keys, prefix)
  {
    var i := 0;
    while i < |environ|
      invariant 0 <= i <= |environ|
      invariant FirstUnknown(environ, keys, prefix) == FirstUnknown(environ[i..], keys, prefix)
    {
      assert environ[i..][0] == environ[i] && environ[i..][1..] == environ[i + 1..];
      if !HasPrefix(environ[i], prefix) {
        i := i + 1;
        continue;
      }
      var name := Before(environ[i], '=');
      if name !in keys {
        return Some(name);
      }
      i := i + 1;
    }
    assert environ[i..] == [];
    return None;
  }

  /** CheckDisallowed: the walk, the whitelist of keys, then the scan of the
      environment entries (each `NAME=VALUE`) in their own order. */
  method CheckDisallowed(spec: Spec, options: seq<Options.Option>, environ: seq<string>) returns (err: Option<Error>)
    modifies if spec.PointerTo? then {spec.target} else {}
    ensures !IsStructPointer(spec) ==> err == Some(InvalidSpecification)
    ensures IsStructPointer(spec) ==>
              var opts := Options.ApplyAll(Options.DefaultOptions(), options);
              var vars := Gather(spec, old(spec.target.value), opts).value.0;
              err == match FirstUnknown(environ, KeySet(vars), ScanPrefix(opts))
                     case None => None
                     case Some(name) => Some(UnknownVariable(name))
    ensures IsStructPointer(spec) ==>
              spec.target.value == Gather(spec, old(spec.target.value), Options.ApplyAll(Options.DefaultOptions(), options)).value.1
    ensures spec.PointerTo? && !IsStructPointer(spec) ==> spec.target.value == old(spec.target.value)
  {
    var record := new Options.Record.Default();
    record.Apply(options);
    var opts := record.View();
    var gathered := GatherInfo(spec, opts);
    if gathered.Err? {
      return Some(gathered.error);
    }
    var keys := KnownKeys(gathered.value);
    var prefix := ScanPrefix(opts);
    var unknown := Scan(environ, keys, prefix);
    if unknown.Some? {
      return Some(UnknownVariable(unknown.value));
    }
    return None;
  }

  // ---------------------------------------------------------------- properties

  /** Running two lists of variables one after the other is running the
      second from where the first left off, unless the first failed. */
  lemma {:induction false} RunAppend(f: Coerce.Foreign, a: seq<Variable>, b: seq<Variable>, value: Value, env: Env, fs: Files)
    ensures Run(f, a + b, value, env, fs) ==
              var r := Run(f, a, value, env, fs);
              if r.1.Some? then r else Run(f, b, r.0, env, fs)
    decreases |a|
  {
    if a == [] {
      assert a + b == b;
    } else {
      assert (a + b)[0] == a[0] && (a + b)[1..] == a[1..] + b;
      var st := Step(f, a[0], value, env, fs);
      if st.1.None? {
        RunAppend(f, a[1..], b, st.0, env, fs);
      }
    }
  }

  /** Process stops at the first failure: when the first `j` variables pass
      and variable `j` fails, the result is that failure, with the value as
      variable `j` left it; no later variable is looked at. */
  lemma RunStopsAtFirstFailure(f: Coerce.Foreign, vars: seq<Variable>, value: Value, env: Env, fs: Files, j: nat)
    requires j < |vars|
    requires Run(f, vars[..j], value, env, fs).1.None?
    requires Step(f, vars[j], Run(f, vars[..j], value, env, fs).0, env, fs).1.Some?
    ensures Run(f, vars, value, env, fs) == Step(f, vars[j], Run(f, vars[..j], value, env, fs).0, env, fs)
  {
    assert vars == vars[..j] + vars[j..];
    RunAppend(f, vars[..j], vars[j..], value, env, fs);
    assert vars[j..][0] == vars[j];
  }

  /** What one variable does: a resolver error is returned as it is, a
      missing required value is reported by key, a missing optional value
      changes nothing; a value found is converted into the variable's own
      location, nothing independent of that location changes, and a
      conversion error comes back wrapped with the key, the field name, the
      type name and the raw text. */
  lemma StepCases(f: Coerce.Foreign, v: Variable, value: Value, env: Env, fs: Files)
    ensures ValueOf(v, env, fs).Err? ==> Step(f, v, value, env, fs) == (value, Some(ValueOf(v, env, fs).error))
    ensures ValueOf(v, env, fs).Ok? && !ValueOf(v, env, fs).value.1 ==>
              Step(f, v, value, env, fs) == (value, if IsRequired(v) then Some(RequiredMissing(v.key)) else None)
    ensures ValueOf(v, env, fs).Ok? && ValueOf(v, env, fs).value.1 ==>
              var s := ValueOf(v, env, fs).value.0;
              var o := Coerce.Coerce(f, v.typ, GetAt(value, v.path), s);
              var st := Step(f, v, value, env, fs);
              && (HasPath(value, v.path) ==> GetAt(st.0, v.path) == o.value)
              && (forall q :: Independent(v.path, q) ==> GetAt(st.0, q) == GetAt(value, q))
              && (st.1.Some? <==> o.err.Some?)
              && (st.1.Some? ==> st.1.value == Parse(ParseError(v.key, v.field.name, TypeString(v.typ), s, o.err.value)))
  {
    if ValueOf(v, env, fs).Ok? && ValueOf(v, env, fs).value.1 {
      var s := ValueOf(v, env, fs).value.0;
      var o := Coerce.Coerce(f, v.typ, GetAt(value, v.path), s);
      if HasPath(value, v.path) {
        GetSetSame(value, v.path, o.value);
      }
      forall q | Independent(v.path, q) ensures GetAt(SetAt(value, v.path, o.value), q) == GetAt(value, q) {
        GetSetIndependent(value, v.path, q, o.value);
      }
    }
  }

  /** A Process that succeeds has found a value for every required variable. */
  lemma {:induction false} SuccessMeansRequiredFound(f: Coerce.Foreign, vars: seq<Variable>, value: Value, env: Env, fs: Files)
    requires Run(f, vars, value, env, fs).1.None?
    ensures forall v :: v in vars && IsRequired(v) ==> ValueOf(v, env, fs).Ok? && ValueOf(v, env, fs).value.1
    decreases |vars|
  {
    if vars != [] {
      var st := Step(f, vars[0], value, env, fs);
      SuccessMeansRequiredFound(f, vars[1..], st.0, env, fs);
      forall v | v in vars && IsRequired(v) ensures ValueOf(v, env, fs).Ok? && ValueOf(v, env, fs).value.1 {
        if v != vars[0] {
          assert v in vars[1..];
        }
      }
    }
  }

  /** The keys are the whole whitelist: a checked entry is reported exactly
      when its name is not a key, so an alternate key or a path variable
      (`*_FILE`) set under the prefix is reported unless it is also a key. */
  lemma WhitelistIsKeys(vars: seq<Variable>, name: string, val: string, prefix: string)
    requires '=' !in name && HasPrefix(name, prefix)
    ensures var entry := name + "=" + val;
            FirstUnknown([entry], KeySet(vars), prefix) ==
              if exists v :: v in vars && v.key == name then None else Some(name)
  {
    var entry := name + "=" + val;
    BeforeOfEntry(name, val);
    assert entry[..|prefix|] == name[..|prefix|];
    assert (name in KeySet(vars)) <==> exists v :: v in vars && v.key == name;
  }

  lemma BeforeOfEntry(name: string, val: string)
    requires '=' !in name
    ensures Before(name + "=" + val, '=') == name
    decreases |name|
  {
    if name != [] {
      assert (name + "=" + val)[1..] == name[1..] + "=" + val;
      BeforeOfEntry(name[1..], val);
    }
  }

  /** Without a prefix every entry is checked: the scan fails exactly when
      some entry's name is not a key. */
  lemma EmptyPrefixChecksAll(environ: seq<string>, keys: set<string>)
    ensures FirstUnknown(environ, keys, "").None? <==> forall j :: 0 <= j < |environ| ==> Before(environ[j], '=') in keys
  {
    assert forall j :: 0 <= j < |environ| ==> HasPrefix(environ[j], "");
  }
}
