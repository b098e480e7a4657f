/** gatherInfo (variable.go): the walk that flattens the specification struct
    into an ordered list of variables, allocating nil pointers to structs on
    the way and descending into structs that cannot parse their own text. */
module Walker {
  import opened Wrappers
  import opened GoStrings
  import opened Reflection
  import opened Errors
  import opened Options
  import opened Keys

  /** One configuration variable: its key and alternate key, the declared
      field, the type of the location a value is written to (the field, or
      the non-pointer it leads to), where that location is, and the options
      it was gathered under. */
  datatype Variable = Variable(key: string, altKey: string, field: Field, typ: Type, path: seq<Step>, opts: Options)

  function Derefs(n: nat): (r: seq<Step>)
    ensures |r| == n && forall i :: 0 <= i < n ==> r[i] == Deref
  {
    seq(n, _ => Deref)
  }

  /** `n` non-nil pointers around `v`. */
  function Wrap(n: nat, v: Value): Value {
    if n == 0 then v else VPtr(Wrap(n - 1, v))
  }

  /** The pointer loop of gatherInfo on a field of type `t` holding `v`: every
      non-nil pointer is followed, a nil pointer to a struct is first
      allocated, a nil pointer to anything else stops the loop. The result is
      the type where the loop stopped, how many pointers it followed, and the
      value found there; the field then holds Wrap(count, value). */
  function Chase(t: Type, v: Value): (r: (Type, nat, Value))
    ensures Size(r.0) <= Size(t)
    ensures r.0.kind.Ptr? ==> !r.2.VPtr? && !r.0.kind.elem.kind.Struct?
    ensures r.1 == 0 ==> r.0 == t && r.2 == v
    decreases Size(t)
  {
    if !t.kind.Ptr? then (t, 0, v)
    else if v.VPtr? then
      var c := Chase(t.kind.elem, v.target);
      (c.0, c.1 + 1, c.2)
    else if t.kind.elem.kind.Struct? then (t.kind.elem, 1, Zero(t.kind.elem))
    else (t, 0, v)
  }

  /** The field is skipped: it cannot be set, or its `ignored` tag is true. */
  predicate Skipped(f: Field) {
    !IsExported(f.name) || IsIgnored(f)
  }

  /** A struct the walk descends into: no capability on it or its address. */
  predicate Descends(t: Type) {
    t.kind.Struct? && Capabilities(t) == {}
  }

  /** The options a nested struct is walked under: a copy (so no trimming),
      prefixed by the field's key unless the field is embedded. */
  function InnerOptions(opts: Options, f: Field, key: string): Options {
    var inner := CopyOf(opts);
    if f.anonymous then inner else inner.(prefix := key)
  }

  /** Field `i` of a struct at `base`, holding `fv`: its variables and the
      value it holds afterwards. */
  function WalkField(f: Field, i: nat, fv: Value, base: seq<Step>, opts: Options): (seq<Variable>, Value)
    decreases Size(f.typ), 1
  {
    if Skipped(f) then ([], fv)
    else
      var c := Chase(f.typ, fv);
      var w := WalkAt(f, ResolveKey(opts.prefix, f), c.0, c.2, base + [FieldAt(i)] + Derefs(c.1), opts);
      (w.0, Wrap(c.1, w.1))
  }

  /** The location the pointer loop stopped at, of type `t` holding `x`, for
      a field whose key and alternate key are `key`: one variable, or the
      variables of a struct the walk descends into. */
  function WalkAt(f: Field, key: (string, string), t: Type, x: Value, path: seq<Step>, opts: Options): (seq<Variable>, Value)
    decreases Size(t), 0
  {
    if Descends(t) then WalkFields(t.kind.fields, 0, x, path, InnerOptions(opts, f, key.0))
    else ([Variable(key.0, key.1, f, t, path, opts)], x)
  }

  /** The fields from index `i` on of a struct at `base` holding `v`. The
      struct keeps one value per declared field, and a value that is not a
      struct is left as it is. */
  function WalkFields(fs: seq<Field>, i: nat, v: Value, base: seq<Step>, opts: Options): (r: (seq<Variable>, Value))
    ensures v.VStruct? && |v.fields| == |fs| ==> r.1.VStruct? && |r.1.fields| == |fs|
    ensures !v.VStruct? ==> r.1 == v
    decreases FieldsSize(fs), 2, |fs| - i
  {
    if i >= |fs| then ([], v)
    else
      FieldSmaller(fs, i);
      var w := WalkField(fs[i], i, GetAt(v, [FieldAt(i)]), base, opts);
      var rest := WalkFields(fs, i + 1, SetAt(v, [FieldAt(i)], w.1), base, opts);
      (w.0 + rest.0, rest.1)
  }

  /** gatherInfo on a specification of type `t` holding `v`: the variables and
      the specification's value afterwards, or the error for anything but a
      pointer to a struct. */
  function Gather(spec: Spec, v: Value, opts: Options): (r: Result<(seq<Variable>, Value), Error>)
    ensures r.Err? <==> !IsStructPointer(spec)
    ensures r.Err? ==> r.error == InvalidSpecification
  {
    if !IsStructPointer(spec) then Err(InvalidSpecification)
    else Ok(WalkFields(spec.target.typ.kind.fields, 0, v, [], opts))
  }

  /** A nil pointer is rejected even when it points to a struct type: its
      element is not a struct value. */
  lemma NilPointerRejected(elem: Type, v: Value, opts: Options)
    requires elem.kind.Struct?
    ensures Gather(NilPointer(elem), v, opts) == Err(InvalidSpecification)
  {
  }

  // ---------------------------------------------------------------- in place

  /** gatherInfo: rejects anything but a pointer to a struct; otherwise walks
      the struct the pointer points to, allocating in it as it goes. */
  method GatherInfo(spec: Spec, opts: Options) returns (r: Result<seq<Variable>, Error>)
    modifies if spec.PointerTo? then {spec.target} else {}
    ensures var g := Gather(spec, old(if spec.PointerTo? then spec.target.value else VNil), opts);
            (r.Err? <==> g.Err?) && (r.Err? ==> r.error == g.error) && (r.Ok? ==> r.value == g.value.0)
    ensures IsStructPointer(spec) ==>
              spec.target.value == Gather(spec, old(spec.target.value), opts).value.1
    ensures spec.PointerTo? && !IsStructPointer(spec) ==> spec.target.value == old(spec.target.value)
  {
    if !IsStructPointer(spec) {
      return Err(InvalidSpecification);
    }
    var target := spec.target;
    var vars, v := GatherFields(target.typ.kind.fields, target.value, [], opts);
    target.value := v;
    return Ok(vars);
  }

  lemma ConcatAssoc<T>(a: seq<T>, b: seq<T>, c: seq<T>)
    ensures a + (b + c) == (a + b) + c
  {
  }

  /** The loop over the fields of a struct at `base` holding `v`. */
  method GatherFields(fs: seq<Field>, v: Value, base: seq<Step>, opts: Options) returns (vars: seq<Variable>, nv: Value)
    ensures (vars, nv) == WalkFields(fs, 0, v, base, opts)
    decreases FieldsSize(fs), 2
  {
    vars, nv := [], v;
    assert vars + WalkFields(fs, 0, nv, base, opts).0 == WalkFields(fs, 0, nv, base, opts).0;
    var i := 0;
    while i < |fs|
      invariant 0 <= i <= |fs|
      invariant WalkFields(fs, 0, v, base, opts) == (vars + WalkFields(fs, i, nv, base, opts).0, WalkFields(fs, i, nv, base, opts).1)
    {
      FieldSmaller(fs, i);
      var fieldVars, fv := GatherField(fs[i], i, GetAt(nv, [FieldAt(i)]), base, opts);
      ghost var rest := WalkFields(fs, i + 1, SetAt(nv, [FieldAt(i)], fv), base, opts);
      assert WalkFields(fs, i, nv, base, opts) == (fieldVars + rest.0, rest.1);
      ConcatAssoc(vars, fieldVars, rest.0);
      vars := vars + fieldVars;
      nv := SetAt(nv, [FieldAt(i)], fv);
      i := i + 1;
    }
    assert vars + [] == vars;
  }

  /** The pointer loop of gatherInfo on a location of type `t0` holding `v0`:
      it follows non-nil pointers and allocates nil pointers to structs. */
  method ChasePointers(t0: Type, v0: Value) returns (t: Type, n: nat, x: Value)
    ensures (t, n, x) == Chase(t0, v0)
  {
    t, x, n := t0, v0, 0;
    while t.kind.Ptr?
      invariant Chase(t0, v0) == (Chase(t, x).0, n + Chase(t, x).1, Chase(t, x).2)
      decreases Size(t)
    {
      if x.VPtr? {
        t, x, n := t.kind.elem, x.target, n + 1;
      } else if t.kind.elem.kind.Struct? {
        // a nil pointer to a struct is allocated, then followed
        t, x, n := t.kind.elem, Zero(t.kind.elem), n + 1;
      } else {
        break;
      }
    }
    assert Chase(t, x) == (t, 0, x);
  }

  /** One field: the skip test, the pointer loop, then the location it
      stopped at. */
  method GatherField(f: Field, i: nat, fv: Value, base: seq<Step>, opts: Options) returns (vars: seq<Variable>, nfv: Value)
    ensures (vars, nfv) == WalkField(f, i, fv, base, opts)
    decreases Size(f.typ), 1
  {
    if Skipped(f) {
      return [], fv;
    }
    var t, n, x := ChasePointers(f.typ, fv);
    var key := ResolveKey(opts.prefix, f);
    var nx;
    vars, nx := GatherAt(f, key, t, x, base + [FieldAt(i)] + Derefs(n), opts);
    nfv := Wrap(n, nx);
  }

  /** Where the pointer loop stopped: the variable itself or, for a struct
      without capabilities, the variables of its fields. */
  method GatherAt(f: Field, key: (string, string), t: Type, x: Value, path: seq<Step>, opts: Options) returns (vars: seq<Variable>, nx: Value)
    ensures (vars, nx) == WalkAt(f, key, t, x, path, opts)
    decreases Size(t), 0, 1
  {
    if Descends(t) {
      vars, nx := GatherStruct(f, t, x, path, InnerOptions(opts, f, key.0));
    } else {
      vars, nx := [Variable(key.0, key.1, f, t, path, opts)], x;
    }
  }

  /** A struct the walk descends into, walked under the options `inner`. */
  method GatherStruct(f: Field, t: Type, x: Value, path: seq<Step>, inner: Options) returns (vars: seq<Variable>, nx: Value)
    requires t.kind.Struct?
    ensures (vars, nx) == WalkFields(t.kind.fields, 0, x, path, inner)
    decreases Size(t), 0, 0
  {
    vars, nx := GatherFields(t.kind.fields, x, path, inner);
  }

  // ---------------------------------------------------------------- properties

  predicate IsPathPrefix(p: seq<Step>, q: seq<Step>) {
    |p| <= |q| && q[..|p|] == p
  }

  /** What every variable of a walk under `opts` at `base` satisfies. */
  predicate WellGathered(v: Variable, base: seq<Step>, opts: Options) {
    && IsUpperCase(v.key)
    && IsPathPrefix(base, v.path)
    && !Descends(v.typ)
    && !Skipped(v.field)
    && (v.opts == opts ||
        (!v.opts.trimSpaces && v.opts.isLoadFromFile == opts.isLoadFromFile && v.opts.defaultFileSuffix == opts.defaultFileSuffix))
    && (opts.prefix != "" && IsUpperCase(opts.prefix) ==> HasPrefix(v.key, opts.prefix + "_"))
  }

  lemma AppendPrefix(p: seq<Step>, q: seq<Step>)
    ensures IsPathPrefix(p, p + q)
  {
    assert (p + q)[..|p|] == p;
  }

  lemma PathPrefixTransitive(p: seq<Step>, q: seq<Step>, r: seq<Step>)
    requires IsPathPrefix(p, q) && IsPathPrefix(q, r)
    ensures IsPathPrefix(p, r)
  {
    assert r[..|p|] == r[..|q|][..|p|];
  }

  lemma PrefixTransitive(a: string, b: string, c: string)
    requires HasPrefix(b, a) && HasPrefix(c, b)
    ensures HasPrefix(c, a)
  {
    assert c[..|a|] == c[..|b|][..|a|];
  }

  /** What WalkAt needs of a key: upper case, and under the prefix when the
      prefix is a non-empty upper-case string. */
  predicate KeyFits(key: string, prefix: string) {
    IsUpperCase(key) && (prefix != "" && IsUpperCase(prefix) ==> HasPrefix(key, prefix + "_"))
  }

  lemma ResolvedKeyFits(prefix: string, f: Field)
    ensures KeyFits(ResolveKey(prefix, f).0, prefix)
  {
    if prefix != "" && IsUpperCase(prefix) {
      UpperPrefixKept(prefix, f);
    }
  }

  lemma {:induction false} WalkFieldGathered(f: Field, i: nat, fv: Value, base: seq<Step>, opts: Options)
    ensures forall v :: v in WalkField(f, i, fv, base, opts).0 ==> WellGathered(v, base, opts)
    decreases Size(f.typ), 1
  {
    if !Skipped(f) {
      var c := Chase(f.typ, fv);
      var key := ResolveKey(opts.prefix, f);
      var path := base + [FieldAt(i)] + Derefs(c.1);
      var w := WalkAt(f, key, c.0, c.2, path, opts);
      assert WalkField(f, i, fv, base, opts).0 == w.0;
      ResolvedKeyFits(opts.prefix, f);
      WalkAtGathered(f, key, c.0, c.2, path, opts);
      ConcatAssoc(base, [FieldAt(i)], Derefs(c.1));
      AppendPrefix(base, [FieldAt(i)] + Derefs(c.1));
      forall v | v in w.0 ensures WellGathered(v, base, opts) {
        assert WellGathered(v, path, opts);
        PathPrefixTransitive(base, path, v.path);
      }
    }
  }

  lemma {:induction false} WalkAtGathered(f: Field, key: (string, string), t: Type, x: Value, path: seq<Step>, opts: Options)
    requires !Skipped(f) && KeyFits(key.0, opts.prefix)
    ensures forall v :: v in WalkAt(f, key, t, x, path, opts).0 ==> WellGathered(v, path, opts)
    decreases Size(t), 0
  {
    if !Descends(t) {
      assert WalkAt(f, key, t, x, path, opts).0 == [Variable(key.0, key.1, f, t, path, opts)];
      assert IsPathPrefix(path, path);
    } else {
      var inner := InnerOptions(opts, f, key.0);
      assert WalkAt(f, key, t, x, path, opts) == WalkFields(t.kind.fields, 0, x, path, inner);
      WalkFieldsGathered(t.kind.fields, 0, x, path, inner);
      forall v | v in WalkAt(f, key, t, x, path, opts).0 ensures WellGathered(v, path, opts) {
        assert WellGathered(v, path, inner);
        if opts.prefix != "" && IsUpperCase(opts.prefix) && !f.anonymous {
          assert HasPrefix(key.0 + "_", key.0);
          PrefixTransitive(key.0, key.0 + "_", v.key);
          PrefixTransitive(opts.prefix + "_", key.0, v.key);
        }
      }
    }
  }

  lemma {:induction false} WalkFieldsGathered(fs: seq<Field>, i: nat, v: Value, base: seq<Step>, opts: Options)
    ensures forall x :: x in WalkFields(fs, i, v, base, opts).0 ==> WellGathered(x, base, opts)
    decreases FieldsSize(fs), 2, |fs| - i
  {
    if i < |fs| {
      FieldSmaller(fs, i);
      var w := WalkField(fs[i], i, GetAt(v, [FieldAt(i)]), base, opts);
      WalkFieldGathered(fs[i], i, GetAt(v, [FieldAt(i)]), base, opts);
      WalkFieldsGathered(fs, i + 1, SetAt(v, [FieldAt(i)], w.1), base, opts);
    }
  }

  /** The index of the field, of the struct at `base`, that a variable's
      location lies in; -1 when the location is not inside that struct. */
  function FieldIndex(v: Variable, base: seq<Step>): int {
    if |base| < |v.path| && v.path[|base|].FieldAt? then v.path[|base|].index else -1
  }

  /** A skipped field produces no variable and keeps its value; every
      variable of any other field lies inside that field. */
  lemma FieldEntries(f: Field, i: nat, fv: Value, base: seq<Step>, opts: Options)
    ensures Skipped(f) ==> WalkField(f, i, fv, base, opts) == ([], fv)
    ensures forall v :: v in WalkField(f, i, fv, base, opts).0 ==> FieldIndex(v, base) == i
  {
    if !Skipped(f) {
      var c := Chase(f.typ, fv);
      var key := ResolveKey(opts.prefix, f);
      var path := base + [FieldAt(i)] + Derefs(c.1);
      assert WalkField(f, i, fv, base, opts).0 == WalkAt(f, key, c.0, c.2, path, opts).0;
      ResolvedKeyFits(opts.prefix, f);
      WalkAtGathered(f, key, c.0, c.2, path, opts);
      assert path[|base|] == FieldAt(i);
      forall v | v in WalkAt(f, key, c.0, c.2, path, opts).0 ensures FieldIndex(v, base) == i {
        assert IsPathPrefix(path, v.path);
        assert v.path[|base|] == path[|base|];
      }
    }
  }

  /** Every variable lies in a field with index in [lo, hi). */
  predicate InFields(vars: seq<Variable>, base: seq<Step>, lo: int, hi: int) {
    forall x :: x in vars ==> lo <= FieldIndex(x, base) < hi
  }

  /** A variable of an earlier field never follows one of a later field. */
  predicate FieldOrdered(vars: seq<Variable>, base: seq<Step>) {
    forall a, b :: 0 <= a < b < |vars| ==> FieldIndex(vars[a], base) <= FieldIndex(vars[b], base)
  }

  lemma OrderedConcat(xs: seq<Variable>, ys: seq<Variable>, base: seq<Step>, k: int, hi: int)
    requires k < hi && InFields(xs, base, k, k + 1) && InFields(ys, base, k + 1, hi) && FieldOrdered(ys, base)
    ensures InFields(xs + ys, base, k, hi) && FieldOrdered(xs + ys, base)
  {
    var zs := xs + ys;
    forall a, b | 0 <= a < b < |zs| ensures FieldIndex(zs[a], base) <= FieldIndex(zs[b], base) {
      if b < |xs| {
        assert zs[a] in xs && zs[b] in xs;
      } else if a < |xs| {
        assert zs[a] in xs && zs[b] == ys[b - |xs|];
      } else {
        assert zs[a] == ys[a - |xs|] && zs[b] == ys[b - |xs|];
      }
    }
  }

  /** The variables come field by field in declaration order, each in a
      field from index `i` on. */
  lemma {:induction false} WalkFieldsInOrder(fs: seq<Field>, i: nat, v: Value, base: seq<Step>, opts: Options)
    ensures InFields(WalkFields(fs, i, v, base, opts).0, base, i, |fs|)
    ensures FieldOrdered(WalkFields(fs, i, v, base, opts).0, base)
    decreases |fs| - i
  {
    if i < |fs| {
      var w := WalkField(fs[i], i, GetAt(v, [FieldAt(i)]), base, opts);
      var rest := WalkFields(fs, i + 1, SetAt(v, [FieldAt(i)], w.1), base, opts);
      assert WalkFields(fs, i, v, base, opts).0 == w.0 + rest.0;
      FieldEntries(fs[i], i, GetAt(v, [FieldAt(i)]), base, opts);
      WalkFieldsInOrder(fs, i + 1, SetAt(v, [FieldAt(i)], w.1), base, opts);
      OrderedConcat(w.0, rest.0, base, i, |fs|);
    }
  }

  /** A nil pointer to a struct is allocated by the walk; a nil pointer to
      anything else stays nil and is itself the variable's location. */
  lemma NilPointerWalk(f: Field, i: nat, base: seq<Step>, opts: Options)
    requires !Skipped(f) && f.typ.kind.Ptr?
    ensures f.typ.kind.elem.kind.Struct? ==> WalkField(f, i, VNil, base, opts).1.VPtr?
    ensures !f.typ.kind.elem.kind.Struct? ==>
              var key := ResolveKey(opts.prefix, f);
              WalkField(f, i, VNil, base, opts) == ([Variable(key.0, key.1, f, f.typ, base + [FieldAt(i)], opts)], VNil)
  {
    var c := Chase(f.typ, VNil);
    if f.typ.kind.elem.kind.Struct? {
      assert c.1 >= 1;
    } else {
      assert c == (f.typ, 0, VNil);
      assert base + [FieldAt(i)] + Derefs(0) == base + [FieldAt(i)];
    }
  }

  /** A settable, not ignored field whose pointer loop does not stop at a
      struct to descend into gives exactly one variable: its resolved key,
      the type and location the loop stopped at, and the gathering options. */
  lemma LeafField(f: Field, i: nat, fv: Value, base: seq<Step>, opts: Options)
    requires !Skipped(f) && !Descends(Chase(f.typ, fv).0)
    ensures var c := Chase(f.typ, fv);
            var key := ResolveKey(opts.prefix, f);
            WalkField(f, i, fv, base, opts) ==
              ([Variable(key.0, key.1, f, c.0, base + [FieldAt(i)] + Derefs(c.1), opts)], Wrap(c.1, c.2))
  {
  }

  /** A struct field the walk descends into is replaced by the variables of
      its own fields, walked under a copy of the options: with the same
      prefix when the field is embedded, with the field's key as prefix
      otherwise. */
  lemma StructField(f: Field, i: nat, fv: Value, base: seq<Step>, opts: Options)
    requires !Skipped(f) && Descends(Chase(f.typ, fv).0)
    ensures var c := Chase(f.typ, fv);
            var inner := if f.anonymous then CopyOf(opts) else CopyOf(opts).(prefix := ResolveKey(opts.prefix, f).0);
            var w := WalkFields(c.0.kind.fields, 0, c.2, base + [FieldAt(i)] + Derefs(c.1), inner);
            WalkField(f, i, fv, base, opts) == (w.0, Wrap(c.1, w.1))
  {
  }

  /** The fields of an embedded struct take their keys as if declared in the
      enclosing struct: under the enclosing prefix, not under a key of their own. */
  lemma EmbeddedKeysUnderPrefix(f: Field, i: nat, fv: Value, base: seq<Step>, opts: Options)
    requires !Skipped(f) && f.anonymous && Descends(Chase(f.typ, fv).0)
    requires opts.prefix != "" && IsUpperCase(opts.prefix)
    ensures forall v :: v in WalkField(f, i, fv, base, opts).0 ==> HasPrefix(v.key, opts.prefix + "_")
  {
    var c := Chase(f.typ, fv);
    var path := base + [FieldAt(i)] + Derefs(c.1);
    assert WalkField(f, i, fv, base, opts).0 == WalkFields(c.0.kind.fields, 0, c.2, path, CopyOf(opts)).0;
    WalkFieldsGathered(c.0.kind.fields, 0, c.2, path, CopyOf(opts));
  }

  /** The variables of a named struct field the walk descends into have keys
      under the field's own key and an underscore. */
  lemma NestedKeysUnderParent(f: Field, i: nat, fv: Value, base: seq<Step>, opts: Options)
    requires !Skipped(f) && !f.anonymous && Descends(Chase(f.typ, fv).0)
    ensures forall v :: v in WalkField(f, i, fv, base, opts).0 ==> HasPrefix(v.key, ResolveKey(opts.prefix, f).0 + "_")
  {
    var c := Chase(f.typ, fv);
    var key := ResolveKey(opts.prefix, f);
    var path := base + [FieldAt(i)] + Derefs(c.1);
    var inner := InnerOptions(opts, f, key.0);
    assert WalkField(f, i, fv, base, opts).0 == WalkFields(c.0.kind.fields, 0, c.2, path, inner).0;
    ResolvedKeyNonEmpty(opts.prefix, f);
    WalkFieldsGathered(c.0.kind.fields, 0, c.2, path, inner);
  }

  /** The variables of a walk, field by field in the declaration order of the
      specification's struct. */
  lemma GatherInDeclarationOrder(spec: Spec, value: Value, opts: Options)
    requires IsStructPointer(spec)
    ensures InFields(Gather(spec, value, opts).value.0, [], 0, |spec.target.typ.kind.fields|)
    ensures FieldOrdered(Gather(spec, value, opts).value.0, [])
  {
    WalkFieldsInOrder(spec.target.typ.kind.fields, 0, value, [], opts);
  }

  /** Every variable of a walk has an upper-case key, which starts with the
      prefix and an underscore when the prefix is a non-empty upper-case
      string; its field is settable and not ignored; its location is not a
      struct the walk would descend into; and variables found inside nested
      structs are never trimmed. */
  lemma GatherProperties(spec: Spec, value: Value, opts: Options)
    requires IsStructPointer(spec)
    ensures forall v :: v in Gather(spec, value, opts).value.0 ==>
              && IsUpperCase(v.key)
              && (opts.prefix != "" && IsUpperCase(opts.prefix) ==> HasPrefix(v.key, opts.prefix + "_"))
              && IsExported(v.field.name) && !IsIgnored(v.field)
              && !Descends(v.typ)
              && (v.opts.trimSpaces ==> v.opts == opts)
  {
    WalkFieldsGathered(spec.target.typ.kind.fields, 0, value, [], opts);
  }
}
