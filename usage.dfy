/** usage.go: the data behind the usage listing. Each gathered variable gives
    one row (key, type description, default, required, description); the
    template that lays the rows out and the writer they go to are not part
    of this model. */
module Usage {
  import opened Wrappers
  import opened GoStrings
  import opened Strconv
  import opened Reflection
  import opened Errors
  import opened Keys
  import opened Walker
  import Options
  import Coerce
  import Resolver

  const TAG_DESC := "desc"

  /** implementsInterface: `t` or `*t` has one of the four capabilities,
      exactly when processField would hand the text to one of them. */
  function ImplementsInterface(t: Type): (r: bool)
    ensures r <==> Coerce.FirstCapability(t).Some?
  {
    Capabilities(t) != {}
  }

  /** The kinds toTypeDescription describes by name or by a fixed word. */
  predicate IsScalar(k: Kind) {
    k.String? || k.Bool? || k.Int? || k.Uint? || k.Float?
  }

  /** toTypeDescription: a human-readable description of a type. Every
      scalar, list and map has one. */
  function TypeDescription(t: Type): (r: string)
    ensures IsScalar(t.kind) || t.kind.Slice? || t.kind.Array? || t.kind.Map? ==> r != ""
    decreases Size(t)
  {
    match t.kind
    case Array(e, _) =>
      if e.kind.Uint? && e.kind.bits == 8 then "String" else "Comma-separated list of " + TypeDescription(e)
    case Slice(e) =>
      if e.kind.Uint? && e.kind.bits == 8 then "String" else "Comma-separated list of " + TypeDescription(e)
    case Map(k, e) => "Comma-separated list of " + TypeDescription(k) + ":" + TypeDescription(e) + " pairs"
    case Ptr(e) => TypeDescription(e)
    case Struct(_) => if ImplementsInterface(t) && t.name != "" then t.name else ""
    case String => if t.name != "" && t.name != "string" then t.name else "String"
    case Bool => if t.name != "" && t.name != "bool" then t.name else "True or False"
    case Int(_) => if t.name != "" && !HasPrefix(t.name, "int") then t.name else "Integer"
    case Uint(_) => if t.name != "" && !HasPrefix(t.name, "uint") then t.name else "Unsigned Integer"
    case Float(_) => if t.name != "" && !HasPrefix(t.name, "float") then t.name else "Float"
    case Other(_) => TypeString(t)
  }

  /** The type under all leading pointers. */
  function Pointee(t: Type): (r: Type)
    ensures !r.kind.Ptr?
    decreases Size(t)
  {
    if t.kind.Ptr? then Pointee(t.kind.elem) else t
  }

  /** `n` unnamed pointers around `t`. */
  function Pointers(n: nat, t: Type): (r: Type)
    ensures n > 0 ==> r.kind.Ptr?
  {
    if n == 0 then t else Type("", "", "", Ptr(Pointers(n - 1, t)), {}, {})
  }

  /** Pointers are transparent: any number of them describe as the pointee. */
  lemma {:induction false} PointersTransparent(n: nat, t: Type)
    ensures TypeDescription(Pointers(n, t)) == TypeDescription(t)
  {
    if n > 0 {
      PointersTransparent(n - 1, t);
    }
  }

  /** A description is empty exactly when, under its pointers, the type is a
      struct that has no capability or no name, or a kind reflect prints as
      nothing. Every scalar, list and map has a non-empty description. */
  lemma {:induction false} EmptyDescription(t: Type)
    ensures TypeDescription(t) == "" <==>
              var b := Pointee(t);
              || (b.kind.Struct? && !(ImplementsInterface(b) && b.name != ""))
              || (b.kind.Other? && TypeString(b) == "")
    decreases Size(t)
  {
    if t.kind.Ptr? {
      EmptyDescription(t.kind.elem);
    } else if t.kind.Int? || t.kind.Uint? || t.kind.Float? {
      assert TypeDescription(t) == t.name || TypeDescription(t)[0] in "IUF";
    }
  }

  /** A named struct is described by its name exactly when Process converts
      it through a capability instead of walking into its fields. */
  lemma StructDescription(t: Type)
    requires t.kind.Struct? && t.name != ""
    ensures TypeDescription(t) == t.name <==> !Descends(t)
    ensures TypeDescription(t) == t.name <==> Coerce.FirstCapability(t).Some?
    ensures TypeDescription(t) != t.name ==> TypeDescription(t) == ""
  {
  }

  /** A byte slice or array is described as a string, as Process reads it
      from the text's bytes; any other slice or array is a list of its
      element's description. */
  lemma ListDescription(t: Type)
    requires t.kind.Slice? || t.kind.Array?
    ensures t.kind.elem.kind == Uint(8) ==> TypeDescription(t) == "String"
    ensures t.kind.elem.kind != Uint(8) ==>
              TypeDescription(t) == "Comma-separated list of " + TypeDescription(t.kind.elem)
  {
  }

  /** A map is described as a list of pairs of its key's and its element's
      descriptions. */
  lemma MapDescription(t: Type)
    requires t.kind.Map?
    ensures TypeDescription(t) ==
              "Comma-separated list of " + TypeDescription(t.kind.key) + ":" + TypeDescription(t.kind.elem) + " pairs"
  {
  }

  /** The word a scalar kind is described by when its type's name is not used. */
  function ScalarWord(k: Kind): string
    requires IsScalar(k)
  {
    match k
    case String => "String"
    case Bool => "True or False"
    case Int(_) => "Integer"
    case Uint(_) => "Unsigned Integer"
    case Float(_) => "Float"
  }

  /** The name of a scalar type looks like a predeclared name of its kind:
      exactly the predeclared name for strings and booleans, and any name
      starting with it for numbers (so a type named `interval` with kind int
      counts too). */
  predicate PredeclaredLike(t: Type)
    requires IsScalar(t.kind)
  {
    match t.kind
    case String => t.name == "string"
    case Bool => t.name == "bool"
    case Int(_) => HasPrefix(t.name, "int")
    case Uint(_) => HasPrefix(t.name, "uint")
    case Float(_) => HasPrefix(t.name, "float")
  }

  /** A defined scalar type is described by its name, unless the name is empty
      or looks predeclared; then by the kind's word. */
  lemma NamedScalarDescription(t: Type)
    requires IsScalar(t.kind)
    ensures t.name != "" && !PredeclaredLike(t) ==> TypeDescription(t) == t.name
    ensures t.name == "" || PredeclaredLike(t) ==> TypeDescription(t) == ScalarWord(t.kind)
  {
  }

  /** The `required` column: an absent or empty tag stays empty, a true token
      reads "true", a false token is shown as written, anything else is
      strconv.ParseBool's error. */
  function UsageRequired(tags: map<string, string>): (r: Result<string, Error>)
    ensures var req := TagGet(tags, TAG_REQUIRED);
            && (r.Ok? <==> req == "" || req in TRUE_TOKENS + FALSE_TOKENS)
            && (r.Ok? && req in TRUE_TOKENS ==> r.value == "true")
            && (r.Ok? && req !in TRUE_TOKENS ==> r.value == req)
            && (r.Err? ==> r.error == Num(NumError("ParseBool", req, InvalidSyntax)))
  {
    var req := TagGet(tags, TAG_REQUIRED);
    if req == "" then Ok(req)
    else match ParseBool(req)
      case Err(e) => Err(Num(e))
      case Ok(b) => Ok(if b then "true" else req)
  }

  /** The column reads "true" exactly for the variables Process requires. */
  lemma RequiredColumnAgrees(v: Variable)
    ensures UsageRequired(v.field.tags) == Ok("true") <==> Resolver.IsRequired(v)
  {
    var req := TagGet(v.field.tags, TAG_REQUIRED);
    assert "true" !in FALSE_TOKENS;
    if req in FALSE_TOKENS {
      assert req != "true";
    }
  }

  /** One row of the listing. */
  datatype Row = Row(key: string, typ: string, default: string, required: string, description: string)

  /** The row for one variable, or the error its `required` tag gives. */
  function RowOf(v: Variable): (r: Result<Row, Error>)
    ensures r.Ok? <==> UsageRequired(v.field.tags).Ok?
    ensures r.Ok? ==> r.value == Row(v.key, TypeDescription(v.typ), TagGet(v.field.tags, TAG_DEFAULT),
                                     UsageRequired(v.field.tags).value, TagGet(v.field.tags, TAG_DESC))
  {
    match UsageRequired(v.field.tags)
    case Err(e) => Err(e)
    case Ok(req) =>
      Ok(Row(v.key, TypeDescription(v.typ), TagGet(v.field.tags, TAG_DEFAULT), req, TagGet(v.field.tags, TAG_DESC)))
  }

  /** The rows in walk order, or the first variable's error: rendering stops
      at the first failing `required` column. */
  function Rows(vars: seq<Variable>): (r: Result<seq<Row>, Error>)
    decreases |vars|
  {
    if vars == [] then Ok([])
    else match RowOf(vars[0])
      case Err(e) => Err(e)
      case Ok(row) =>
        match Rows(vars[1..])
        case Err(e) => Err(e)
        case Ok(rest) => Ok([row] + rest)
  }

  /** Rows succeed exactly when every variable's row does, and then there is
      one row per variable, in order. */
  lemma {:induction false} RowsOk(vars: seq<Variable>)
    ensures Rows(vars).Ok? <==> forall i :: 0 <= i < |vars| ==> RowOf(vars[i]).Ok?
    ensures Rows(vars).Ok? ==>
              |Rows(vars).value| == |vars| && forall i :: 0 <= i < |vars| ==> Rows(vars).value[i] == RowOf(vars[i]).value
    decreases |vars|
  {
    if vars != [] {
      RowsOk(vars[1..]);
      assert forall i :: 1 <= i < |vars| ==> vars[i] == vars[1..][i - 1];
    }
  }

  /** When rows fail, the error is that of the first variable `j` whose row
      fails. */
  lemma {:induction false} RowsFirstError(vars: seq<Variable>) returns (j: nat)
    requires Rows(vars).Err?
    ensures j < |vars| && RowOf(vars[j]).Err? && Rows(vars).error == RowOf(vars[j]).error
    ensures forall i :: 0 <= i < j ==> RowOf(vars[i]).Ok?
    decreases |vars|
  {
    if RowOf(vars[0]).Err? {
      return 0;
    }
    var rest := vars[1..];
    var k := RowsFirstError(rest);
    j := k + 1;
    assert vars[j] == rest[k];
    assert forall i :: 1 <= i < j ==> vars[i] == rest[i - 1];
  }

  /** Usaget: the options applied to the defaults, the walk, then the rows. */
  method Usaget(spec: Spec, options: seq<Options.Option>) returns (r: Result<seq<Row>, Error>)
    modifies if spec.PointerTo? then {spec.target} else {}
    ensures !IsStructPointer(spec) ==> r == Err(InvalidSpecification)
    ensures IsStructPointer(spec) ==>
              r == Rows(Gather(spec, old(spec.target.value), Options.ApplyAll(Options.DefaultOptions(), options)).value.0)
    ensures IsStructPointer(spec) ==>
              spec.target.value == Gather(spec, old(spec.target.value), Options.ApplyAll(Options.DefaultOptions(), options)).value.1
    ensures spec.PointerTo? && !IsStructPointer(spec) ==> spec.target.value == old(spec.target.value)
  {
    var record := new Options.Record.Default();
    record.Apply(options);
    var gathered := GatherInfo(spec, record.View());
    if gathered.Err? {
      return Err(gathered.error);
    }
    r := Rows(gathered.value);
  }
}
