/** What the configuration engine asks of Go's `reflect` package, as a closed
    description of types and values. A struct value is a tree; a location in
    it (a struct field, possibly behind pointers) is a path of steps. */
module Reflection {
  import opened GoStrings
  import Strconv

  /** The four interfaces by which a type parses its own text. */
  datatype Capability = Decoder | Setter | TextUnmarshaler | BinaryUnmarshaler

  /** A Go type: its name, the import path of its package and the name that
      package's `package` clause declares (all empty for an unnamed type),
      its kind, and which capabilities the methods declared on the type itself
      (`methods`) and on its pointer (`ptrMethods`) provide. */
  datatype Type = Type(name: string, pkgPath: string, pkgName: string, kind: Kind, methods: set<Capability>, ptrMethods: set<Capability>)

  datatype Kind =
    | String
    | Int(bits: nat)
    | Uint(bits: nat)
    | Bool
    | Float(bits: nat)
    | Ptr(elem: Type)
    | Slice(elem: Type)
    | Array(elem: Type, len: nat)
    | Map(key: Type, elem: Type)
    | Struct(fields: seq<Field>)
    | Other(text: string)  // chan, func, interface, complex, uintptr: `text` is how reflect prints it

  /** reflect.StructField: the declared name, type, tags (already parsed into a
      map) and whether the field is embedded. */
  datatype Field = Field(name: string, typ: Type, tags: map<string, string>, anonymous: bool)

  /** A value of some type. VNil is a nil pointer, slice, map or interface. */
  datatype Value =
    | VNil
    | VString(s: string)
    | VInt(i: int)
    | VUint(n: nat)
    | VBool(b: bool)
    | VFloat(bits: nat)  // the IEEE-754 bit pattern
    | VPtr(target: Value)
    | VList(items: seq<Value>)  // a non-nil slice, or an array
    | VMap(entries: map<Value, Value>)  // a non-nil map
    | VStruct(fields: seq<Value>)

  /** A size for types that every component type is smaller than. */
  function Size(t: Type): (r: nat)
    ensures (t.kind.Ptr? || t.kind.Slice? || t.kind.Array?) ==> r > Size(t.kind.elem)
    ensures t.kind.Map? ==> r > Size(t.kind.key) + Size(t.kind.elem)
    ensures t.kind.Struct? ==> r > FieldsSize(t.kind.fields)
    decreases t
  {
    1 + match t.kind
        case Ptr(e) => Size(e)
        case Slice(e) => Size(e)
        case Array(e, _) => Size(e)
        case Map(k, e) => Size(k) + Size(e)
        case Struct(fs) => FieldsSize(fs)
        case _ => 0
  }

  function FieldsSize(fs: seq<Field>): nat
    decreases fs
  {
    if fs == [] then 0 else 1 + Size(fs[0].typ) + FieldsSize(fs[1..])
  }

  lemma {:induction false} FieldSmaller(fs: seq<Field>, i: nat)
    requires i < |fs|
    ensures Size(fs[i].typ) < FieldsSize(fs)
  {
    if i > 0 { FieldSmaller(fs[1..], i - 1); }
  }

  lemma StructFieldSmaller(st: Type, i: nat)
    requires st.kind.Struct? && i < |st.kind.fields|
    ensures Size(st.kind.fields[i].typ) < Size(st)
  {
    FieldSmaller(st.kind.fields, i);
  }

  /** The method set of `t`. An unnamed pointer to a non-pointer type carries
      the methods of its element type and of that type's pointer; other
      pointer types have none. */
  function MethodSet(t: Type): set<Capability> {
    match t.kind
    case Ptr(e) => if t.name == "" && !e.kind.Ptr? then e.methods + e.ptrMethods else {}
    case _ => t.methods
  }

  /** The method set of `*t`. */
  function PtrMethodSet(t: Type): set<Capability> {
    if t.kind.Ptr? then {} else t.methods + t.ptrMethods
  }

  /** The capabilities `t` or `*t` implements. */
  function Capabilities(t: Type): set<Capability> {
    MethodSet(t) + PtrMethodSet(t)
  }

  /** The zero value of a type, which reflect.New allocates. */
  function Zero(t: Type): Value
    decreases Size(t), 1
  {
    match t.kind
    case String => VString("")
    case Int(_) => VInt(0)
    case Uint(_) => VUint(0)
    case Bool => VBool(false)
    case Float(_) => VFloat(0)
    case Array(e, n) => var z := Zero(e); VList(seq(n, _ => z))
    case Struct(fs) => VStruct(ZeroFields(fs))
    case _ => VNil
  }

  function ZeroFields(fs: seq<Field>): (r: seq<Value>)
    ensures |r| == |fs|
    decreases FieldsSize(fs), 0
  {
    if fs == [] then [] else [Zero(fs[0].typ)] + ZeroFields(fs[1..])
  }

  /** reflect.Type.String(): a predeclared type by its name, a defined type by
      its package's declared name and its own, an unnamed type by its
      constructor. Struct tags are not printed by this model. */
  function TypeString(t: Type): (r: string)
    ensures t.name != "" && t.pkgPath == "" ==> r == t.name
    ensures t.name != "" && t.pkgPath != "" ==> r == t.pkgName + "." + t.name
    ensures t.name == "" && t.kind.Ptr? ==> |r| >= 1 && r[0] == '*'
    ensures t.name == "" && t.kind.Slice? ==> |r| >= 2 && r[..2] == "[]"
    ensures t.name == "" && t.kind.Map? ==> |r| >= 4 && r[..4] == "map["
    decreases Size(t), 1
  {
    if t.name != "" then
      if t.pkgPath == "" then t.name else t.pkgName + "." + t.name
    else match t.kind
      case Ptr(e) => "*" + TypeString(e)
      case Slice(e) => "[]" + TypeString(e)
      case Array(e, n) => "[" + Strconv.FormatInt(n) + "]" + TypeString(e)
      case Map(k, e) => "map[" + TypeString(k) + "]" + TypeString(e)
      case Struct(fs) => if fs == [] then "struct {}" else "struct { " + FieldsString(fs) + " }"
      case Other(text) => text
      case _ => t.name
  }

  function FieldsString(fs: seq<Field>): string
    requires fs != []
    decreases FieldsSize(fs), 0
  {
    var f := if fs[0].anonymous then TypeString(fs[0].typ) else fs[0].name + " " + TypeString(fs[0].typ);
    if |fs| == 1 then f else f + "; " + FieldsString(fs[1..])
  }

  // ---------------------------------------------------------------- locations

  /** One step of a path: into a struct field, or through a non-nil pointer. */
  datatype Step = FieldAt(index: nat) | Deref

  /** The path exists in `v`. */
  predicate HasPath(v: Value, p: seq<Step>)
    decreases |p|
  {
    p == [] ||
    match p[0]
    case FieldAt(i) => v.VStruct? && i < |v.fields| && HasPath(v.fields[i], p[1..])
    case Deref => v.VPtr? && HasPath(v.target, p[1..])
  }

  /** The value at a path (VNil where the path does not exist). */
  function GetAt(v: Value, p: seq<Step>): Value
    decreases |p|
  {
    if p == [] then v
    else match p[0]
      case FieldAt(i) => if v.VStruct? && i < |v.fields| then GetAt(v.fields[i], p[1..]) else VNil
      case Deref => if v.VPtr? then GetAt(v.target, p[1..]) else VNil
  }

  /** `v` with the value at path `p` replaced by `x` (unchanged where the path does not exist). */
  function SetAt(v: Value, p: seq<Step>, x: Value): Value
    decreases |p|
  {
    if p == [] then x
    else match p[0]
      case FieldAt(i) =>
        if v.VStruct? && i < |v.fields| then VStruct(v.fields[i := SetAt(v.fields[i], p[1..], x)]) else v
      case Deref => if v.VPtr? then VPtr(SetAt(v.target, p[1..], x)) else v
  }

  /** Neither path leads through the location of the other. */
  predicate Independent(p: seq<Step>, q: seq<Step>) {
    exists k :: 0 <= k < |p| && k < |q| && p[..k] == q[..k] && p[k] != q[k]
  }

  lemma {:induction false} GetSetSame(v: Value, p: seq<Step>, x: Value)
    requires HasPath(v, p)
    ensures GetAt(SetAt(v, p, x), p) == x
    decreases |p|
  {
    if p != [] {
      match p[0]
      case FieldAt(i) => GetSetSame(v.fields[i], p[1..], x);
      case Deref => GetSetSame(v.target, p[1..], x);
    }
  }

  /** Writing one location leaves every independent location as it was. */
  lemma {:induction false} GetSetIndependent(v: Value, p: seq<Step>, q: seq<Step>, x: Value)
    requires Independent(p, q)
    ensures GetAt(SetAt(v, p, x), q) == GetAt(v, q)
    decreases |p|
  {
    var k :| 0 <= k < |p| && k < |q| && p[..k] == q[..k] && p[k] != q[k];
    if k == 0 {
      match p[0]
      case FieldAt(i) =>
        if v.VStruct? && i < |v.fields| {
          match q[0]
          case FieldAt(j) =>
          case Deref =>
        }
      case Deref =>
    } else {
      assert p[0] == q[0] by { assert p[..k][0] == q[..k][0]; }
      assert p[1..][..k - 1] == q[1..][..k - 1];
      assert Independent(p[1..], q[1..]) by { assert p[1..][k - 1] != q[1..][k - 1]; }
      match p[0]
      case FieldAt(i) =>
        if v.VStruct? && i < |v.fields| { GetSetIndependent(v.fields[i], p[1..], q[1..], x); }
      case Deref =>
        if v.VPtr? { GetSetIndependent(v.target, p[1..], q[1..], x); }
    }
  }

  lemma {:induction false} GetAtAppend(v: Value, p: seq<Step>, q: seq<Step>)
    ensures GetAt(v, p + q) == GetAt(GetAt(v, p), q)
    decreases |p|
  {
    if p == [] {
      assert p + q == q;
    } else {
      assert (p + q)[1..] == p[1..] + q;
      match p[0]
      case FieldAt(i) =>
        if v.VStruct? && i < |v.fields| { GetAtAppend(v.fields[i], p[1..], q); }
        else if q != [] { assert GetAt(VNil, q) == VNil; }
      case Deref =>
        if v.VPtr? { GetAtAppend(v.target, p[1..], q); }
        else if q != [] { assert GetAt(VNil, q) == VNil; }
    }
  }

  // ---------------------------------------------------------------- the spec argument

  /** The object a `spec` pointer points to: its type and its current value,
      which the engine updates in place. */
  class Target {
    const typ: Type
    var value: Value

    constructor (typ: Type, value: Value)
      ensures this.typ == typ && this.value == value
    {
      this.typ := typ;
      this.value := value;
    }
  }

  /** The `spec any` argument: a non-nil pointer to an object, a nil pointer
      to a value of type `elem`, or any other value of the given type. */
  datatype Spec = PointerTo(target: Target) | NilPointer(elem: Type) | NotPointer(typ: Type)

  /** The only accepted specification: a non-nil pointer to a struct. */
  predicate IsStructPointer(spec: Spec) {
    spec.PointerTo? && spec.target.typ.kind.Struct?
  }
}
