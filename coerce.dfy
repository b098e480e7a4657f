/** processField (process.go): turning the text of one variable into the value
    of one location. A type that parses its own text (one of the four
    capabilities, looked up on the value and then on its address) takes the
    whole string; otherwise a pointer is allocated and followed once and the
    built-in kinds are parsed, comma lists and `k:v` pairs recursively. */
module Coerce {
  import opened Wrappers
  import opened GoStrings
  import opened Strconv
  import opened Reflection
  import opened Errors

  /** isTrue: the text is one of the tokens strconv.ParseBool reads as true. */
  function IsTrue(s: string): (r: bool)
    ensures r <==> s in TRUE_TOKENS
  {
    var b := ParseBool(s);
    b.Ok? && b.value
  }

  /** What a conversion leaves at the location, and the error it reports. */
  datatype Outcome = Outcome(value: Value, err: Option<Error>)

  /** A call of one capability's method: which capability, whether it is
      invoked through the location's address, the location's type and its
      value before the call. */
  datatype Call = Call(capability: Capability, viaPointer: bool, typ: Type, current: Value)

  /** The code this engine calls but does not contain: the methods of the
      four capabilities (each returns what the location holds after the call,
      and its error), strconv.ParseFloat (the bit pattern of the result) and
      time.ParseDuration (nanoseconds, or the error text). */
  datatype Foreign = Foreign(
    selfParse: (Call, string) -> Outcome,       // Decode, Set
    unmarshal: (Call, seq<byte>) -> Outcome,    // UnmarshalText, UnmarshalBinary
    parseFloat: (string, nat) -> Result<nat, NumError>,
    parseDuration: string -> Result<int, string>)

  /** The order in which the capabilities are tried. */
  const CAPABILITY_ORDER: seq<Capability> := [Decoder, Setter, TextUnmarshaler, BinaryUnmarshaler]

  function Rank(c: Capability): (r: nat)
    ensures r < |CAPABILITY_ORDER| && CAPABILITY_ORDER[r] == c
  {
    match c
    case Decoder => 0
    case Setter => 1
    case TextUnmarshaler => 2
    case BinaryUnmarshaler => 3
  }

  /** The capabilities from position `i` of the order on, as interfaceFrom
      tries each: on the value first, then on its address. */
  function FindFrom(t: Type, i: nat): (r: Option<(Capability, bool)>)
    requires i <= |CAPABILITY_ORDER|
    ensures r.Some? ==> i <= Rank(r.value.0) && r.value.0 in Capabilities(t)
    ensures r.Some? ==> (r.value.1 <==> r.value.0 !in MethodSet(t))
    ensures r.Some? ==> forall j :: i <= j < Rank(r.value.0) ==> CAPABILITY_ORDER[j] !in Capabilities(t)
    ensures r.None? ==> forall j :: i <= j < |CAPABILITY_ORDER| ==> CAPABILITY_ORDER[j] !in Capabilities(t)
    decreases |CAPABILITY_ORDER| - i
  {
    if i == |CAPABILITY_ORDER| then None
    else
      var c := CAPABILITY_ORDER[i];
      if c in MethodSet(t) then Some((c, false))
      else if c in PtrMethodSet(t) then Some((c, true))
      else FindFrom(t, i + 1)
  }

  /** The capability processField uses for a location of type `t`, and whether
      it is found only on the address: the earliest in the order that `t` or
      `*t` implements. */
  function FirstCapability(t: Type): (r: Option<(Capability, bool)>)
    ensures r.None? <==> Capabilities(t) == {}
    ensures r.Some? ==> r.value.0 in Capabilities(t) && (r.value.1 <==> r.value.0 !in MethodSet(t))
    ensures r.Some? ==> forall j :: 0 <= j < Rank(r.value.0) ==> CAPABILITY_ORDER[j] !in Capabilities(t)
  {
    var r := FindFrom(t, 0);
    if r.None? then
      NoneFound(t);
      r
    else
      r
  }

  lemma NoneFound(t: Type)
    requires forall j :: 0 <= j < |CAPABILITY_ORDER| ==> CAPABILITY_ORDER[j] !in Capabilities(t)
    ensures Capabilities(t) == {}
  {
    forall c ensures c !in Capabilities(t) {
      assert CAPABILITY_ORDER[Rank(c)] == c;
    }
  }

  /** Calls the capability's method with the text, or with its bytes. */
  function Invoke(f: Foreign, call: Call, s: string): Outcome {
    if call.capability == Decoder || call.capability == Setter then f.selfParse(call, s)
    else f.unmarshal(call, Utf8(s))
  }

  /** The one int64 type parsed as a duration. */
  predicate IsDuration(t: Type) {
    t.kind == Int(64) && t.pkgPath == "time" && t.name == "Duration"
  }

  /** []byte(s) as a slice value. */
  function Bytes(s: string): (r: seq<Value>)
    ensures |r| == |Utf8(s)| && forall i :: 0 <= i < |r| ==> r[i] == VUint(Utf8(s)[i])
  {
    var b := Utf8(s);
    seq(|b|, i requires 0 <= i < |b| => VUint(b[i]))
  }

  /** processField on a location of type `t` holding `cur`. Without a
      capability, a failed conversion leaves the location as it was, except
      that a nil pointer has been allocated before the attempt. */
  function Coerce(f: Foreign, t: Type, cur: Value, s: string): (r: Outcome)
    ensures FirstCapability(t).None? && r.err.Some? ==>
              r.value == if t.kind.Ptr? then VPtr(if cur.VPtr? then cur.target else Zero(t.kind.elem)) else cur
    decreases Size(t), 2
  {
    match FirstCapability(t)
    case Some((c, viaPointer)) => Invoke(f, Call(c, viaPointer, t, cur), s)
    case None =>
      if t.kind.Ptr? then
        var inner := if cur.VPtr? then cur.target else Zero(t.kind.elem);
        var o := CoerceKind(f, t.kind.elem, inner, s);
        Outcome(VPtr(o.value), o.err)
      else CoerceKind(f, t, cur, s)
  }

  /** The switch on the kind of the (dereferenced) type: a failed conversion
      leaves the value as it was. */
  function CoerceKind(f: Foreign, t: Type, cur: Value, s: string): (r: Outcome)
    ensures r.err.Some? ==> r.value == cur
    decreases Size(t), 1
  {
    match t.kind
    case Slice(e) => CoerceSlice(f, e, cur, s)
    case Map(k, e) => CoerceMap(f, k, e, cur, s)
    case Ptr(_) => Outcome(cur, None)
    case Array(_, _) => Outcome(cur, None)
    case Struct(_) => Outcome(cur, None)
    case Other(_) => Outcome(cur, None)
    case _ => CoerceScalar(f, t, cur, s)
  }

  /** The scalar cases of the switch: text, a duration, integers of each
      width, booleans and floats. */
  function CoerceScalar(f: Foreign, t: Type, cur: Value, s: string): (r: Outcome)
    requires t.kind.String? || t.kind.Int? || t.kind.Uint? || t.kind.Bool? || t.kind.Float?
    ensures r.err.Some? ==> r.value == cur
  {
    match t.kind
    case String => Outcome(VString(s), None)
    case Int(bits) =>
      if IsDuration(t) then
        var d := f.parseDuration(s);
        if d.Ok? then Outcome(VInt(d.value), None) else Outcome(cur, Some(External(d.error)))
      else
        var i := ParseInt(s, bits);
        if i.Ok? then Outcome(VInt(i.value), None) else Outcome(cur, Some(Num(i.error)))
    case Uint(bits) =>
      var n := ParseUint(s, bits);
      if n.Ok? then Outcome(VUint(n.value), None) else Outcome(cur, Some(Num(n.error)))
    case Bool =>
      var b := ParseBool(s);
      if b.Ok? then Outcome(VBool(b.value), None) else Outcome(cur, Some(Num(b.error)))
    case Float(bits) =>
      var x := f.parseFloat(s, bits);
      if x.Ok? then Outcome(VFloat(x.value), None) else Outcome(cur, Some(Num(x.error)))
  }

  /** A slice with elements of type `e`: the raw bytes for a byte slice, an
      empty slice for blank text, else one element per comma-separated piece. */
  function CoerceSlice(f: Foreign, e: Type, cur: Value, s: string): Outcome
    decreases Size(e), 4
  {
    if e.kind == Uint(8) then Outcome(VList(Bytes(s)), None)
    else if TrimSpace(s) == "" then Outcome(VList([]), None)
    else
      var items := CoerceList(f, e, Split(s, ','));
      if items.Ok? then Outcome(VList(items.value), None) else Outcome(cur, Some(items.error))
  }

  /** A map from `k` to `e`: an empty map for blank text, else one item per
      comma-separated piece. */
  function CoerceMap(f: Foreign, k: Type, e: Type, cur: Value, s: string): Outcome
    decreases Size(k) + Size(e), 5
  {
    if TrimSpace(s) == "" then Outcome(VMap(map[]), None)
    else
      var m := CoercePairs(f, k, e, Split(s, ','), map[]);
      if m.Ok? then Outcome(VMap(m.value), None) else Outcome(cur, Some(m.error))
  }

  /** One element per piece, each coerced from the zero value; the first
      failing element decides the error. */
  function CoerceList(f: Foreign, e: Type, pieces: seq<string>): Result<seq<Value>, Error>
    decreases Size(e), 3, |pieces|
  {
    if pieces == [] then Ok([])
    else
      var o := Coerce(f, e, Zero(e), pieces[0]);
      if o.err.Some? then Err(o.err.value)
      else
        var rest := CoerceList(f, e, pieces[1..]);
        if rest.Ok? then Ok([o.value] + rest.value) else Err(rest.error)
  }

  /** One `key:value` item: exactly two parts around a colon, the key coerced
      before the value. */
  function PairOutcome(f: Foreign, k: Type, e: Type, pair: string): Result<(Value, Value), Error>
    decreases Size(k) + Size(e), 3
  {
    var kv := Split(pair, ':');
    if |kv| != 2 then Err(InvalidMapItem(pair))
    else
      var ko := Coerce(f, k, Zero(k), kv[0]);
      if ko.err.Some? then Err(ko.err.value)
      else
        var vo := Coerce(f, e, Zero(e), kv[1]);
        if vo.err.Some? then Err(vo.err.value)
        else Ok((ko.value, vo.value))
  }

  /** The items stored left to right into `acc`; the first failing item
      decides the error. */
  function CoercePairs(f: Foreign, k: Type, e: Type, pairs: seq<string>, acc: map<Value, Value>): Result<map<Value, Value>, Error>
    decreases Size(k) + Size(e), 4, |pairs|
  {
    if pairs == [] then Ok(acc)
    else
      var p := PairOutcome(f, k, e, pairs[0]);
      if p.Err? then Err(p.error) else CoercePairs(f, k, e, pairs[1..], acc[p.value.0 := p.value.1])
  }

  // ---------------------------------------------------------------- in place

  function Prefixed(p: seq<Value>, r: Result<seq<Value>, Error>): Result<seq<Value>, Error> {
    match r
    case Ok(rest) => Ok(p + rest)
    case Err(err) => Err(err)
  }

  /** processField as it runs: the capability lookup, the pointer allocation,
      then the kind switch, filling a slice element by element and a map item
      by item and returning at the first error. */
  method ProcessValue(f: Foreign, t: Type, cur: Value, s: string) returns (r: Outcome)
    ensures r == Coerce(f, t, cur, s)
    decreases Size(t), 2
  {
    var found := FirstCapability(t);
    if found.Some? {
      var (c, viaPointer) := found.value;
      r := Invoke(f, Call(c, viaPointer, t, cur), s);
      return;
    }
    if t.kind.Ptr? {
      var inner := if cur.VPtr? then cur.target else Zero(t.kind.elem);
      var o := ProcessKind(f, t.kind.elem, inner, s);
      r := Outcome(VPtr(o.value), o.err);
    } else {
      r := ProcessKind(f, t, cur, s);
    }
  }

  method ProcessKind(f: Foreign, t: Type, cur: Value, s: string) returns (r: Outcome)
    ensures r == CoerceKind(f, t, cur, s)
    decreases Size(t), 1
  {
    if t.kind.Slice? {
      r := ProcessSlice(f, t.kind.elem, cur, s);
    } else if t.kind.Map? {
      r := ProcessMap(f, t.kind.key, t.kind.elem, cur, s);
    } else {
      r := CoerceKind(f, t, cur, s);
    }
  }

  /** One element of the list, coerced: it joins the finished prefix, or its
      error becomes the list's. */
  lemma ListStep(f: Foreign, e: Type, pieces: seq<string>, i: nat, done: seq<Value>)
    requires i < |pieces|
    ensures var o := Coerce(f, e, Zero(e), pieces[i]);
            Prefixed(done, CoerceList(f, e, pieces[i..])) ==
              if o.err.Some? then Err(o.err.value) else Prefixed(done + [o.value], CoerceList(f, e, pieces[i + 1..]))
  {
    assert pieces[i..][1..] == pieces[i + 1..];
    var rest := CoerceList(f, e, pieces[i + 1..]);
    var o := Coerce(f, e, Zero(e), pieces[i]);
    if rest.Ok? {
      assert done + ([o.value] + rest.value) == done + [o.value] + rest.value;
    }
  }

  /** reflect.MakeSlice, then each element set in place from its piece. */
  method ProcessSlice(f: Foreign, e: Type, cur: Value, s: string) returns (r: Outcome)
    ensures r == CoerceSlice(f, e, cur, s)
    decreases Size(e), 4
  {
    if e.kind == Uint(8) {
      return Outcome(VList(Bytes(s)), None);
    }
    if TrimSpace(s) == "" {
      return Outcome(VList([]), None);
    }
    var items := FillList(f, e, Split(s, ','));
    if items.Err? {
      return Outcome(cur, Some(items.error));
    }
    return Outcome(VList(items.value), None);
  }

  /** The loop over the pieces, each coerced into its element of a slice of
      zero values; the first error returns at once. */
  method FillList(f: Foreign, e: Type, pieces: seq<string>) returns (r: Result<seq<Value>, Error>)
    ensures r == CoerceList(f, e, pieces)
    decreases Size(e), 3
  {
    var items := seq(|pieces|, _ => Zero(e));
    var i := 0;
    assert pieces[i..] == pieces;
    assert CoerceList(f, e, pieces) == Prefixed(items[..i], CoerceList(f, e, pieces[i..])) by {
      var rest := CoerceList(f, e, pieces);
      if rest.Ok? { assert items[..i] + rest.value == rest.value; }
    }
    while i < |pieces|
      invariant 0 <= i <= |pieces| && |items| == |pieces|
      invariant forall j :: i <= j < |items| ==> items[j] == Zero(e)
      invariant CoerceList(f, e, pieces) == Prefixed(items[..i], CoerceList(f, e, pieces[i..]))
    {
      var done := items[..i];
      ListStep(f, e, pieces, i, done);
      var o := ProcessValue(f, e, items[i], pieces[i]);
      if o.err.Some? {
        return Err(o.err.value);
      }
      items := items[i := o.value];
      assert items[..i + 1] == done + [o.value];
      i := i + 1;
    }
    assert pieces[i..] == [] && items[..i] + [] == items;
    return Ok(items);
  }

  /** reflect.MakeMap, then each item stored with SetMapIndex. */
  method ProcessMap(f: Foreign, k: Type, e: Type, cur: Value, s: string) returns (r: Outcome)
    ensures r == CoerceMap(f, k, e, cur, s)
    decreases Size(k) + Size(e), 5
  {
    if TrimSpace(s) == "" {
      return Outcome(VMap(map[]), None);
    }
    var m := FillMap(f, k, e, Split(s, ','));
    if m.Err? {
      return Outcome(cur, Some(m.error));
    }
    return Outcome(VMap(m.value), None);
  }

  /** The loop over the items; the first error returns at once. */
  method FillMap(f: Foreign, k: Type, e: Type, pairs: seq<string>) returns (r: Result<map<Value, Value>, Error>)
    ensures r == CoercePairs(f, k, e, pairs, map[])
    decreases Size(k) + Size(e), 4
  {
    var m := map[];
    var i := 0;
    assert pairs[i..] == pairs;
    while i < |pairs|
      invariant 0 <= i <= |pairs|
      invariant CoercePairs(f, k, e, pairs, map[]) == CoercePairs(f, k, e, pairs[i..], m)
    {
      assert pairs[i..][1..] == pairs[i + 1..];
      var p := ProcessPair(f, k, e, pairs[i]);
      if p.Err? {
        return Err(p.error);
      }
      m := m[p.value.0 := p.value.1];
      i := i + 1;
    }
    assert pairs[i..] == [];
    return Ok(m);
  }

  /** One item: split on the colon, then the key and the value each coerced
      into a fresh zero value. */
  method ProcessPair(f: Foreign, k: Type, e: Type, pair: string) returns (r: Result<(Value, Value), Error>)
    ensures r == PairOutcome(f, k, e, pair)
    decreases Size(k) + Size(e), 3
  {
    var kv := Split(pair, ':');
    if |kv| != 2 {
      return Err(InvalidMapItem(pair));
    }
    var ko := ProcessValue(f, k, Zero(k), kv[0]);
    if ko.err.Some? {
      return Err(ko.err.value);
    }
    var vo := ProcessValue(f, e, Zero(e), kv[1]);
    if vo.err.Some? {
      return Err(vo.err.value);
    }
    return Ok((ko.value, vo.value));
  }

  /** processField on the location at `path` inside the object `target`
      points to: the location receives what the conversion leaves there, and
      nothing else in the object changes. */
  method ProcessField(f: Foreign, target: Target, path: seq<Step>, t: Type, s: string) returns (err: Option<Error>)
    modifies target
    ensures var o := Coerce(f, t, GetAt(old(target.value), path), s);
            target.value == SetAt(old(target.value), path, o.value) && err == o.err
  {
    var o := ProcessValue(f, t, GetAt(target.value, path), s);
    target.value := SetAt(target.value, path, o.value);
    err := o.err;
  }

  // ---------------------------------------------------------------- properties

  /** A type with a capability hands the whole text to the first one found,
      whatever its kind: no pointer is allocated and nothing is parsed. */
  lemma CapabilityTakesText(f: Foreign, t: Type, cur: Value, s: string, c: Capability, viaPointer: bool)
    requires c in Capabilities(t) && (viaPointer <==> c !in MethodSet(t))
    requires forall j :: 0 <= j < Rank(c) ==> CAPABILITY_ORDER[j] !in Capabilities(t)
    ensures Coerce(f, t, cur, s) == Invoke(f, Call(c, viaPointer, t, cur), s)
  {
    var r := FirstCapability(t);
    assert r.Some?;
    if Rank(r.value.0) < Rank(c) {
    } else if Rank(c) < Rank(r.value.0) {
    } else {
      assert CAPABILITY_ORDER[Rank(c)] == c && CAPABILITY_ORDER[Rank(r.value.0)] == r.value.0;
    }
  }

  /** A capability on the value is preferred to the same capability on the
      address: the method is invoked through the pointer only when the value's
      own method set lacks it. */
  lemma ValueBeforeAddress(t: Type, c: Capability)
    requires c in MethodSet(t) && c in PtrMethodSet(t)
    requires FirstCapability(t).Some? && FirstCapability(t).value.0 == c
    ensures !FirstCapability(t).value.1
  {
  }

  /** A nil pointer without capabilities is allocated before its pointee is
      parsed, and stays allocated (to a zero pointee) when parsing fails. */
  lemma NilPointerAllocated(f: Foreign, t: Type, s: string)
    requires t.kind.Ptr? && Capabilities(t) == {}
    ensures var o := Coerce(f, t, VNil, s);
            var inner := CoerceKind(f, t.kind.elem, Zero(t.kind.elem), s);
            o.value == VPtr(inner.value) && o.err == inner.err
    ensures var o := Coerce(f, t, VNil, s);
            var e := t.kind.elem;
            (e.kind.Int? && !IsDuration(e) && ParseInt(s, e.kind.bits).Err?) ==> o == Outcome(VPtr(VInt(0)), Some(Num(ParseInt(s, e.kind.bits).error)))
  {
  }

  /** Only one pointer is followed: under a pointer to a pointer the inner
      pointer is not touched. */
  lemma PointerToPointerUntouched(f: Foreign, t: Type, cur: Value, s: string)
    requires t.kind.Ptr? && t.kind.elem.kind.Ptr? && Capabilities(t) == {}
    ensures Coerce(f, t, cur, s) == Outcome(VPtr(if cur.VPtr? then cur.target else VNil), None)
  {
  }

  /** A kind outside the switch (struct, array, chan, func, ...) without
      capabilities is left as it is, and the conversion succeeds. */
  lemma OtherKindsUntouched(f: Foreign, t: Type, cur: Value, s: string)
    requires t.kind.Struct? || t.kind.Array? || t.kind.Other?
    requires Capabilities(t) == {}
    ensures Coerce(f, t, cur, s) == Outcome(cur, None)
  {
  }

  /** A signed integer field holds exactly the values of its width: each one
      is read back from its decimal text, and every value outside it is a
      range error that leaves the field as it was. */
  lemma IntegerFieldRoundTrip(f: Foreign, t: Type, cur: Value, i: int)
    requires t.kind.Int? && t.kind.bits in {8, 16, 32, 64} && !IsDuration(t) && Capabilities(t) == {}
    ensures var bits := t.kind.bits;
            -(Pow2(bits - 1) as int) <= i < Pow2(bits - 1) ==> Coerce(f, t, cur, FormatInt(i)) == Outcome(VInt(i), None)
    ensures var bits := t.kind.bits;
            !(-(Pow2(bits - 1) as int) <= i < Pow2(bits - 1)) ==>
              Coerce(f, t, cur, FormatInt(i)) == Outcome(cur, Some(Num(NumError("ParseInt", FormatInt(i), OutOfRange))))
  {
    var s := FormatInt(i);
    Direct(f, t, cur, s);
    ParseIntFormatInt(i, t.kind.bits);
  }

  /** Without a capability and outside a pointer, processField is the kind switch. */
  lemma Direct(f: Foreign, t: Type, cur: Value, s: string)
    requires Capabilities(t) == {} && !t.kind.Ptr?
    ensures Coerce(f, t, cur, s) == CoerceKind(f, t, cur, s)
  {
  }

  lemma SliceKind(f: Foreign, t: Type, cur: Value, s: string)
    requires t.kind.Slice?
    ensures CoerceKind(f, t, cur, s) == CoerceSlice(f, t.kind.elem, cur, s)
  {
  }

  lemma MapKind(f: Foreign, t: Type, cur: Value, s: string)
    requires t.kind.Map?
    ensures CoerceKind(f, t, cur, s) == CoerceMap(f, t.kind.key, t.kind.elem, cur, s)
  {
  }

  /** time.Duration is the one int64 parsed by time.ParseDuration rather than
      strconv: its result is stored, and its error reported, as they come. */
  lemma DurationField(f: Foreign, t: Type, cur: Value, s: string)
    requires IsDuration(t) && Capabilities(t) == {}
    ensures f.parseDuration(s).Ok? ==> Coerce(f, t, cur, s) == Outcome(VInt(f.parseDuration(s).value), None)
    ensures f.parseDuration(s).Err? ==> Coerce(f, t, cur, s) == Outcome(cur, Some(External(f.parseDuration(s).error)))
  {
    Direct(f, t, cur, s);
  }

  /** The unsigned counterpart. */
  lemma UnsignedFieldRoundTrip(f: Foreign, t: Type, cur: Value, n: nat)
    requires t.kind.Uint? && t.kind.bits in {8, 16, 32, 64} && Capabilities(t) == {}
    ensures n < Pow2(t.kind.bits) ==> Coerce(f, t, cur, Digits(n, 10)) == Outcome(VUint(n), None)
    ensures n >= Pow2(t.kind.bits) ==>
              Coerce(f, t, cur, Digits(n, 10)) == Outcome(cur, Some(Num(NumError("ParseUint", Digits(n, 10), OutOfRange))))
  {
    var s := Digits(n, 10);
    Direct(f, t, cur, s);
    if n < Pow2(t.kind.bits) {
      ParseUintDecimal(n, t.kind.bits);
    } else {
      ParseUintDecimalOutOfRange(n, t.kind.bits);
    }
  }

  /** A bool field accepts exactly ParseBool's tokens. */
  lemma BoolField(f: Foreign, t: Type, cur: Value, s: string)
    requires t.kind == Bool && Capabilities(t) == {}
    ensures Coerce(f, t, cur, s).err.None? <==> s in TRUE_TOKENS + FALSE_TOKENS
    ensures Coerce(f, t, cur, s).err.None? ==> Coerce(f, t, cur, s).value == VBool(IsTrue(s))
  {
  }

  /** A slice of bytes takes the raw bytes, commas included; any other slice
      is empty (and not nil) for blank text. */
  lemma SliceShapes(f: Foreign, t: Type, cur: Value, s: string)
    requires t.kind.Slice? && Capabilities(t) == {}
    ensures t.kind.elem.kind == Uint(8) ==> Coerce(f, t, cur, s) == Outcome(VList(Bytes(s)), None)
    ensures t.kind.elem.kind != Uint(8) && IsBlank(s) ==> Coerce(f, t, cur, s) == Outcome(VList([]), None)
  {
    Direct(f, t, cur, s);
    SliceKind(f, t, cur, s);
    var e := t.kind.elem;
    if e.kind != Uint(8) && IsBlank(s) {
      assert TrimSpace(s) == "";
    }
  }

  /** The element list succeeds exactly when every piece does, and then holds
      one coerced value per piece, in order. */
  lemma {:induction false} CoerceListOk(f: Foreign, e: Type, pieces: seq<string>)
    ensures CoerceList(f, e, pieces).Ok? <==> forall i :: 0 <= i < |pieces| ==> Coerce(f, e, Zero(e), pieces[i]).err.None?
    ensures CoerceList(f, e, pieces).Ok? ==>
              var items := CoerceList(f, e, pieces).value;
              |items| == |pieces| && forall i :: 0 <= i < |pieces| ==> items[i] == Coerce(f, e, Zero(e), pieces[i]).value
    decreases |pieces|
  {
    if pieces != [] {
      CoerceListOk(f, e, pieces[1..]);
      assert forall i :: 1 <= i < |pieces| ==> pieces[1..][i - 1] == pieces[i];
    }
  }

  /** The first failing element aborts the slice with its own error. */
  lemma {:induction false} CoerceListFirstError(f: Foreign, e: Type, pieces: seq<string>, j: nat)
    requires j < |pieces| && Coerce(f, e, Zero(e), pieces[j]).err.Some?
    requires forall i :: 0 <= i < j ==> Coerce(f, e, Zero(e), pieces[i]).err.None?
    ensures CoerceList(f, e, pieces) == Err(Coerce(f, e, Zero(e), pieces[j]).err.value)
    decreases j
  {
    if j > 0 {
      assert forall i :: 0 <= i < j - 1 ==> pieces[1..][i] == pieces[i + 1];
      CoerceListFirstError(f, e, pieces[1..], j - 1);
    }
  }

  /** A slice read from non-blank text has one element per comma-separated
      piece (commas + 1), each the piece coerced on its own. */
  lemma SliceElements(f: Foreign, t: Type, cur: Value, s: string)
    requires t.kind.Slice? && t.kind.elem.kind != Uint(8) && !IsBlank(s) && Capabilities(t) == {}
    requires Coerce(f, t, cur, s).err.None?
    ensures var e := t.kind.elem;
            var o := Coerce(f, t, cur, s);
            o.value.VList? && |o.value.items| == Count(s, ',') + 1 &&
            forall i :: 0 <= i < |o.value.items| ==> o.value.items[i] == Coerce(f, e, Zero(e), Split(s, ',')[i]).value
  {
    Direct(f, t, cur, s);
    SliceKind(f, t, cur, s);
    CoerceListOk(f, t.kind.elem, Split(s, ','));
  }

  /** A map item is malformed exactly when it does not hold one colon; a
      well-formed item is its key and value coerced from the zero values. */
  lemma MapItemShape(f: Foreign, k: Type, e: Type, pair: string)
    ensures Count(pair, ':') != 1 ==> PairOutcome(f, k, e, pair) == Err(InvalidMapItem(pair))
    ensures Count(pair, ':') == 1 ==>
              var kv := Split(pair, ':');
              var ko := Coerce(f, k, Zero(k), kv[0]);
              var vo := Coerce(f, e, Zero(e), kv[1]);
              (PairOutcome(f, k, e, pair).Ok? <==> ko.err.None? && vo.err.None?) &&
              (PairOutcome(f, k, e, pair).Ok? ==> PairOutcome(f, k, e, pair).value == (ko.value, vo.value))
  {
  }

  /** The items succeed exactly when every item does. */
  lemma {:induction false} CoercePairsOk(f: Foreign, k: Type, e: Type, pairs: seq<string>, acc: map<Value, Value>)
    ensures CoercePairs(f, k, e, pairs, acc).Ok? <==> forall i :: 0 <= i < |pairs| ==> PairOutcome(f, k, e, pairs[i]).Ok?
    decreases |pairs|
  {
    if pairs != [] {
      var p := PairOutcome(f, k, e, pairs[0]);
      assert forall i :: 1 <= i < |pairs| ==> pairs[1..][i - 1] == pairs[i];
      if p.Ok? {
        CoercePairsOk(f, k, e, pairs[1..], acc[p.value.0 := p.value.1]);
      }
    }
  }

  /** The first failing item aborts the map with its own error. */
  lemma {:induction false} CoercePairsFirstError(f: Foreign, k: Type, e: Type, pairs: seq<string>, acc: map<Value, Value>, j: nat)
    requires j < |pairs| && PairOutcome(f, k, e, pairs[j]).Err?
    requires forall i :: 0 <= i < j ==> PairOutcome(f, k, e, pairs[i]).Ok?
    ensures CoercePairs(f, k, e, pairs, acc) == Err(PairOutcome(f, k, e, pairs[j]).error)
    decreases j
  {
    if j > 0 {
      var p := PairOutcome(f, k, e, pairs[0]);
      assert forall i :: 0 <= i < j - 1 ==> pairs[1..][i] == pairs[i + 1];
      CoercePairsFirstError(f, k, e, pairs[1..], acc[p.value.0 := p.value.1], j - 1);
    }
  }

  /** SetMapIndex of each key/value in turn: a later store to the same key
      replaces the earlier one. */
  function StoreAll(acc: map<Value, Value>, kvs: seq<(Value, Value)>): map<Value, Value>
    decreases |kvs|
  {
    if kvs == [] then acc else StoreAll(acc[kvs[0].0 := kvs[0].1], kvs[1..])
  }

  /** The stores leave exactly the keys already present and those stored. */
  lemma {:induction false} StoreAllKeys(acc: map<Value, Value>, kvs: seq<(Value, Value)>)
    ensures StoreAll(acc, kvs).Keys == acc.Keys + set i | 0 <= i < |kvs| :: kvs[i].0
    decreases |kvs|
  {
    if kvs != [] {
      StoreAllKeys(acc[kvs[0].0 := kvs[0].1], kvs[1..]);
      var rest := set i | 0 <= i < |kvs| - 1 :: kvs[1..][i].0;
      var all := set i | 0 <= i < |kvs| :: kvs[i].0;
      assert all == {kvs[0].0} + rest by {
        forall x | x in all ensures x in {kvs[0].0} + rest {
          var i :| 0 <= i < |kvs| && kvs[i].0 == x;
          if i > 0 { assert kvs[1..][i - 1].0 == x; }
        }
      }
    }
  }

  /** The last store to a key decides its value. */
  lemma {:induction false} StoreAllLastWins(acc: map<Value, Value>, kvs: seq<(Value, Value)>, i: nat)
    requires i < |kvs|
    requires forall j :: i < j < |kvs| ==> kvs[j].0 != kvs[i].0
    ensures kvs[i].0 in StoreAll(acc, kvs) && StoreAll(acc, kvs)[kvs[i].0] == kvs[i].1
    decreases |kvs|
  {
    if i == 0 {
      StoreAllUntouched(acc[kvs[0].0 := kvs[0].1], kvs[1..], kvs[0].0);
    } else {
      StoreAllLastWins(acc[kvs[0].0 := kvs[0].1], kvs[1..], i - 1);
    }
  }

  /** A key never stored keeps its value. */
  lemma {:induction false} StoreAllUntouched(acc: map<Value, Value>, kvs: seq<(Value, Value)>, key: Value)
    requires key in acc
    requires forall j :: 0 <= j < |kvs| ==> kvs[j].0 != key
    ensures key in StoreAll(acc, kvs) && StoreAll(acc, kvs)[key] == acc[key]
    decreases |kvs|
  {
    if kvs != [] {
      StoreAllUntouched(acc[kvs[0].0 := kvs[0].1], kvs[1..], key);
    }
  }

  /** The key/value of each item, when every item is well formed. */
  function Items(f: Foreign, k: Type, e: Type, pairs: seq<string>): (r: seq<(Value, Value)>)
    requires forall i :: 0 <= i < |pairs| ==> PairOutcome(f, k, e, pairs[i]).Ok?
    ensures |r| == |pairs| && forall i :: 0 <= i < |pairs| ==> r[i] == PairOutcome(f, k, e, pairs[i]).value
  {
    seq(|pairs|, i requires 0 <= i < |pairs| => PairOutcome(f, k, e, pairs[i]).value)
  }

  /** A map read without error is its items stored left to right, so the keys
      are those of the items and, of equal keys, the last item wins. */
  lemma {:induction false} CoercePairsStores(f: Foreign, k: Type, e: Type, pairs: seq<string>, acc: map<Value, Value>)
    requires CoercePairs(f, k, e, pairs, acc).Ok?
    ensures forall i :: 0 <= i < |pairs| ==> PairOutcome(f, k, e, pairs[i]).Ok?
    ensures CoercePairs(f, k, e, pairs, acc).value == StoreAll(acc, Items(f, k, e, pairs))
    decreases |pairs|
  {
    CoercePairsOk(f, k, e, pairs, acc);
    if pairs != [] {
      var p := PairOutcome(f, k, e, pairs[0]).value;
      CoercePairsStores(f, k, e, pairs[1..], acc[p.0 := p.1]);
      assert Items(f, k, e, pairs)[1..] == Items(f, k, e, pairs[1..]);
    }
  }

  /** Over the text of a map field: blank text is an empty map, and otherwise
      the items are the comma-separated pieces read from an empty map. */
  lemma MapField(f: Foreign, t: Type, cur: Value, s: string)
    requires t.kind.Map? && Capabilities(t) == {}
    ensures IsBlank(s) ==> Coerce(f, t, cur, s) == Outcome(VMap(map[]), None)
    ensures !IsBlank(s) ==>
              var r := CoercePairs(f, t.kind.key, t.kind.elem, Split(s, ','), map[]);
              Coerce(f, t, cur, s) == if r.Ok? then Outcome(VMap(r.value), None) else Outcome(cur, Some(r.error))
  {
    Direct(f, t, cur, s);
    MapKind(f, t, cur, s);
  }
}
