/** The errors the engine returns (error.go, and the fmt.Errorf calls of
    process.go and variable.go), with the text each one prints. */
module Errors {
  import opened Strconv

  const INVALID_SPECIFICATION_MESSAGE := "specification must be a struct pointer"

  datatype Error =
    | InvalidSpecification  // ErrInvalidSpecification
    | RequiredMissing(key: string)
    | UnknownVariable(name: string)
    | InvalidMapItem(pair: string)
    | EmptyFilePath(suffix: string)
    | ReadFailure(message: string)  // as the operating system reports it
    | Num(numError: NumError)  // from strconv
    | External(message: string)  // from code outside the engine
    | Parse(parseError: ParseError)

  /** A value that could not be converted, with where it was going. */
  datatype ParseError = ParseError(keyName: string, fieldName: string, typeName: string, value: string, err: Error)

  function Message(e: Error): string {
    match e
    case InvalidSpecification => INVALID_SPECIFICATION_MESSAGE
    case RequiredMissing(k) => "required key " + k + " missing value"
    case UnknownVariable(n) => "unknown environment variable " + n
    case InvalidMapItem(p) => "invalid map item: " + Quote(p)
    case EmptyFilePath(s) => "environment vairable " + s + " is empty"
    case ReadFailure(m) => m
    case Num(n) => NumErrorMessage(n)
    case External(m) => m
    case Parse(p) => ParseErrorMessage(p)
  }

  const PARSE_ERROR_LEAD := "envconfig.Process: assigning "

  /** ParseError.Error(): key, field, then the raw value in single quotes, then
      the type name, then the cause. */
  function ParseErrorMessage(p: ParseError): (r: string)
    ensures |r| > |PARSE_ERROR_LEAD| && r[..|PARSE_ERROR_LEAD|] == PARSE_ERROR_LEAD
  {
    PARSE_ERROR_LEAD + p.keyName + " to " + p.fieldName + ": converting '" + p.value +
    "' to type " + p.typeName + ". details: " + Message(p.err)
  }

  /** Where each part of a ParseError stands in its message: the raw value
      follows the field name verbatim (not escaped) between single quotes, and
      the type name only comes after it. */
  lemma ParseErrorLayout(p: ParseError)
    ensures var m := ParseErrorMessage(p);
            var v := |PARSE_ERROR_LEAD| + |p.keyName| + 4 + |p.fieldName| + 14;
            var t := v + |p.value| + 10;
            && m[..|PARSE_ERROR_LEAD|] == PARSE_ERROR_LEAD
            && m[|PARSE_ERROR_LEAD|..|PARSE_ERROR_LEAD| + |p.keyName|] == p.keyName
            && m[v - 1] == '\'' && m[v..v + |p.value|] == p.value && m[v + |p.value|] == '\''
            && m[t..t + |p.typeName|] == p.typeName
            && m[|m| - |Message(p.err)|..] == Message(p.err)
  {
    MessageLayout(PARSE_ERROR_LEAD, p.keyName, p.fieldName, p.value, p.typeName, Message(p.err));
  }

  lemma MessageLayout(lead: string, key: string, field: string, value: string, typ: string, cause: string)
    ensures var m := lead + key + " to " + field + ": converting '" + value + "' to type " + typ + ". details: " + cause;
            var v := |lead| + |key| + 4 + |field| + 14;
            var t := v + |value| + 10;
            && m[..|lead|] == lead
            && m[|lead|..|lead| + |key|] == key
            && m[v - 1] == '\'' && m[v..v + |value|] == value && m[v + |value|] == '\''
            && m[t..t + |typ|] == typ
            && m[|m| - |cause|..] == cause
  {
    var a := lead + key + " to " + field + ": converting '";
    var b := a + value + "' to type ";
    var m := b + typ + ". details: " + cause;
    assert |a| == |lead| + |key| + 4 + |field| + 14;
    assert m[..|b|] == b;
    assert b[..|a|] == a;
    assert a[..|lead|] == lead;
    assert a[|lead|..|lead| + |key|] == key;
    assert m[|a|..|a| + |value|] == b[|a|..|a| + |value|];
    assert m[|b|..|b| + |typ|] == typ;
  }
}
