/** The pieces of Go's `strconv` package that the coercer relies on: boolean
    tokens, integers in base 0 (the base taken from the literal's prefix) at a
    given bit width, decimal formatting, and `%q` quoting. */
module Strconv {
  import opened Wrappers
  import opened GoStrings

  datatype NumErrorKind = InvalidSyntax | OutOfRange | InvalidBitSize(bits: int)

  /** strconv.NumError: the function that failed, its input and the reason. */
  datatype NumError = NumError(func: string, num: string, kind: NumErrorKind)

  function NumErrorMessage(e: NumError): string {
    "strconv." + e.func + ": parsing " + Quote(e.num) + ": " +
    match e.kind
    case InvalidSyntax => "invalid syntax"
    case OutOfRange => "value out of range"
    case InvalidBitSize(b) => "invalid bit size " + FormatInt(b)
  }

  // ---------------------------------------------------------------- booleans

  const TRUE_TOKENS: set<string> := {"1", "t", "T", "TRUE", "true", "True"}
  const FALSE_TOKENS: set<string> := {"0", "f", "F", "FALSE", "false", "False"}

  /** strconv.ParseBool: exactly twelve tokens are accepted. */
  function ParseBool(s: string): (r: Result<bool, NumError>)
    ensures r.Ok? <==> s in TRUE_TOKENS + FALSE_TOKENS
    ensures r.Ok? ==> (r.value <==> s in TRUE_TOKENS)
    ensures r.Err? ==> r.error == NumError("ParseBool", s, InvalidSyntax)
  {
    if s in TRUE_TOKENS then Ok(true)
    else if s in FALSE_TOKENS then Ok(false)
    else Err(NumError("ParseBool", s, InvalidSyntax))
  }

  // ---------------------------------------------------------------- integers

  function Pow2(n: nat): (r: nat)
    ensures r >= 1
  {
    if n == 0 then 1 else 2 * Pow2(n - 1)
  }

  /** The bit width strconv uses for a requested width (0 means the platform's `int`, 64 bits). */
  function Width(bitSize: nat): nat {
    if bitSize == 0 then 64 else bitSize
  }

  /** The ASCII letter test strconv performs as `'a' <= lower(c) <= 'z'`, lowered. */
  function Lower(c: char): char {
    if 'A' <= c <= 'Z' then (c as int + 32) as char else c
  }

  function DigitValue(c: char): Option<nat> {
    if '0' <= c <= '9' then Some(c as int - '0' as int)
    else if 'a' <= Lower(c) <= 'z' then Some(Lower(c) as int - 'a' as int + 10)
    else None
  }

  /** Base detection for base 0: `0b`, `0o`, `0x` (any case, only when a digit may
      follow) and a bare leading `0` (octal); otherwise decimal. */
  function BasePrefix(s: string): (r: (nat, string))
    requires s != ""
    ensures r.0 in {2, 8, 10, 16}
  {
    if s[0] == '0' then
      if |s| >= 3 && Lower(s[1]) == 'b' then (2, s[2..])
      else if |s| >= 3 && Lower(s[1]) == 'o' then (8, s[2..])
      else if |s| >= 3 && Lower(s[1]) == 'x' then (16, s[2..])
      else (8, s[1..])
    else (10, s)
  }

  /** Outcome of the digit loop of ParseUint. */
  datatype Scan = Done(n: nat, underscores: bool) | SyntaxStop | RangeStop

  /** The digit loop: underscores are skipped and remembered, a rune that is not
      a digit of `base` stops with a syntax error, and the first digit that
      takes the value above `maxVal` stops with a range error. */
  function Accumulate(s: string, base: nat, maxVal: nat, n: nat, underscores: bool): (r: Scan)
    requires n <= maxVal
    ensures r.Done? ==> r.n <= maxVal
  {
    if s == [] then Done(n, underscores)
    else if s[0] == '_' then Accumulate(s[1..], base, maxVal, n, true)
    else match DigitValue(s[0])
      case None => SyntaxStop
      case Some(d) =>
        if d >= base then SyntaxStop
        else if n * base + d > maxVal then RangeStop
        else Accumulate(s[1..], base, maxVal, n * base + d, underscores)
  }

  lemma {:induction false} AccumulateAppend(a: string, b: string, base: nat, maxVal: nat, n: nat, u: bool)
    requires n <= maxVal
    ensures Accumulate(a + b, base, maxVal, n, u) ==
            match Accumulate(a, base, maxVal, n, u)
            case Done(m, u') => Accumulate(b, base, maxVal, m, u')
            case other => other
  {
    if a != [] {
      assert (a + b)[1..] == a[1..] + b;
      if a[0] == '_' {
        AccumulateAppend(a[1..], b, base, maxVal, n, true);
      } else if DigitValue(a[0]).Some? {
        var d := DigitValue(a[0]).value;
        if d < base && n * base + d <= maxVal {
          AccumulateAppend(a[1..], b, base, maxVal, n * base + d, u);
        }
      }
    } else {
      assert a + b == b;
    }
  }

  datatype Saw = Start | SawDigit | SawUnderscore | SawOther

  /** strconv's underscoreOK: underscores only between digits (a base prefix counts as a digit). */
  function UnderscoreOK(s0: string): bool {
    var s := if |s0| >= 1 && (s0[0] == '-' || s0[0] == '+') then s0[1..] else s0;
    var prefixed := |s| >= 2 && s[0] == '0' && Lower(s[1]) in {'b', 'o', 'x'};
    if prefixed then UnderscoreScan(s[2..], Lower(s[1]) == 'x', SawDigit)
    else UnderscoreScan(s, false, Start)
  }

  function UnderscoreScan(s: string, hex: bool, saw: Saw): bool {
    if s == [] then saw != SawUnderscore
    else if '0' <= s[0] <= '9' || (hex && 'a' <= Lower(s[0]) <= 'f') then UnderscoreScan(s[1..], hex, SawDigit)
    else if s[0] == '_' then saw == SawDigit && UnderscoreScan(s[1..], hex, SawUnderscore)
    else if saw == SawUnderscore then false
    else UnderscoreScan(s[1..], hex, SawOther)
  }

  /** strconv.ParseUint(s, 0, bitSize). On success the value fits in the width. */
  function ParseUint(s: string, bitSize: nat): (r: Result<nat, NumError>)
    ensures r.Ok? ==> r.value < Pow2(Width(bitSize))
    ensures r.Err? ==> r.error.func == "ParseUint" && r.error.num == s
  {
    if s == "" then Err(NumError("ParseUint", s, InvalidSyntax))
    else
      var (base, digits) := BasePrefix(s);
      var bits := Width(bitSize);
      if bits > 64 then Err(NumError("ParseUint", s, InvalidBitSize(bitSize)))
      else
        match Accumulate(digits, base, Pow2(bits) - 1, 0, false)
        case SyntaxStop => Err(NumError("ParseUint", s, InvalidSyntax))
        case RangeStop => Err(NumError("ParseUint", s, OutOfRange))
        case Done(n, underscores) =>
          if underscores && !UnderscoreOK(s) then Err(NumError("ParseUint", s, InvalidSyntax))
          else Ok(n)
  }

  /** strconv.ParseInt(s, 0, bitSize): an optional sign, then ParseUint's
      grammar. On success the value lies in the signed range of the width. */
  function ParseInt(s: string, bitSize: nat): (r: Result<int, NumError>)
    ensures r.Ok? ==> -(Pow2(Width(bitSize) - 1) as int) <= r.value < Pow2(Width(bitSize) - 1)
    ensures r.Err? ==> r.error.func == "ParseInt" && r.error.num == s
  {
    if s == "" then Err(NumError("ParseInt", s, InvalidSyntax))
    else
      var neg := s[0] == '-';
      var body := if s[0] == '+' || s[0] == '-' then s[1..] else s;
      var u := ParseUint(body, bitSize);
      if u.Err? && u.error.kind != OutOfRange then Err(NumError("ParseInt", s, u.error.kind))
      else
        var bits := Width(bitSize);
        // ParseUint reports the largest value of the width along with a range error
        var un := if u.Ok? then u.value else Pow2(bits) - 1;
        var cutoff := Pow2(bits - 1);
        if !neg && un >= cutoff then Err(NumError("ParseInt", s, OutOfRange))
        else if neg && un > cutoff then Err(NumError("ParseInt", s, OutOfRange))
        else Ok(if neg then -un else un)
  }

  // ---------------------------------------------------------------- formatting

  function DigitChar(d: nat): char
    requires d < 10
  {
    ('0' as int + d) as char
  }

  function HexDigit(d: nat): char
    requires d < 16
  {
    if d < 10 then DigitChar(d) else ('a' as int + d - 10) as char
  }

  lemma HexDigitValue(d: nat)
    requires d < 16
    ensures DigitValue(HexDigit(d)) == Some(d)
  {
  }

  /** The digits of `n` in `base`, lower-case, without leading zeros (strconv.FormatUint). */
  function Digits(n: nat, base: nat): (r: string)
    requires 2 <= base <= 16
    ensures r != ""
  {
    if n < base then [HexDigit(n)] else Digits(n / base, base) + [HexDigit(n % base)]
  }

  /** strconv.FormatInt(i, 10). */
  function FormatInt(i: int): string {
    if i < 0 then "-" + Digits(-i, 10) else Digits(i, 10)
  }

  lemma DivSmaller(n: nat, base: nat)
    requires 2 <= base && n >= base
    ensures 1 <= n / base < n && n == (n / base) * base + n % base
  {
  }

  /** The first digit is a decimal digit when the base is at most ten, and a
      zero only for the value zero. */
  lemma {:induction false} DigitsHead(n: nat, base: nat)
    requires 2 <= base <= 16
    ensures base <= 10 ==> '0' <= Digits(n, base)[0] <= '9'
    ensures n >= 1 ==> Digits(n, base)[0] != '0'
  {
    if n >= base {
      DivSmaller(n, base);
      var p := Digits(n / base, base);
      DigitsHead(n / base, base);
      assert Digits(n, base) == p + [HexDigit(n % base)];
      assert (p + [HexDigit(n % base)])[0] == p[0];
    }
  }

  /** One digit more: the value times the base plus the digit, unless that exceeds the bound. */
  lemma AccumulateOne(c: char, m: nat, base: nat, maxVal: nat, n: nat)
    requires DigitValue(c) == Some(m) && m < base && n <= maxVal
    ensures Accumulate([c], base, maxVal, n, false) ==
              if n * base + m > maxVal then RangeStop else Done(n * base + m, false)
  {
    assert [c][0] == c && [c][1..] == "";
  }

  /** The digit loop reads back the digits of any value within range in any
      base, and stops with a range error on any value above it. */
  lemma {:induction false} AccumulateDigits(n: nat, base: nat, maxVal: nat)
    requires 2 <= base <= 16
    ensures n <= maxVal ==> Accumulate(Digits(n, base), base, maxVal, 0, false) == Done(n, false)
    ensures n > maxVal ==> Accumulate(Digits(n, base), base, maxVal, 0, false) == RangeStop
  {
    if n < base {
      HexDigitValue(n);
      AccumulateOne(HexDigit(n), n, base, maxVal, 0);
    } else {
      var q, m := n / base, n % base;
      DivSmaller(n, base);
      var d := HexDigit(m);
      HexDigitValue(m);
      AccumulateDigits(q, base, maxVal);
      assert Digits(n, base) == Digits(q, base) + [d];
      AccumulateAppend(Digits(q, base), [d], base, maxVal, 0, false);
      if q <= maxVal {
        AccumulateOne(d, m, base, maxVal, q);
      }
    }
  }

  /** ParseUint reports what the digit loop finds after the base prefix. */
  lemma ParseUintOfScan(s: string, bits: nat)
    requires s != "" && 1 <= bits <= 64
    ensures var (base, digits) := BasePrefix(s);
            match Accumulate(digits, base, Pow2(bits) - 1, 0, false)
            case Done(n, false) => ParseUint(s, bits) == Ok(n)
            case RangeStop => ParseUint(s, bits) == Err(NumError("ParseUint", s, OutOfRange))
            case _ => true
  {
  }

  /** Every value of the width survives formatting and parsing back. */
  lemma ParseUintDecimal(n: nat, bits: nat)
    requires 1 <= bits <= 64 && n < Pow2(bits)
    ensures ParseUint(Digits(n, 10), bits) == Ok(n)
  {
    if n == 0 {
      ParseUintZero(bits);
    } else {
      DecimalBasePrefix(n);
      AccumulateDigits(n, 10, Pow2(bits) - 1);
      ParseUintOfScan(Digits(n, 10), bits);
    }
  }

  lemma ParseUintZero(bits: nat)
    requires 1 <= bits <= 64
    ensures ParseUint(Digits(0, 10), bits) == Ok(0)
  {
    assert Digits(0, 10) == "0";
    assert "0"[0] == '0' && "0"[1..] == "";
    assert BasePrefix("0") == (8, "");
    ParseUintOfScan("0", bits);
  }

  /** A decimal numeral other than "0" does not start with a zero, so it is read in base 10. */
  lemma DecimalBasePrefix(n: nat)
    requires n >= 1
    ensures BasePrefix(Digits(n, 10)) == (10, Digits(n, 10))
  {
    DigitsHead(n, 10);
  }

  /** A decimal literal beyond the width is a range error, never a truncated value. */
  lemma ParseUintDecimalOutOfRange(n: nat, bits: nat)
    requires 1 <= bits <= 64 && n >= Pow2(bits)
    ensures ParseUint(Digits(n, 10), bits) == Err(NumError("ParseUint", Digits(n, 10), OutOfRange))
  {
    DecimalBasePrefix(n);
    AccumulateDigits(n, 10, Pow2(bits) - 1);
    ParseUintOfScan(Digits(n, 10), bits);
  }

  lemma Pow2Monotone(a: nat, b: nat)
    requires a <= b
    ensures Pow2(a) <= Pow2(b)
    decreases b
  {
    if a < b { Pow2Monotone(a, b - 1); }
  }

  /** Signed round trip: every value of the signed range parses back from its
      decimal form; every value outside it is a range error. */
  lemma ParseIntFormatInt(i: int, bits: nat)
    requires 2 <= bits <= 64
    ensures -(Pow2(bits - 1) as int) <= i < Pow2(bits - 1) ==> ParseInt(FormatInt(i), bits) == Ok(i)
    ensures !(-(Pow2(bits - 1) as int) <= i < Pow2(bits - 1)) ==>
              ParseInt(FormatInt(i), bits) == Err(NumError("ParseInt", FormatInt(i), OutOfRange))
  {
    var s := FormatInt(i);
    var n := if i < 0 then -i else i;
    DigitsHead(n, 10);
    assert Pow2(bits) == 2 * Pow2(bits - 1);
    Pow2Monotone(1, bits - 1);
    if i < 0 {
      assert s[0] == '-' && s[1..] == Digits(n, 10);
    } else {
      assert s[0] != '+' && s[0] != '-';
    }
    if n < Pow2(bits) {
      ParseUintDecimal(n, bits);
    } else {
      ParseUintDecimalOutOfRange(n, bits);
    }
  }

  // ---------------------------------------------------------------- the base-0 grammar

  /** A literal with an explicit base prefix, as Go writes it. */
  function Literal(base: nat, n: nat): (r: string)
    requires base in {2, 8, 16}
    ensures |r| >= 3 && r[0] == '0'
  {
    (if base == 2 then "0b" else if base == 8 then "0o" else "0x") + Digits(n, base)
  }

  /** `0b`, `0o` and `0x` select the base: every value of the width reads back
      from its prefixed literal, and every larger value is a range error. */
  lemma PrefixedLiteral(base: nat, n: nat, bits: nat)
    requires base in {2, 8, 16} && 1 <= bits <= 64
    ensures n < Pow2(bits) ==> ParseUint(Literal(base, n), bits) == Ok(n)
    ensures n >= Pow2(bits) ==> ParseUint(Literal(base, n), bits) == Err(NumError("ParseUint", Literal(base, n), OutOfRange))
  {
    var s := Literal(base, n);
    assert s[2..] == Digits(n, base);
    assert Lower(s[1]) == s[1] && s[1] == (if base == 2 then 'b' else if base == 8 then 'o' else 'x');
    AccumulateDigits(n, base, Pow2(bits) - 1);
  }

  /** A bare leading `0` makes the rest octal. */
  lemma LeadingZeroOctal(n: nat, bits: nat)
    requires 1 <= bits <= 64 && n < Pow2(bits)
    ensures ParseUint("0" + Digits(n, 8), bits) == Ok(n)
  {
    var digits := Digits(n, 8);
    var s := "0" + digits;
    DigitsHead(n, 8);
    assert s[1..] == digits && s[1] == digits[0];
    BareZero(s);
    AccumulateDigits(n, 8, Pow2(bits) - 1);
    ParseUintOfScan(s, bits);
  }

  lemma BareZero(s: string)
    requires |s| >= 2 && s[0] == '0' && '0' <= s[1] <= '9'
    ensures BasePrefix(s) == (8, s[1..])
  {
    assert Lower(s[1]) == s[1];
  }

  /** After a bare leading `0`, an `8` or a `9` is a syntax error, not a decimal digit. */
  lemma OctalRejectsEightNine(s: string, bits: nat)
    requires |s| >= 2 && s[0] == '0' && s[1] in {'8', '9'} && Width(bits) <= 64
    ensures ParseUint(s, bits) == Err(NumError("ParseUint", s, InvalidSyntax))
  {
    assert BasePrefix(s) == (8, s[1..]);
    assert s[1..][0] == s[1];
  }

  /** The digit loop remembers every underscore it passes. */
  lemma {:induction false} AccumulateSawUnderscore(s: string, base: nat, maxVal: nat, n: nat, u: bool)
    requires n <= maxVal && '_' in s
    ensures Accumulate(s, base, maxVal, n, u).Done? ==> Accumulate(s, base, maxVal, n, u).underscores
  {
    if s[0] == '_' {
      AccumulateUnderscoreKept(s[1..], base, maxVal, n);
    } else {
      assert '_' in s[1..] by {
        var k :| 0 <= k < |s| && s[k] == '_';
        assert s[1..][k - 1] == '_';
      }
      match DigitValue(s[0])
      case None =>
      case Some(d) =>
        if d < base && n * base + d <= maxVal {
          AccumulateSawUnderscore(s[1..], base, maxVal, n * base + d, u);
        }
    }
  }

  /** Once an underscore has been seen, the loop keeps that fact. */
  lemma {:induction false} AccumulateUnderscoreKept(s: string, base: nat, maxVal: nat, n: nat)
    requires n <= maxVal
    ensures Accumulate(s, base, maxVal, n, true).Done? ==> Accumulate(s, base, maxVal, n, true).underscores
  {
    if s != [] {
      if s[0] == '_' {
        AccumulateUnderscoreKept(s[1..], base, maxVal, n);
      } else {
        match DigitValue(s[0])
        case None =>
        case Some(d) =>
          if d < base && n * base + d <= maxVal {
            AccumulateUnderscoreKept(s[1..], base, maxVal, n * base + d);
          }
      }
    }
  }

  /** An underscore anywhere but between digits makes the literal an error. */
  lemma UnderscoreMisplaced(s: string, bits: nat)
    requires '_' in s && !UnderscoreOK(s) && Width(bits) <= 64
    ensures ParseUint(s, bits).Err?
  {
    var (base, digits) := BasePrefix(s);
    assert '_' in digits by {
      var k :| 0 <= k < |s| && s[k] == '_';
      if s[0] == '0' {
        if |s| >= 3 && Lower(s[1]) in {'b', 'o', 'x'} {
          assert k >= 2 && digits == s[2..] && digits[k - 2] == '_';
        } else {
          assert k >= 1 && digits == s[1..] && digits[k - 1] == '_';
        }
      }
    }
    AccumulateSawUnderscore(digits, base, Pow2(Width(bits)) - 1, 0, false);
  }

  lemma UnderscoreBetweenDigits()
    ensures ParseUint("1_0", 64) == Ok(10)
  {
    var max := Pow2(64) - 1;
    assert max >= 10 by {
      Pow2Monotone(4, 64);
      assert Pow2(4) == 16;
    }
    OneUnderscoreZero(max);
    assert UnderscoreOK("1_0") by {
      assert "1_0"[1..] == "_0" && "_0"[1..] == "0" && "0"[1..] == "";
    }
  }

  lemma OneUnderscoreZero(max: nat)
    requires max >= 10
    ensures Accumulate("1_0", 10, max, 0, false) == Done(10, true)
  {
    assert "1_0"[1..] == "_0" && "_0"[1..] == "0" && "0"[1..] == "";
    assert Accumulate("0", 10, max, 1, true) == Done(10, true);
  }

  lemma UnderscoreDoubled()
    ensures ParseUint("1__0", 64).Err?
  {
    assert !UnderscoreOK("1__0") by {
      assert "1__0"[1..] == "__0" && "__0"[1..] == "_0";
    }
    assert "1__0"[1] == '_';
    UnderscoreMisplaced("1__0", 64);
  }

  // ---------------------------------------------------------------- quoting

  /** The runes unicode.IsPrint rejects, as far as this model lists them: the
      C0 and C1 controls and DEL, the separators other than the ASCII space,
      the format characters, the private-use planes and the noncharacters
      U+FFFE and U+FFFF. */
  predicate NotPrintable(c: char) {
    var cp := c as int;
    || cp < 0x20 || 0x7F <= cp <= 0x9F
    || cp == 0xA0 || cp == 0xAD || cp == 0x1680 || 0x2000 <= cp <= 0x200F
    || 0x2028 <= cp <= 0x202F || 0x205F <= cp <= 0x2064 || cp == 0x3000
    || 0x0600 <= cp <= 0x0605 || cp == 0x061C || cp == 0x06DD || cp == 0x070F || cp == 0x180E
    || 0xE000 <= cp <= 0xF8FF || cp == 0xFEFF || 0xFFF9 <= cp <= 0xFFFB || cp == 0xFFFE || cp == 0xFFFF
    || cp == 0xE0001 || 0xE0020 <= cp <= 0xE007F || 0xF0000 <= cp
  }

  /** The last `n` hexadecimal digits of `x`, lower-case, most significant first. */
  function HexWidth(x: nat, n: nat): (r: string)
    ensures |r| == n
    ensures forall i :: 0 <= i < |r| ==> '0' <= r[i] <= '9' || 'a' <= r[i] <= 'f'
  {
    if n == 0 then "" else HexWidth(x / 16, n - 1) + [HexDigit(x % 16)]
  }

  /** How `%q` writes one rune inside the quotes: the quote and the backslash
      behind a backslash, a printable rune as it is, the usual C escapes, and
      any other rune as `\xNN`, `\uNNNN` or `\UNNNNNNNN`. The result never
      holds an unprintable rune, and is the rune itself exactly when that is
      printable and not a quote or backslash. */
  function EscapeRune(c: char): (r: string)
    ensures r == [c] <==> c != '"' && c != '\\' && !NotPrintable(c)
    ensures r != [c] ==> |r| >= 2 && r[0] == '\\'
    ensures forall i :: 0 <= i < |r| ==> !NotPrintable(r[i])
  {
    var cp := c as int;
    if c == '"' then "\\\""
    else if c == '\\' then "\\\\"
    else if !NotPrintable(c) then [c]
    else if c == '\U{0007}' then "\\a"
    else if c == '\U{0008}' then "\\b"
    else if c == '\U{000C}' then "\\f"
    else if c == '\n' then "\\n"
    else if c == '\r' then "\\r"
    else if c == '\t' then "\\t"
    else if c == '\U{000B}' then "\\v"
    else if cp < 0x20 || cp == 0x7F then "\\x" + HexWidth(cp, 2)
    else if cp < 0x10000 then "\\u" + HexWidth(cp, 4)
    else "\\U" + HexWidth(cp, 8)
  }

  function QuoteBody(s: string): (r: string)
    ensures forall i :: 0 <= i < |r| ==> !NotPrintable(r[i])
  {
    if s == [] then "" else EscapeRune(s[0]) + QuoteBody(s[1..])
  }

  /** strconv.Quote, as `%q` prints a string: between double quotes, with no
      unprintable rune left in it. */
  function Quote(s: string): (r: string)
    ensures |r| >= 2 && r[0] == '"' && r[|r| - 1] == '"'
    ensures forall i :: 0 <= i < |r| ==> !NotPrintable(r[i])
  {
    "\"" + QuoteBody(s) + "\""
  }

  /** Text of printable runes without quotes or backslashes is quoted as it is. */
  lemma {:induction false} QuotePlain(s: string)
    requires forall i :: 0 <= i < |s| ==> s[i] != '"' && s[i] != '\\' && !NotPrintable(s[i])
    ensures QuoteBody(s) == s
  {
    if s != [] {
      QuotePlain(s[1..]);
      assert s == [s[0]] + s[1..];
    }
  }

  lemma QuoteSpaceExample()
    ensures Quote("a b") == "\"a b\""
  {
    QuotePlain("a b");
  }

  lemma EscapeControlExample()
    ensures EscapeRune('\U{0001}') == "\\x01"
  {
    assert HexWidth(1, 2) == HexWidth(0, 1) + "1";
  }
}
