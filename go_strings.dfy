/** The pieces of Go's `strings` and `unicode` packages that the configuration
    engine relies on. A Go string is modelled as a sequence of characters
    (runes); where Go works on the UTF-8 bytes, `Utf8` gives them. */
module GoStrings {
  import opened Wrappers

  type byte = x: int | 0 <= x < 256

  /** unicode.IsSpace: Latin-1 white space plus the Unicode White_Space runes. */
  predicate IsSpace(c: char) {
    || c == ' ' || c == '\t' || c == '\n' || c == '\U{000B}' || c == '\U{000C}' || c == '\r'
    || c == '\U{0085}' || c == '\U{00A0}' || c == '\U{1680}'
    || ('\U{2000}' <= c <= '\U{200A}')
    || c == '\U{2028}' || c == '\U{2029}' || c == '\U{202F}' || c == '\U{205F}' || c == '\U{3000}'
  }

  /** A string made of white space only (the empty string included). */
  predicate IsBlank(s: string) {
    forall i :: 0 <= i < |s| ==> IsSpace(s[i])
  }

  /** The number of leading white-space runes. */
  function LeadingSpaces(s: string): (n: nat)
    ensures n <= |s| && (forall i :: 0 <= i < n ==> IsSpace(s[i])) && (n < |s| ==> !IsSpace(s[n]))
  {
    if s == [] || !IsSpace(s[0]) then 0 else 1 + LeadingSpaces(s[1..])
  }

  /** Where the trailing white space starts. */
  function TrailingStart(s: string): (n: nat)
    ensures n <= |s| && (forall i :: n <= i < |s| ==> IsSpace(s[i])) && (0 < n ==> !IsSpace(s[n - 1]))
  {
    if s == [] || !IsSpace(s[|s| - 1]) then |s| else TrailingStart(s[..|s| - 1])
  }

  /** strings.TrimSpace: what is left once the leading and the trailing white
      space are removed. */
  function TrimSpace(s: string): (r: string)
    ensures |r| <= |s|
    ensures r == [] <==> IsBlank(s)
    ensures r != [] ==> !IsSpace(r[0]) && !IsSpace(r[|r| - 1])
  {
    var l := LeadingSpaces(s);
    if l == |s| then [] else s[l..TrailingStart(s)]
  }

  /** TrimSpace cuts the input in three: the leading white space, the result
      and the trailing white space. */
  lemma TrimSpaceSlice(s: string)
    ensures var k := LeadingSpaces(s);
            var r := TrimSpace(s);
            k + |r| <= |s| && s == s[..k] + r + s[k + |r|..] &&
            IsBlank(s[..k]) && IsBlank(s[k + |r|..])
  {
    var k := LeadingSpaces(s);
    var r := TrimSpace(s);
    BlankSlice(s, 0, k);
    assert s[0..k] == s[..k];
    if k == |s| {
      assert r == [] && s[..k] == s;
    } else {
      var t := TrailingStart(s);
      assert k < t;
      assert r == s[k..t] && k + |r| == t;
      BlankSlice(s, t, |s|);
      assert s[t..|s|] == s[t..];
      SplitThree(s, k, t);
    }
  }

  lemma BlankSlice(s: string, i: nat, j: nat)
    requires i <= j <= |s| && forall x :: i <= x < j ==> IsSpace(s[x])
    ensures IsBlank(s[i..j])
  {
    forall x | 0 <= x < j - i ensures IsSpace(s[i..j][x]) {
      assert s[i..j][x] == s[i + x];
    }
  }

  lemma SplitThree(s: string, i: nat, j: nat)
    requires i <= j <= |s|
    ensures s == s[..i] + s[i..j] + s[j..]
  {
  }

  /** The rune of an ASCII lower-case letter, upper-cased; any other rune unchanged. */
  function UpperChar(c: char): char {
    if 'a' <= c <= 'z' then (c as int - 32) as char else c
  }

  /** No ASCII lower-case letter occurs in `s`. */
  predicate IsUpperCase(s: string) {
    forall i :: 0 <= i < |s| ==> !('a' <= s[i] <= 'z')
  }

  /** strings.ToUpper, restricted to the ASCII letters. */
  function ToUpper(s: string): (r: string)
    ensures |r| == |s| && IsUpperCase(r)
    ensures forall i :: 0 <= i < |s| ==> r[i] == UpperChar(s[i])
  {
    if s == [] then [] else [UpperChar(s[0])] + ToUpper(s[1..])
  }

  lemma ToUpperOfUpper(s: string)
    requires IsUpperCase(s)
    ensures ToUpper(s) == s
  {
  }

  lemma ToUpperConcat(a: string, b: string)
    ensures ToUpper(a + b) == ToUpper(a) + ToUpper(b)
  {
    assert forall i :: 0 <= i < |a + b| ==> ToUpper(a + b)[i] == (ToUpper(a) + ToUpper(b))[i];
  }

  predicate HasPrefix(s: string, p: string) {
    |p| <= |s| && s[..|p|] == p
  }

  predicate HasSuffix(s: string, p: string) {
    |p| <= |s| && s[|s| - |p|..] == p
  }

  /** Number of occurrences of `c` in `s`. */
  function Count(s: string, c: char): nat {
    if s == [] then 0 else (if s[0] == c then 1 else 0) + Count(s[1..], c)
  }

  /** strings.Join. */
  function Join(parts: seq<string>, sep: char): string {
    if parts == [] then ""
    else if |parts| == 1 then parts[0]
    else parts[0] + [sep] + Join(parts[1..], sep)
  }

  /** strings.Split with a one-rune separator: the pieces between the
      separators, so that joining them back gives the input. */
  function Split(s: string, sep: char): (r: seq<string>)
    ensures |r| == Count(s, sep) + 1
    ensures Join(r, sep) == s
    ensures forall i :: 0 <= i < |r| ==> sep !in r[i]
  {
    if s == [] then [""]
    else
      var rest := Split(s[1..], sep);
      if s[0] == sep then
        assert s == [sep] + s[1..];
        [""] + rest
      else
        var r := [[s[0]] + rest[0]] + rest[1..];
        assert r[1..] == rest[1..];
        assert s == [s[0]] + s[1..];
        r
  }

  /** The text before the first `c` (all of `s` when there is none), as
      strings.SplitN(s, c, 2)[0] gives it. */
  function Before(s: string, c: char): (r: string)
    ensures HasPrefix(s, r) && c !in r
    ensures |r| < |s| ==> s[|r|] == c
  {
    if s == [] || s[0] == c then "" else [s[0]] + Before(s[1..], c)
  }

  /** The UTF-8 encoding of one rune. */
  function EncodeRune(c: char): (r: seq<byte>)
    ensures 1 <= |r| <= 4
    ensures c as int < 0x80 ==> r == [c as int]
  {
    var cp := c as int;
    if cp < 0x80 then [cp]
    else if cp < 0x800 then [0xC0 + cp / 64, 0x80 + cp % 64]
    else if cp < 0x10000 then [0xE0 + cp / 4096, 0x80 + (cp / 64) % 64, 0x80 + cp % 64]
    else [0xF0 + cp / 262144, 0x80 + (cp / 4096) % 64, 0x80 + (cp / 64) % 64, 0x80 + cp % 64]
  }

  /** The six payload bits of a continuation byte. */
  function Low(x: byte): int {
    x as int - 0x80
  }

  /** The code point at the start of UTF-8 bytes and the number of bytes it
      takes, read from the lead byte's length class. */
  function DecodeRune(b: seq<byte>): (r: Option<(int, nat)>)
    ensures r.Some? ==> 1 <= r.value.1 <= |b|
  {
    if b == [] then None
    else
      var lead: int := b[0];
      if lead < 0x80 then Some((lead, 1))
      else if 0xC0 <= lead < 0xE0 && |b| >= 2 then Some(((lead - 0xC0) * 64 + Low(b[1]), 2))
      else if 0xE0 <= lead < 0xF0 && |b| >= 3 then Some(((lead - 0xE0) * 4096 + Low(b[1]) * 64 + Low(b[2]), 3))
      else if 0xF0 <= lead && |b| >= 4 then
        Some(((lead - 0xF0) * 262144 + Low(b[1]) * 4096 + Low(b[2]) * 64 + Low(b[3]), 4))
      else None
  }

  /** Decoding reads back the rune an encoding starts with, whatever follows. */
  lemma EncodeRuneRoundTrip(c: char, rest: seq<byte>)
    ensures DecodeRune(EncodeRune(c) + rest) == Some((c as int, |EncodeRune(c)|))
  {
    var cp := c as int;
    var b := EncodeRune(c) + rest;
    if cp >= 0x80 {
      assert cp == (cp / 64) * 64 + cp % 64;
      if cp >= 0x800 {
        assert cp / 64 == (cp / 4096) * 64 + (cp / 64) % 64;
        if cp >= 0x10000 {
          assert cp / 4096 == (cp / 262144) * 64 + (cp / 4096) % 64;
        }
      }
    }
  }

  /** The code points of UTF-8 bytes, rune by rune; None where the bytes end
      inside a rune or a lead byte is a continuation byte. */
  function DecodeAll(b: seq<byte>): Option<seq<int>>
    decreases |b|
  {
    if b == [] then Some([])
    else match DecodeRune(b)
      case None => None
      case Some((cp, n)) =>
        match DecodeAll(b[n..])
        case None => None
        case Some(rest) => Some([cp] + rest)
  }

  function CodePoints(s: string): (r: seq<int>)
    ensures |r| == |s| && forall i :: 0 <= i < |s| ==> r[i] == s[i] as int
  {
    seq(|s|, i requires 0 <= i < |s| => s[i] as int)
  }

  /** The bytes of a string, as the conversion []byte(s) gives them. */
  function Utf8(s: string): (r: seq<byte>)
    ensures (forall i :: 0 <= i < |s| ==> s[i] as int < 0x80) ==>
              |r| == |s| && forall i :: 0 <= i < |s| ==> r[i] == s[i] as int
  {
    if s == [] then [] else EncodeRune(s[0]) + Utf8(s[1..])
  }

  /** The bytes determine the string: decoding them gives back its runes. */
  lemma {:induction false} Utf8RoundTrip(s: string)
    ensures DecodeAll(Utf8(s)) == Some(CodePoints(s))
  {
    if s != [] {
      var e := EncodeRune(s[0]);
      EncodeRuneRoundTrip(s[0], Utf8(s[1..]));
      assert (e + Utf8(s[1..]))[|e|..] == Utf8(s[1..]);
      Utf8RoundTrip(s[1..]);
      assert CodePoints(s) == [s[0] as int] + CodePoints(s[1..]);
    }
  }
}
