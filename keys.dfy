/** Struct tags and key derivation (variable.go): the tag names the engine
    reads, the split of a field name into words, and the upper-case,
    prefix-joined key of a field. */
module Keys {
  import opened GoStrings
  import opened Reflection
  import Coerce

  const TAG_ENVCONFIG := "envconfig"
  const TAG_IGNORED := "ignored"
  const TAG_DEFAULT := "default"
  const TAG_SPLIT_WORDS := "split_words"
  const TAG_REQUIRED := "required"
  const TAG_FILE := "file"

  /** StructTag.Get: the tag's value, or "" when it is absent. */
  function TagGet(tags: map<string, string>, name: string): (r: string)
    ensures name in tags ==> r == tags[name]
    ensures name !in tags ==> r == ""
  {
    if name in tags then tags[name] else ""
  }

  /** The field is exported (so settable through reflection): its name starts
      with an upper-case ASCII letter. */
  predicate IsExported(name: string) {
    name != [] && IsAZ(name[0])
  }

  /** The `ignored` tag reads as true. */
  predicate IsIgnored(f: Field) {
    Coerce.IsTrue(TagGet(f.tags, TAG_IGNORED))
  }

  // ---------------------------------------------------------------- splitWords

  /** The class [A-Z] of the two patterns. */
  predicate IsAZ(c: char) {
    'A' <= c <= 'Z'
  }

  /** Length of the longest prefix of [A-Z] runes. */
  function UpperRun(s: string): (n: nat)
    ensures n <= |s| && (forall i :: 0 <= i < n ==> IsAZ(s[i])) && (n < |s| ==> !IsAZ(s[n]))
  {
    if s == [] || !IsAZ(s[0]) then 0 else 1 + UpperRun(s[1..])
  }

  /** Length of the longest prefix of runes outside [A-Z]. */
  function OtherRun(s: string): (n: nat)
    ensures n <= |s| && (forall i :: 0 <= i < n ==> !IsAZ(s[i])) && (n < |s| ==> IsAZ(s[n]))
  {
    if s == [] || IsAZ(s[0]) then 0 else 1 + OtherRun(s[1..])
  }

  /** Length of the leftmost match of `([^A-Z]+|[A-Z]+[^A-Z]+|[A-Z]+)` at the
      start of `s`, the alternatives tried in order. */
  function ChunkLength(s: string): (n: nat)
    requires s != []
    ensures 0 < n <= |s|
  {
    if !IsAZ(s[0]) then OtherRun(s)
    else
      var u := UpperRun(s);
      if u == |s| then u else u + OtherRun(s[u..])
  }

  /** `([A-Z]+)([A-Z][^A-Z]+)` on one chunk: two or more capitals followed by
      other runes give up their last capital to the word after them. */
  function Acronym(c: string): (r: seq<string>)
    ensures r == [c] || (|r| == 2 && r[0] + r[1] == c)
  {
    var u := UpperRun(c);
    if 2 <= u < |c| then [c[..u - 1], c[u - 1..]] else [c]
  }

  /** splitWords: the matches of the gathering pattern, each split once more
      by the acronym pattern. */
  function SplitWords(s: string): (r: seq<string>)
    ensures r == [] <==> s == []
    decreases |s|
  {
    if s == [] then []
    else
      var n := ChunkLength(s);
      Acronym(s[..n]) + SplitWords(s[n..])
  }

  /** The pieces laid end to end. */
  function Concat(parts: seq<string>): string {
    if parts == [] then "" else parts[0] + Concat(parts[1..])
  }

  lemma {:induction false} ConcatAppend(a: seq<string>, b: seq<string>)
    ensures Concat(a + b) == Concat(a) + Concat(b)
    decreases |a|
  {
    if a == [] {
      assert a + b == b;
    } else {
      assert (a + b)[0] == a[0] && (a + b)[1..] == a[1..] + b;
      ConcatAppend(a[1..], b);
    }
  }

  /** A word as splitWords leaves it: all capitals, or no capital after its
      first rune. */
  predicate WordShape(w: string) {
    (forall i :: 0 <= i < |w| ==> IsAZ(w[i])) || (forall i :: 1 <= i < |w| ==> !IsAZ(w[i]))
  }

  /** A chunk made of a run of capitals and then no capital splits into
      non-empty words of the right shape. */
  lemma AcronymShape(c: string, u: nat)
    requires c != [] && UpperRun(c) == u
    requires forall i :: u <= i < |c| ==> !IsAZ(c[i])
    ensures forall w :: w in Acronym(c) ==> w != "" && WordShape(w)
  {
    if 2 <= u < |c| {
      var a, b := c[..u - 1], c[u - 1..];
      assert Acronym(c) == [a, b];
      assert forall i :: 0 <= i < |a| ==> IsAZ(a[i]) by {
        forall i | 0 <= i < |a| ensures IsAZ(a[i]) { assert a[i] == c[i]; }
      }
      assert forall i :: 1 <= i < |b| ==> !IsAZ(b[i]) by {
        forall i | 1 <= i < |b| ensures !IsAZ(b[i]) { assert b[i] == c[u - 1 + i]; }
      }
      assert WordShape(a) && WordShape(b);
    } else {
      assert Acronym(c) == [c];
      if u == |c| {
        assert forall i :: 0 <= i < |c| ==> IsAZ(c[i]);
      } else {
        assert forall i :: 1 <= i < |c| ==> !IsAZ(c[i]);
      }
    }
  }

  lemma ChunkShape(s: string)
    requires s != []
    ensures forall w :: w in Acronym(s[..ChunkLength(s)]) ==> w != "" && WordShape(w)
  {
    var n := ChunkLength(s);
    var c := s[..n];
    if !IsAZ(s[0]) {
      assert UpperRun(c) == 0;
      assert forall i :: 0 <= i < n ==> !IsAZ(c[i]) by {
        forall i | 0 <= i < n ensures !IsAZ(c[i]) { assert c[i] == s[i]; }
      }
      AcronymShape(c, 0);
    } else {
      var u := UpperRun(s);
      assert forall i :: 0 <= i < u ==> c[i] == s[i];
      if u < |s| {
        assert forall i :: u <= i < n ==> !IsAZ(c[i]) by {
          forall i | u <= i < n ensures !IsAZ(c[i]) { assert c[i] == s[u..][i - u]; }
        }
        UpperRunOf(c, u);
      } else {
        UpperRunOf(c, |c|);
      }
      AcronymShape(c, u);
    }
  }

  lemma {:induction false} UpperRunOf(s: string, u: nat)
    requires u <= |s| && (forall i :: 0 <= i < u ==> IsAZ(s[i])) && (u < |s| ==> !IsAZ(s[u]))
    ensures UpperRun(s) == u
    decreases u
  {
    if u > 0 {
      UpperRunOf(s[1..], u - 1);
    }
  }

  lemma AcronymConcat(c: string)
    ensures Concat(Acronym(c)) == c
  {
    var r := Acronym(c);
    assert Concat(r[|r| - 1..]) == r[|r| - 1];
  }

  /** The words of a name concatenate back to it. */
  lemma {:induction false} SplitWordsConcat(s: string)
    ensures Concat(SplitWords(s)) == s
    decreases |s|
  {
    if s != [] {
      var n := ChunkLength(s);
      assert s == s[..n] + s[n..];
      var a := Acronym(s[..n]);
      assert SplitWords(s) == a + SplitWords(s[n..]);
      SplitWordsConcat(s[n..]);
      ConcatAppend(a, SplitWords(s[n..]));
      AcronymConcat(s[..n]);
    }
  }

  /** No word is empty, and each has capitals only as a whole word or as its
      first rune. */
  lemma {:induction false} SplitWordsShape(s: string)
    ensures forall w :: w in SplitWords(s) ==> w != "" && WordShape(w)
    decreases |s|
  {
    if s != [] {
      var n := ChunkLength(s);
      var a, rest := Acronym(s[..n]), SplitWords(s[n..]);
      assert SplitWords(s) == a + rest;
      SplitWordsShape(s[n..]);
      ChunkShape(s);
      forall w | w in a + rest ensures w != "" && WordShape(w) {
        if w !in a {
          assert w in rest;
        }
      }
    }
  }

  lemma {:induction false} OtherRunOf(s: string, n: nat)
    requires n <= |s| && (forall i :: 0 <= i < n ==> !IsAZ(s[i])) && (n < |s| ==> IsAZ(s[n]))
    ensures OtherRun(s) == n
    decreases n
  {
    if n > 0 {
      OtherRunOf(s[1..], n - 1);
    }
  }

  /** No rune of `s` is a capital. */
  predicate NoCapital(s: string) {
    forall i :: 0 <= i < |s| ==> !IsAZ(s[i])
  }

  /** Every rune of `s` is a capital. */
  predicate AllCapitals(s: string) {
    forall i :: 0 <= i < |s| ==> IsAZ(s[i])
  }

  /** What may follow a word: nothing, or a capital. */
  predicate StartsWord(s: string) {
    s == [] || IsAZ(s[0])
  }

  /** A run of capitals then a run of other runes: one word when there is a
      single capital, else the capitals but the last, then the last capital
      with the other runes (an acronym gives up its last capital). */
  lemma SplitWordsCapitalsThenOthers(u: string, l: string, rest: string)
    requires u != [] && AllCapitals(u) && l != [] && NoCapital(l) && StartsWord(rest)
    ensures SplitWords(u + l + rest) ==
              (if |u| >= 2 then [u[..|u| - 1], u[|u| - 1..] + l] else [u + l]) + SplitWords(rest)
  {
    var s := u + l + rest;
    var n := |u| + |l|;
    UpperRunOf(s, |u|);
    assert s[|u|..] == l + rest;
    OtherRunOf(l + rest, |l|);
    assert ChunkLength(s) == n;
    var c := s[..n];
    assert c == u + l && s[n..] == rest;
    UpperRunOf(c, |u|);
    if |u| >= 2 {
      assert c[..|u| - 1] == u[..|u| - 1] && c[|u| - 1..] == u[|u| - 1..] + l;
    }
  }

  /** A run of runes that are not capitals is one word. */
  lemma SplitWordsOthers(l: string, rest: string)
    requires l != [] && NoCapital(l) && StartsWord(rest)
    ensures SplitWords(l + rest) == [l] + SplitWords(rest)
  {
    var s := l + rest;
    OtherRunOf(s, |l|);
    assert s[..|l|] == l && s[|l|..] == rest;
    assert UpperRun(l) == 0;
  }

  /** Capitals that end the name are one word. */
  lemma SplitWordsTrailingCapitals(u: string)
    requires u != [] && AllCapitals(u)
    ensures SplitWords(u) == [u]
  {
    UpperRunOf(u, |u|);
    assert u[..|u|] == u && u[|u|..] == [];
  }

  /** An acronym gives up its last capital to the word after it. */
  lemma SplitWordsAcronym()
    ensures SplitWords("APIKey") == ["API", "Key"]
  {
    var s := "APIKey";
    assert s[1..] == "PIKey" && s[2..] == "IKey" && s[3..] == "Key" && s[4..] == "ey";
    assert UpperRun("ey") == 0 && UpperRun("Key") == 1 && UpperRun("IKey") == 2 && UpperRun("PIKey") == 3;
    assert UpperRun(s) == 4;
    assert OtherRun(s[4..]) == 2;
    assert ChunkLength(s) == 6;
    assert s[..6] == s && s[6..] == [];
    assert Acronym(s) == [s[..3], s[3..]] && s[..3] == "API";
    assert SplitWords(s) == Acronym(s[..6]) + SplitWords(s[6..]);
    assert SplitWords(s[6..]) == [];
  }

  /** Capitalised words are split at each capital. */
  lemma SplitWordsCamelCase()
    ensures SplitWords("DbHost") == ["Db", "Host"]
  {
    var s := "DbHost";
    assert UpperRun(s) == 1 && UpperRun(s[..2]) == 1;
    assert s[1..] == "bHost" && OtherRun("bHost") == 1;
    assert ChunkLength(s) == 2;
    var t := s[2..];
    assert t == "Host" && t[1..] == "ost";
    assert UpperRun(t) == 1 && OtherRun("ost") == 3;
    assert ChunkLength(t) == 4 && t[..4] == t && t[4..] == [];
    assert UpperRun("Host") == 1 && Acronym(t) == [t] && Acronym(s[..2]) == [s[..2]] && s[..2] == "Db";
    assert SplitWords(t) == Acronym(t[..4]) + SplitWords(t[4..]) == [t];
    assert SplitWords(s) == Acronym(s[..2]) + SplitWords(t);
  }

  /** A name of capitals only is one word. */
  lemma SplitWordsAllCapitals()
    ensures SplitWords("ID") == ["ID"]
  {
    var s := "ID";
    assert s[1..] == "D" && UpperRun(s) == 2;
    assert ChunkLength(s) == 2 && s[..2] == s && s[2..] == [];
  }

  // ---------------------------------------------------------------- resolveKey

  /** The alternate key: the `envconfig` tag, trimmed and upper-cased; empty
      when the tag is absent or blank. */
  function AltKey(f: Field): (r: string)
    ensures IsUpperCase(r)
    ensures r != "" <==> !IsBlank(TagGet(f.tags, TAG_ENVCONFIG))
  {
    var alt := TrimSpace(TagGet(f.tags, TAG_ENVCONFIG));
    if alt != "" then ToUpper(alt) else ""
  }

  /** The key before the prefix: the alternate key when there is one, else the
      field name, split into words joined by underscores under `split_words`. */
  function KeyName(f: Field): string {
    var alt := AltKey(f);
    if alt != "" then alt
    else if Coerce.IsTrue(TagGet(f.tags, TAG_SPLIT_WORDS)) then Join(SplitWords(f.name), '_')
    else f.name
  }

  /** `name` under `prefix`, joined by an underscore. */
  function UnderPrefix(prefix: string, name: string): string {
    if prefix != "" then prefix + "_" + name else name
  }

  /** resolveKey: the key and the alternate key of a field under a prefix. */
  function ResolveKey(prefix: string, f: Field): (r: (string, string))
    ensures IsUpperCase(r.0)
  {
    (ToUpper(UnderPrefix(prefix, KeyName(f))), AltKey(f))
  }

  lemma ToUpperUnderPrefix(prefix: string, name: string)
    requires prefix != ""
    ensures ToUpper(UnderPrefix(prefix, name)) == ToUpper(prefix) + "_" + ToUpper(name)
  {
    ToUpperConcat(prefix + "_", name);
    ToUpperConcat(prefix, "_");
    assert ToUpper("_") == "_";
  }

  lemma UpperUnderPrefix(prefix: string, name: string)
    requires prefix != ""
    ensures HasPrefix(ToUpper(UnderPrefix(prefix, name)), ToUpper(prefix) + "_")
  {
    ToUpperUnderPrefix(prefix, name);
    var p := ToUpper(prefix) + "_";
    assert (p + ToUpper(name))[..|p|] == p;
  }

  /** Under a prefix, the key starts with the upper-cased prefix and an underscore. */
  lemma KeyUnderPrefix(prefix: string, f: Field)
    requires prefix != ""
    ensures HasPrefix(ResolveKey(prefix, f).0, ToUpper(prefix) + "_")
  {
    UpperUnderPrefix(prefix, KeyName(f));
  }

  /** With a non-blank `envconfig` tag, the key is the optional upper-cased
      prefix and underscore followed by the alternate key, which is the
      trimmed, upper-cased tag. */
  lemma KeyFromTag(prefix: string, f: Field)
    requires !IsBlank(TagGet(f.tags, TAG_ENVCONFIG))
    ensures var (key, altKey) := ResolveKey(prefix, f);
            && altKey == ToUpper(TrimSpace(TagGet(f.tags, TAG_ENVCONFIG)))
            && key == (if prefix != "" then ToUpper(prefix) + "_" else "") + altKey
  {
    var altKey := AltKey(f);
    ToUpperOfUpper(altKey);
    if prefix != "" {
      ToUpperUnderPrefix(prefix, altKey);
    }
  }

  /** Without the tag, there is no alternate key, and the key is the
      upper-cased prefix-joined field name, or its words under `split_words`. */
  lemma KeyFromName(prefix: string, f: Field)
    requires IsBlank(TagGet(f.tags, TAG_ENVCONFIG))
    ensures var (key, altKey) := ResolveKey(prefix, f);
            && altKey == ""
            && (Coerce.IsTrue(TagGet(f.tags, TAG_SPLIT_WORDS)) ==> key == ToUpper(UnderPrefix(prefix, Join(SplitWords(f.name), '_'))))
            && (!Coerce.IsTrue(TagGet(f.tags, TAG_SPLIT_WORDS)) ==> key == ToUpper(UnderPrefix(prefix, f.name)))
  {
  }

  /** The key of a settable field is never empty: the name is not, and
      neither are its words. */
  lemma ResolvedKeyNonEmpty(prefix: string, f: Field)
    requires IsExported(f.name)
    ensures ResolveKey(prefix, f).0 != ""
  {
    var alt := AltKey(f);
    if alt == "" && Coerce.IsTrue(TagGet(f.tags, TAG_SPLIT_WORDS)) {
      var words := SplitWords(f.name);
      var n := ChunkLength(f.name);
      assert words == Acronym(f.name[..n]) + SplitWords(f.name[n..]);
      SplitWordsShape(f.name);
      assert words[0] in words;
      assert Join(words, '_')[..|words[0]|] == words[0];
    }
    assert KeyName(f) != "";
    assert |UnderPrefix(prefix, KeyName(f))| >= |KeyName(f)|;
  }

  /** An upper-case prefix is kept as it is: every key of a field under it
      starts with the prefix and an underscore. */
  lemma UpperPrefixKept(prefix: string, f: Field)
    requires prefix != "" && IsUpperCase(prefix)
    ensures HasPrefix(ResolveKey(prefix, f).0, prefix + "_")
  {
    KeyUnderPrefix(prefix, f);
    ToUpperOfUpper(prefix);
  }
}
