# envconfig: binding environment variables to a configuration struct

This project models, in Dafny, the core of the Go library `envconfig`. The
library fills a caller's configuration struct from the process environment.

- **Walk.** `gatherInfo` walks the struct the caller points to and flattens it into an ordered list of variables. Each variable has a key and an alternate key. On the way, the walk allocates nil pointers to structs. It descends into nested structs that cannot parse their own text.
- **Resolve.** Each variable's value is looked up under its key, then under its alternate key. For each name, the environment is consulted first. Then comes the file whose path a `<NAME>_FILE` variable holds. Last comes the `default` tag. When the options ask for it, values from the environment or a file are trimmed.
- **Convert.** `processField` turns the text into the field's value, in one of two ways. A type with a capability (`Decode`, `Set`, `UnmarshalText`, `UnmarshalBinary`, looked up on the value, then on its address) receives the text as it is. Otherwise strings, integers, unsigned integers, booleans, floats, comma-separated slices and `k:v` maps are parsed. Slices and maps parse their elements recursively.
- **Entry points.** `Process` runs the walk and the resolver, then converts each variable in order, and stops at the first error. `CheckDisallowed` collects the keys and reports the first prefixed environment entry that is not one of them. `Usaget` lays one row per variable out for the usage listing.

Modules:

| module | file | models |
|---|---|---|
| `GoStrings` | `go_strings.dfy` | the parts of `strings` and `unicode` used: `TrimSpace`, `ToUpper`, `Split`, `Join`, `HasPrefix`, `SplitN(…, 2)[0]`, UTF-8 bytes |
| `Strconv` | `strconv.dfy` | `ParseBool`, and `ParseInt`/`ParseUint` in base 0 (prefixes `0b`/`0o`/`0x`/`0`, underscores, bit widths, range errors); `FormatInt`; `Quote` |
| `Reflection` | `reflection.dfy` | a closed universe of Go types (kinds, names, package names, method sets) and values, `Type.String()`; locations inside a value as paths; the caller's struct as a `Target` object |
| `Errors` | `errors.dfy` | `ErrInvalidSpecification`, `ParseError` and the texts of the `fmt.Errorf` errors |
| `Options` | `options.dfy` | the options record, the functional options and `apply`/`copy`, with the record updated in place |
| `Keys` | `keys.dfy` | struct tags, `splitWords` (its two regular expressions written out) and `resolveKey` |
| `Coerce` | `coerce.dfy` | `processField`, the capability lookup, `isTrue` |
| `Walker` | `walker.dfy` | `gatherInfo` |
| `Resolver` | `resolver.dfy` | `value`, `tryEnv`, `loadFromFile`, `resolveFileLoading`, `isRequired` |
| `Drivers` | `drivers.dfy` | `Process`, `CheckDisallowed` |
| `Usage` | `usage.dfy` | `implementsInterface`, `toTypeDescription`, the `usage_required` column and the row data of `Usaget` |

How the model is built:

- **Functions and methods.**
  - Pure logic is functions.
  - The loops of the source are methods: `apply`, the pointer loop and the field loop of `gatherInfo`, the name loop of `value`, the slice and map loops of `processField`, the loop of `Process`, and the collection and scan loops of `CheckDisallowed`.
  - Each method is proved equal to a specification function. The properties are lemmas about those functions.
- **State.**
  - The options record is a class whose fields the option closures update.
  - The caller's struct is a `Target` object whose `value` the walk and `Process` update.
- **Outside code as parameters.**
  - Code outside the library becomes parameters: the `Foreign` record holds the capability methods, `strconv.ParseFloat` and `time.ParseDuration`.
  - The process environment is a map for `Process` and a sequence of `NAME=VALUE` entries for `CheckDisallowed`.
  - The file system is a map from paths to contents or read errors.

Three behaviours of the code are easy to misread from the package
documentation. The model follows the code:

- **Alternate key.** The alternate key is the trimmed, upper-cased `envconfig` tag without the prefix. The key carries the prefix. So under a prefix the unprefixed tag name is tried second. The two names are not the same, and that fallback is not dead.
- **Nested structs.** A nested struct is walked with a copy of the options that leaves `trimSpaces` false, because `copy` does not copy it. So values of variables inside nested structs are never trimmed (`Walker.GatherProperties` states it).
- **Blank values.**
  - A variable set to the empty string counts as found.
  - A `default` tag that is present but empty counts as loaded.
  - An empty `required` tag is not required.

## Model

| member | source | states |
|---|---|---|
| GoStrings.TrimSpace | variable.go:208 | the result is empty exactly when the text is all white space (Go's `unicode.IsSpace` set), and otherwise starts and ends with a non-space rune |
| GoStrings.TrimSpaceSlice | variable.go:122 | the text is its leading white space, the result and its trailing white space laid end to end, so only white space at the two ends is removed |
| GoStrings.ToUpper | variable.go:227 | same length, no lower-case letter left, each rune upper-cased in place |
| GoStrings.ToUpperConcat | variable.go:223-227 | upper-casing distributes over concatenation, so upper-casing `prefix + "_" + key` upper-cases each part |
| GoStrings.Split | process.go:174 | one more piece than there are separators, no piece holds the separator, and joining the pieces with it gives the text back |
| GoStrings.Before | process.go:49 | the name of a `NAME=VALUE` entry is a prefix of it without `=`, followed by `=` when shorter than the entry |
| GoStrings.Utf8 | process.go:116 | `[]byte(s)` of an ASCII string is one byte per rune, each its code |
| GoStrings.EncodeRuneRoundTrip | process.go:116 | decoding reads back the rune at the head of its UTF-8 encoding, and its length, whatever bytes follow |
| GoStrings.Utf8RoundTrip | process.go:172 | decoding the bytes of `[]byte(s)` gives back the runes of `s`: the conversion loses nothing |
| Strconv.ParseBool | process.go:157-162 | accepted exactly for the twelve tokens, true exactly for the six true ones, otherwise a syntax error naming the input |
| Strconv.ParseUint | process.go:151-156 | a parsed value is below 2^width; an error names ParseUint and the input |
| Strconv.ParseInt | process.go:134-150 | a parsed value lies in the signed range of the width; an error names ParseInt and the input |
| Strconv.ParseUintDecimal | process.go:152 | every value of the width is read back from its decimal text |
| Strconv.ParseUintDecimalOutOfRange | process.go:152-155 | a decimal literal beyond the width is a range error, never a truncated value |
| Strconv.ParseIntFormatInt | process.go:144-148 | every value of the signed range is read back from its decimal text, and every value outside it is a range error |
| Strconv.AccumulateDigits | process.go:152 | the digit loop reads back the digits of any value within the bound in any base from 2 to 16, and stops with a range error above it |
| Strconv.PrefixedLiteral | process.go:152 | a `0b`, `0o` or `0x` literal reads back every value of the width in base 2, 8 or 16; a larger value is a range error naming the input |
| Strconv.LeadingZeroOctal | process.go:152 | a bare leading `0` makes the rest octal: every value of the width reads back from `0` and its octal digits |
| Strconv.OctalRejectsEightNine | process.go:152 | after a bare leading `0`, an `8` or a `9` is a syntax error naming the input |
| Strconv.UnderscoreMisplaced | process.go:152 | a literal with an underscore anywhere but between digits or after a base prefix is an error |
| Strconv.UnderscoreBetweenDigits | process.go:152 | an underscore between digits is allowed and ignored: `1_0` reads as 10 |
| Strconv.UnderscoreDoubled | process.go:152 | two underscores in a row are an error: `1__0` is rejected |
| Strconv.EscapeRune | process.go:191 | a rune is written as itself exactly when it is printable and not a quote or backslash, otherwise as a backslash escape; no escape holds an unprintable rune |
| Strconv.QuotePlain | process.go:191 | text of printable runes without quotes or backslashes is quoted unchanged |
| Strconv.Quote | process.go:191 | `%q` output is enclosed in double quotes and holds no unprintable rune |
| Reflection.TypeString | process.go:85 | a defined type prints as its package's declared name, a dot and its own name, a predeclared one as its name; an unnamed pointer, slice or map type starts with `*`, `[]` or `map[` |
| Reflection.GetSetSame | process.go:183 | after a location is set, reading it gives the value written |
| Reflection.GetSetIndependent | process.go:183 | setting a location leaves every location independent of it unchanged |
| Errors.ParseErrorLayout | error.go:23-25 | the message starts with the fixed lead and the key, holds the raw value verbatim between single quotes, then the type name, and ends with the cause's message |
| Errors.ParseErrorMessage | error.go:23-25 | the message starts with the fixed lead `envconfig.Process: assigning ` and goes on past it |
| Errors.MessageLayout | error.go:24 | in the format's layout each argument stands at a position fixed by the lengths of those before it, and the cause ends the message |
| Options.DefaultOptions | options.go:20-27 | no prefix, file loading on, suffix `_FILE`, trimming on |
| Options.NormalizedSuffix | options.go:58-67 | the stored suffix is non-empty and trimmed: the argument trimmed, or `_FILE` when the argument is blank |
| Options.Effect | options.go:45-74 | each option writes exactly one setting, independent of the record: the upper-cased prefix, file loading off, the normalized suffix, or trimming off |
| Options.UntouchedSettingKept | options.go:29-35 | a setting no applied option touches keeps its value |
| Options.LastOptionWins | options.go:29-35 | the last option touching a setting decides it, whatever came before |
| Options.ApplyAllWellFormed | options.go:45-67 | applying options keeps the prefix upper-case and the suffix non-empty and trimmed |
| Options.CopyOf | options.go:37-43 | a copy keeps the prefix and the file settings and has trimming off |
| Options.Record.Default | options.go:20-27 | a new record holds the default options |
| Options.Record.Run | options.go:45-74 | running an option closure on the record gives the option's effect on the old record |
| Options.Record.Apply | options.go:29-35 | the record afterwards is the options applied left to right to the record before |
| Keys.TagGet | variable.go:50 | an absent tag reads as the empty string |
| Keys.ChunkLength | variable.go:232 | each match of the gathering pattern is non-empty and within the rest of the name |
| Keys.Acronym | variable.go:239-243 | a match is kept whole or split in two parts that concatenate back to it |
| Keys.AcronymConcat | variable.go:239-243 | the parts of a match concatenate back to the match |
| Keys.SplitWordsConcat | variable.go:235-248 | the words of a name concatenate back to the name |
| Keys.SplitWords | variable.go:235-248 | a name gives no words exactly when it is empty |
| Keys.SplitWordsShape | variable.go:235-248 | no word is empty, and each is all capitals or has no capital after its first rune |
| Keys.SplitWordsAcronym | variable.go:232-244 | "APIKey" splits into "API" and "Key" |
| Keys.SplitWordsCamelCase | variable.go:232-244 | "DbHost" splits into "Db" and "Host" |
| Keys.SplitWordsAllCapitals | variable.go:232-244 | "ID" stays one word |
| Keys.SplitWordsCapitalsThenOthers | variable.go:232-244 | capitals followed by other runes, then a capital or the end: one word when there is a single capital, else the capitals but the last and then the last capital with the other runes; the words after are unaffected |
| Keys.SplitWordsOthers | variable.go:232-242 | a run without capitals, followed by a capital or the end, is one word |
| Keys.SplitWordsTrailingCapitals | variable.go:232-244 | capitals that end a name are one word |
| Keys.AltKey | variable.go:208-212 | the alternate key is upper-case, and non-empty exactly when the `envconfig` tag is not blank |
| Keys.ResolveKey | variable.go:207-230 | the key is upper-case |
| Keys.KeyUnderPrefix | variable.go:223-227 | under a prefix the key starts with the upper-cased prefix and an underscore |
| Keys.KeyFromTag | variable.go:208-213 | with a non-blank tag, the alternate key is the trimmed upper-cased tag and the key is the optional upper-cased `prefix_` followed by it |
| Keys.KeyFromName | variable.go:214-227 | without the tag there is no alternate key, and the key is the prefix-joined field name upper-cased, or its words joined by `_` under `split_words` |
| Keys.ResolvedKeyNonEmpty | variable.go:207-230 | a settable field's key is never empty |
| Keys.UpperPrefixKept | variable.go:223-227 | an upper-case prefix appears unchanged, with an underscore, at the head of the key |
| Coerce.IsTrue | process.go:244-247 | true exactly for the six tokens ParseBool reads as true |
| Coerce.FindFrom | process.go:212-222 | the capability found is the earliest from the given position that the value or its address has, found on the address only when the value lacks it |
| Coerce.FirstCapability | process.go:105-121 | none exactly when neither the type nor its pointer has a capability; otherwise the earliest in the order Decoder, Setter, TextUnmarshaler, BinaryUnmarshaler, via the address only when the value's own method set lacks it |
| Coerce.Bytes | process.go:171-172 | a byte slice holds exactly the UTF-8 bytes of the text |
| Coerce.Coerce | process.go:102-210 | without a capability, a failed conversion leaves the location as it was, except that a nil pointer has been allocated before the attempt |
| Coerce.CoerceKind | process.go:131-209 | a failed conversion in the kind switch leaves the value as it was |
| Coerce.CoerceScalar | process.go:132-168 | a failed scalar conversion leaves the value as it was |
| Coerce.ProcessValue | process.go:102-210 | the conversion as it runs equals the conversion function |
| Coerce.ProcessKind | process.go:131-207 | the kind switch as it runs equals its function |
| Coerce.ProcessSlice | process.go:169-183 | the slice case as it runs equals its function |
| Coerce.FillList | process.go:174-181 | the element loop equals the element list, stopping at the first error |
| Coerce.ProcessMap | process.go:184-206 | the map case as it runs equals its function |
| Coerce.FillMap | process.go:187-204 | the item loop equals storing the items from an empty map, stopping at the first error |
| Coerce.ProcessPair | process.go:189-203 | one item as it runs equals its function |
| Coerce.ProcessField | process.go:80 | the variable's location receives what the conversion leaves there, the rest of the object is unchanged, and the error is the conversion's |
| Coerce.CapabilityTakesText | process.go:105-121 | a type with a capability hands the whole text to the first one found, whatever its kind |
| Coerce.ValueBeforeAddress | process.go:212-222 | a capability on the value is used directly, not through the address |
| Coerce.NilPointerAllocated | process.go:123-129 | a nil pointer is allocated to a zero pointee before parsing and stays allocated when parsing fails |
| Coerce.PointerToPointerUntouched | process.go:123-131 | only one pointer is followed: under a pointer to a pointer nothing is parsed |
| Coerce.OtherKindsUntouched | process.go:131-209 | a struct, array or other kind without capabilities is left as it was, without error |
| Coerce.IntegerFieldRoundTrip | process.go:134-150 | a signed field reads back every value of its width from its decimal text; a value outside is a range error that leaves the field unchanged |
| Coerce.UnsignedFieldRoundTrip | process.go:151-156 | the same for unsigned fields |
| Coerce.DurationField | process.go:139-150 | a `time.Duration` field stores what `time.ParseDuration` returns, or reports its error unchanged and keeps the field |
| Coerce.BoolField | process.go:157-162 | a bool field accepts exactly ParseBool's tokens, holding whether the token is a true one |
| Coerce.SliceShapes | process.go:169-173 | a byte slice takes the raw bytes, commas included; any other slice is empty and not nil for blank text |
| Coerce.CoerceListOk | process.go:174-181 | the element list succeeds exactly when every piece converts, and then holds each piece's value in order |
| Coerce.CoerceListFirstError | process.go:176-180 | the first failing piece aborts the slice with its own error |
| Coerce.SliceElements | process.go:173-182 | a slice read from non-blank text has one element per comma-separated piece, each the piece converted on its own |
| Coerce.MapItemShape | process.go:189-203 | an item without exactly one colon is an invalid map item; a well-formed item is its key and value each converted from a zero value |
| Coerce.CoercePairsOk | process.go:188-204 | the items succeed exactly when every item does |
| Coerce.CoercePairsFirstError | process.go:188-204 | the first failing item aborts the map with its own error |
| Coerce.StoreAllKeys | process.go:203 | the stores leave exactly the keys present before and the keys stored |
| Coerce.StoreAllLastWins | process.go:203 | the last store to a key decides its value |
| Coerce.StoreAllUntouched | process.go:203 | a key never stored keeps its value |
| Coerce.CoercePairsStores | process.go:185-206 | a map read without error is its items stored left to right |
| Coerce.MapField | process.go:184-206 | blank text gives an empty map; other text gives the comma-separated items stored into an empty map, or the first item's error with the field unchanged |
| Walker.Chase | variable.go:54-64 | where the pointer loop stops: a non-pointer, or a nil pointer to a non-struct; after no step it is where it started |
| Walker.ChasePointers | variable.go:54-64 | the pointer loop as it runs equals Chase |
| Walker.Gather | variable.go:32-41 | an error exactly when the specification is not a non-nil pointer to a struct, and then ErrInvalidSpecification |
| Walker.NilPointerRejected | variable.go:38-41 | a nil pointer to a struct type is rejected with ErrInvalidSpecification |
| Walker.GatherInfo | variable.go:32-97 | the walk as it runs returns Gather's variables or error, and leaves the caller's struct as Gather says; a pointer to anything but a struct is left untouched |
| Walker.GatherFields | variable.go:47-94 | the field loop equals the walk over the fields |
| Walker.GatherField | variable.go:48-77 | one field as it runs equals the walk of that field |
| Walker.GatherAt | variable.go:66-93 | the location the pointer loop stopped at is one variable, or the variables of the struct it descends into |
| Walker.GatherStruct | variable.go:78-92 | a nested struct as it runs equals the walk over its fields under the inner options |
| Walker.WalkFields | variable.go:47-94 | the walk keeps one value per declared field of the struct, and leaves a value that is not a struct as it is |
| Walker.LeafField | variable.go:48-77 | a settable, not ignored field the walk does not descend into gives exactly one variable: its resolved key and alternate key, the type and location the pointer loop stopped at, and the options; the field keeps what the pointer loop left |
| Walker.StructField | variable.go:78-92 | a struct field the walk descends into is replaced by its own fields' variables, walked under a copy of the options, with the enclosing prefix when embedded and the field's key otherwise |
| Walker.EmbeddedKeysUnderPrefix | variable.go:81-84 | under a prefix, every key inside an embedded struct starts with the enclosing prefix and an underscore |
| Walker.WalkFieldGathered | variable.go:48-93 | every variable of one field is well gathered |
| Walker.WalkAtGathered | variable.go:66-93 | every variable found at a location is well gathered |
| Walker.WalkFieldsGathered | variable.go:47-94 | every variable of a struct's fields is well gathered |
| Walker.FieldEntries | variable.go:50-52 | a skipped field gives no variable and keeps its value; every variable of field `i` lies inside field `i` |
| Walker.WalkFieldsInOrder | variable.go:47-94 | the variables come field by field in declaration order |
| Walker.NilPointerWalk | variable.go:55-62 | a nil pointer to a struct is allocated; a nil pointer to anything else stays nil and is itself the variable |
| Walker.NestedKeysUnderParent | variable.go:81-91 | the keys inside a named nested struct start with the field's own key and an underscore |
| Walker.GatherInDeclarationOrder | variable.go:47-96 | the walk's variables follow the declaration order of the specification's fields |
| Walker.GatherProperties | variable.go:32-97 | every variable has an upper-case key under the upper-case prefix, a settable and not ignored field, a location the walk would not descend into, and trimming only with the caller's own options |
| Resolver.ReadFile | variable.go:174-177 | a readable file gives its contents; otherwise the read error, "no such file" for a missing path |
| Resolver.IsRequired | variable.go:99-101 | required exactly when the `required` tag is one of the true tokens |
| Resolver.Names | variable.go:104-108 | the key first, then the alternate key exactly when it is not empty |
| Resolver.FileLoading | variable.go:184-205 | a `file` tag decides alone and disables loading only as a false token; without the tag the options decide; a non-empty suffix is the tag as written |
| Resolver.LoadFromFile | variable.go:143-182 | nothing when loading is off; a value or an error only when the path variable is set; a value only from a non-blank path; the only errors are a blank path and a failed read |
| Resolver.TryEnv | variable.go:133-141 | a name set in the environment yields its text as it is; an error arises only for a name the environment lacks, from its file |
| Resolver.FirstFound | variable.go:110-118 | the search fails only with a blank path or a failed read |
| Resolver.ValueOf | variable.go:103-131 | the only errors are a blank path and a failed read; without a value the text is empty and there is no `default` tag |
| Resolver.Value | variable.go:103-131 | the name loop, trimming and default as they run equal the value function |
| Resolver.FileLoadingCases | variable.go:184-205 | a true `file` tag enables file loading with the default suffix, a false one disables it, other text enables it with that suffix (blank means the default), and without the tag the options decide |
| Resolver.FileIndirection | variable.go:143-182 | an absent path variable means no value, a blank path is an error naming the suffix, and otherwise the file's read result |
| Resolver.NoFilesWhenDisabled | variable.go:143-147 | with file loading off the search never fails and depends only on the environment entries named by the key and alternate key |
| Resolver.EnvironmentFirst | variable.go:133-137 | a key set in the environment wins over its file and the alternate key |
| Resolver.KeyFirst | variable.go:110-118 | what the key yields, a value or an error, decides before the alternate key |
| Resolver.AlternateKeySecond | variable.go:104-118 | when the key yields nothing, the alternate key decides |
| Resolver.DefaultWhenNothingFound | variable.go:125-128 | when no name yields a value, a present `default` tag is taken verbatim as loaded, and without it there is no value |
| Resolver.TrimmingOnlyWhenAsked | variable.go:120-123 | a found value is trimmed exactly when the options ask for it |
| Resolver.FoundFromSomeName | variable.go:110-118 | a found value comes from some name, all earlier names having yielded nothing |
| Drivers.ProcessVariable | process.go:67-90 | one variable as it runs leaves the struct and the error that Step gives |
| Drivers.Step | process.go:67-89 | the struct changes only when the variable has text; an error is a load error, a missing required key or a ParseError |
| Drivers.Run | process.go:67-92 | an error after the walk is a load error, a missing required key or a ParseError |
| Drivers.ProcessVariables | process.go:67-92 | the loop as it runs equals Run over the variables |
| Drivers.Process | process.go:59-93 | ErrInvalidSpecification for anything but a non-nil pointer to a struct (so also for a nil struct pointer); otherwise the walk's variables run in order from the walked struct; a pointer to anything but a struct is left untouched |
| Drivers.KnownKeys | process.go:36-39 | the whitelist is exactly the set of the variables' keys |
| Drivers.FirstUnknown | process.go:45-53 | none exactly when no checked entry is unknown; otherwise the name of the first unknown entry in the environment's order |
| Drivers.Scan | process.go:45-55 | the scan loop equals FirstUnknown |
| Drivers.CheckDisallowed | process.go:28-56 | ErrInvalidSpecification for anything but a non-nil pointer to a struct (so also for a nil struct pointer); otherwise the first unknown prefixed entry's name, or no error; the caller's struct is left as the walk leaves it, and a pointer to anything but a struct is left untouched |
| Drivers.RunAppend | process.go:67-90 | running two lists in sequence is running the second from where the first stopped, unless the first failed |
| Drivers.RunStopsAtFirstFailure | process.go:67-90 | the first failing variable decides the error and the value, later variables are not attempted |
| Drivers.StepCases | process.go:68-89 | a resolver error is returned as is, a missing required value is reported by key, a missing optional one changes nothing, and a found value lands in the variable's location only, with a conversion error wrapped with key, field, type and raw text |
| Drivers.SuccessMeansRequiredFound | process.go:73-76 | a Process that succeeds found a value for every required variable |
| Drivers.WhitelistIsKeys | process.go:36-52 | a checked entry is reported exactly when its name is not a key, so alternate keys and path variables are reported |
| Drivers.BeforeOfEntry | process.go:49 | the name of `NAME=VALUE` is `NAME` when the name holds no `=` |
| Drivers.EmptyPrefixChecksAll | process.go:41-53 | without a prefix the scan fails exactly when some entry's name is not a key |
| Usage.PointersTransparent | usage.go:67-68 | any number of pointers describe as their pointee |
| Usage.ImplementsInterface | usage.go:42-51 | true exactly when processField would find a capability on the type or its pointer |
| Usage.TypeDescription | usage.go:54-106 | every scalar, slice, array and map type has a non-empty description |
| Usage.MapDescription | usage.go:61-66 | a map is a comma-separated list of pairs of its key's and its element's descriptions |
| Usage.NamedScalarDescription | usage.go:74-103 | a scalar type is described by its name when that is not empty and does not look predeclared (exactly `string` or `bool`, or starting `int`, `uint` or `float`), else by its kind's fixed word |
| Usage.EmptyDescription | usage.go:54-106 | a description is empty exactly when the pointee is a struct without a capability or a name, or a kind printed as nothing |
| Usage.StructDescription | usage.go:69-73 | a named struct is described by its name exactly when Process converts it through a capability rather than walking into it |
| Usage.ListDescription | usage.go:56-60 | a byte slice or array is a "String", any other a list of its element's description |
| Usage.UsageRequired | usage.go:128-140 | empty stays empty, a true token reads "true", a false token is shown as written, anything else is ParseBool's error |
| Usage.RequiredColumnAgrees | usage.go:128-140 | the column reads "true" exactly for the variables Process requires |
| Usage.RowOf | usage.go:123-141 | a variable's row is its key, type description, default, required column and description, or the required column's error |
| Usage.RowsOk | usage.go:151-162 | the rows succeed exactly when every variable's row does, one row per variable in order |
| Usage.RowsFirstError | usage.go:151-162 | failing rows report the first failing variable's error |
| Usage.Usaget | usage.go:151-162 | ErrInvalidSpecification for anything but a non-nil pointer to a struct (so also for a nil struct pointer); otherwise the rows of the walk under the applied options; the caller's struct is left as the walk leaves it, and a pointer to anything but a struct is left untouched |

## Left out

- Template parsing and execution, the tab writer and the output stream of `Usage`, `Usagef` and `Usaget` are not modelled. The model stops at the row data and at the `usage_required` error, which template execution would propagate.
- `MustProcess` is not modelled: it only panics on Process's error.
- The methods of the four capabilities, `strconv.ParseFloat` and `time.ParseDuration` are code outside the library. They are parameters in `Coerce.Foreign`, so nothing is proved about what they compute.
- `os.LookupEnv`, `os.Environ` and `os.ReadFile` are the maps and sequences given as parameters, and a missing path's error text is fixed. Concurrent changes to the environment are not modelled.
- GoStrings.ToUpper: upper-cases ASCII letters only; Go's `strings.ToUpper` also maps other Unicode letters.
- Keys.IsExported: a field counts as settable when its name starts with an ASCII capital. Go's test accepts any Unicode upper-case letter.
- Walker.GatherInfo: the error branch of the recursive call is not modelled. The nested call always receives a pointer to a struct, so it cannot fail.
- Reflection.TypeString: `%+v` of a type and `Type.String()` are modelled for named types, built-in kinds, pointers, slices, arrays and maps. Struct literal types are printed without their tags.
- Walker.GatherInfo: recursive struct types (`type Node struct{ Next *Node }`) and pointer cycles in the caller's value cannot be written in this model, so termination is proved only for the values it can express. On such inputs Go's `gatherInfo` keeps descending until the stack overflows.
- Coerce.StoreAllLastWins: map keys are compared structurally, not with Go's `==`. Go keeps two entries for `"1:a,1:b"` in a `map[*int]string`, because each key is a fresh pointer; the model keeps one. Float keys differ too: `NaN` never equals itself in Go, and `+0` equals `-0`.
- Strconv.Quote: the unprintable runes are the controls, the separators other than the ASCII space, the common format characters, the private-use planes and U+FFFE/U+FFFF. The rest of Go's `unicode.IsPrint` tables, such as unassigned code points, is not modelled, so such runes stay unescaped.
- Strings are sequences of Unicode scalar values. A Go string holding invalid UTF-8 cannot be written, and `%q` of one is not modelled.
- GoStrings.DecodeRune: a lenient decoder that reads the length class of the lead byte and does not check continuation bytes. It only serves to state that `[]byte(s)` loses nothing.
- Coerce.FirstCapability: the capability lookup goes by the static type alone.
  - Go's `interfaceFrom` also needs the location to be interfaceable, and for the address, addressable. Every location `processField` reaches is both: a field of a struct reached through a pointer, a slice element, or a fresh `reflect.New` value.
  - For a field of interface kind, Go asks the value the interface holds at run time. A nil `flag.Value` field has no Setter, and a pointer to an interface has no methods, so Go converts nothing and reports no error. The model has no dynamic types: it decides by the methods declared on the field's type, and gives an unnamed pointer to such a type that type's methods.
- Coerce.SliceShapes: a slice whose element has kind `uint8` takes the raw bytes of the text whatever the element's name. Go builds a `[]uint8` there and assigns it to the field. For a defined byte type (`type MyByte uint8`, a field of type `[]MyByte`, also as a map's element) that assignment panics, and the model has no counterpart of the panic. Coerce.CoerceSlice gives the bytes instead.
- `copy()` returns a new options record and leaves the receiver as it was, so it is modelled by the function `Options.CopyOf` alone, with no method on the record.
- Go reflection's aliasing is not modelled: the walk returns the struct value with the allocated pointers, and the driver writes it back into the caller's object. No other code observes the struct in between. The value tree also hides aliasing inside the caller's struct. When two pointer fields point to one struct `S`, Go gathers two variables at the same memory (`A_X` and `B_X`), so the later write shows in both fields. The model holds a separate copy of `S` under each field, and each copy receives only its own variable's value.
- Integer results are mathematical integers checked against the width's range; floats are bit patterns returned by the foreign parser.
