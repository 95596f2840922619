# FirestoreDataWrapper conversion engine, modelled in Dafny

This project models the conversion engine of FirestoreDataWrapper's `Wrapper`
class (Wrapper.cs). The engine has two recursive passes:

- **Builder.** `ToFirestoreObject` and `ParseFirestoreObject` turn a C#
  record into a Firestore-style `Dictionary<string, object>`.
- **Encoder.** `ToJson` and `ParseJsonValue` turn such a map into JSON-like text.

Both passes use dotted field paths (`parent.child`) and an optional rename
table ("correspondings") that maps a full path to the key to emit. The
wrapper's one piece of state is the timestamp formatter `ParseDate`.

Modules, leaves first:

- `Wrappers`: `Option`, which stands for C#'s `null` rename table.
- `Text`: decimal digits, as `long.ToString()` and the date specifiers write
  them, with readers that parse them back. Also `string.Join`.
- `Time`: `DateTime` (calendar fields and `Kind`) and `ToUniversalTime` /
  `ToLocalTime` over a supplied time zone. Also the Firestore `Timestamp` and
  the two formatters `DefaultParseDate` and `JpParseDate`, with readers for
  their text.
- `Values`: the runtime values the C# `switch` patterns tell apart. These are
  null, string, `long`, bool, `DateTime`, `Timestamp`, `IEnumerable<object>`,
  `IEnumerable<long>`, the three dictionary types, and any other object seen
  through its public properties. The one exception the model represents is
  `Dictionary.Add` of a key that is already present.
- `Paths`: `ChildPath`, `Rename`, and `TableOf` (a `null` table is an empty one).
- `Builder`: `ParseFirestoreObject` and `BuildFields` (what `ToFirestoreObject`
  returns), as functions. Lemmas say what each returns and that the result is
  a document. They also say that documents are fixed points of the
  classification.
- `Encoder`: `ToJsonText` (what `ToJson` returns), `EntryValue` (the entry
  `switch`) and `JsonValue` (`ParseJsonValue`), as functions of the formatter.
- `FirestoreDataWrapper`: the `Wrapper` class. It has the `parseDate` field,
  the constructor and `SetParseDate`. `ToFirestoreObject` and `ToJson` are
  loops, proved to compute `BuildFields` and `ToJsonText`.
- `Pipeline`: properties of building a map and then rendering it.
- `JsonReader`: a reader for the JSON text format (RFC 8259), restricted to
  strings without escapes and to integers without fraction or exponent. It
  gives the encoder's text a meaning independent of the code that writes it.
- `Readback`: what `ToJson` promises when its output is read as JSON. The
  text of a map is one JSON object. Its members are the map's entries in
  order, each under its renamed key, with its value's meaning. This holds
  whenever every value has a text and no string needs an escape. It is what
  the `shaped` branch relies on when it hands the text to a JSON parser.

Notes on what Wrapper.cs does:

- The `switch` at Wrapper.cs:57-79 tests, in order, `IEnumerable<object>`,
  `IEnumerable<long>`, the three dictionary types, `null`, `string`, `long`,
  `DateTime` and `bool`, and sends everything else to `ToFirestoreObject`
  (Wrapper.cs:78). Each shape the model tells apart matches exactly one of
  these patterns, so for those shapes the order never changes a result.
- Two properties whose renamed keys coincide make `Dictionary.Add` throw
  (Wrapper.cs:49). The builder does not fall back to keeping the last value; the
  model returns `Err(DuplicateKey(key))`.
- A `DateTime` is normalised to UTC but stays a `DateTime` (Wrapper.cs:76). The
  encoder only formats Firestore `Timestamp`s (Wrapper.cs:120), so a built
  `DateTime` is written as empty text (`Pipeline.BuiltDateHasNoText`).

C# reflection is replaced by an explicit list of `(name, value)` properties in
enumeration order. The host's time zone is a `TimeZone` parameter: one function
from local to universal wall-clock time and one back. Formatting assumes the
invariant culture, where the time separator is `:` and the minus sign is `-`.
The newline that `AppendLine` writes is `"\n"`.

## Model

| member | source | states |
|---|---|---|
| `FirestoreDataWrapper.Wrapper.constructor` | Wrapper.cs:14-17 | a new wrapper's formatter is `DefaultParseDate` |
| `FirestoreDataWrapper.Wrapper.SetParseDate` | Wrapper.cs:22 | the formatter becomes the given function; the wrapper has no other state |
| `FirestoreDataWrapper.Wrapper.ToFirestoreObject` | Wrapper.cs:39-53 | the loop that fills the dictionary returns exactly `Builder.BuildFields` of the properties, with a `null` table treated as empty; the first exception ends the loop |
| `FirestoreDataWrapper.Wrapper.ToJson` | Wrapper.cs:82-105 | the string-builder loop, with its "separator unless the builder is empty" test, returns exactly `Encoder.ToJsonText` with the formatter currently installed |
| `FirestoreDataWrapper.EncodeWithDefaultFormatter` | Wrapper.cs:14-19 | after construction, a timestamp entry is rendered as `{"at": "` + `DefaultParseDate` of the instant + `"}` |
| `FirestoreDataWrapper.EncodeAfterSetParseDate` | Wrapper.cs:22 | after `SetParseDate(f)`, the same entry is rendered through `f` |
| `Builder.ParseFirestoreObject` | Wrapper.cs:55-80 | definition, no contract of its own: the `switch` with its arms in source order. Lists are mapped element by element, a `long` list is boxed, a dictionary of any of the three types becomes a `Dictionary<string, object>`, null, string, long and bool are kept, a `DateTime` goes to UTC, and anything else is built as a record. `ParseEachOk`, `ParseEachSucceeds`, `ParseEntriesOk`, `ParseEntriesSucceeds`, `ParseProducesDocument`, `ParseKeepsDocument` and `ParseIdempotent` state its properties |
| `Builder.BuildFields` | Wrapper.cs:39-53 | definition, no contract of its own: what `ToFirestoreObject` returns, one property at a time. Each property gets its path, its renamed key and its classified value, and the first failure or repeated key ends it. `BuildFieldsSpec`, `BuildFieldsErrPersists` and `BuildProducesDocuments` state its properties, and `FirestoreDataWrapper.Wrapper.ToFirestoreObject` is proved to compute it |
| `Builder.BuildFieldsSpec` | Wrapper.cs:39-53 | the map is built exactly when every property's value classifies and no two renamed keys are equal. It then has one entry per property, in property order. Each key is the table's entry for the full un-renamed path, or else the name. Each value is the property's value classified at that path. When only the keys clash, the error names a key that occurs twice |
| `Builder.BuildFieldsErrPersists` | Wrapper.cs:44-50 | an exception raised while handling one property is the result of the whole conversion |
| `Builder.ParseEachOk` | Wrapper.cs:59-60 | a list becomes a list of the same length, each element classified at the list's own path (no index segment) |
| `Builder.ParseEachSucceeds` | Wrapper.cs:59 | a list whose elements all classify classifies |
| `Builder.ParseEntriesOk` | Wrapper.cs:61-72 | a dictionary of any of the three types becomes a `Dictionary<string, object>` with the same keys in the same order (not renamed). Each value is classified at `path.key` |
| `Builder.ParseEntriesSucceeds` | Wrapper.cs:61-72 | a dictionary with distinct keys whose values all classify classifies |
| `Builder.ParseProducesDocument` | Wrapper.cs:57-79 | a classified value has only document shapes: null, string, long, bool, a UTC `DateTime`, and lists and maps of those, with map keys distinct. No record, typed dictionary, `long` list or timestamp is left |
| `Builder.BuildProducesDocuments` | Wrapper.cs:39-53 | the map `ToFirestoreObject` builds is such a document map |
| `Builder.ParseKeepsDocument` | Wrapper.cs:57-79 | classifying a document again, at any path and with any table, returns it unchanged |
| `Builder.ParseIdempotent` | Wrapper.cs:57-79 | classification is idempotent |
| `Time.ToUniversalTime` | Wrapper.cs:76 | the result is of kind UTC, and a UTC value is returned unchanged |
| `Time.ToUniversalTimeIdempotent` | Wrapper.cs:76 | normalising to UTC twice is normalising once |
| `Time.ToLocalTime` | Wrapper.cs:20 | the result is of kind Local, and a local value is returned unchanged |
| `Time.ToDateTime` | Wrapper.cs:120 | a timestamp is handed to the formatter as a UTC `DateTime` |
| `Time.DefaultParseDate` | Wrapper.cs:19 | definition, no contract of its own: `yyyy-MM-dd'T'HH:mm:ss` followed by a literal `Z`. `DefaultParseDateReadsBack`, `DefaultParseDateInjective` and `Readback.DefaultParseDatePlain` state its properties |
| `Time.JpParseDate` | Wrapper.cs:20 | definition, no contract of its own: the value converted to local time, written as `yyyy-MM-dd'T'HH:mm:ss`, followed by a literal `+09:00`. `JpParseDateReadsBack` and `Readback.JpParseDatePlain` state its properties |
| `Time.WallClockReadsBack` | Wrapper.cs:19 | `yyyy-MM-dd'T'HH:mm:ss` of a valid `DateTime` is 19 characters, and year, month, day, hour, minute and second read back from it |
| `Time.DefaultParseDateReadsBack` | Wrapper.cs:19 | the default formatter writes 20 characters ending in `Z`, from which the instant reads back to the second |
| `Time.DefaultParseDateInjective` | Wrapper.cs:19 | two valid values render alike by default exactly when they agree to the second |
| `Time.JpParseDateReadsBack` | Wrapper.cs:20 | the alternate formatter writes the local wall clock followed by `+09:00` (25 characters); the local fields read back |
| `Text.DecimalRoundTrip` | Wrapper.cs:118 | the decimal text of a `long` reads back as the same number |
| `Paths.ChildPath` | Wrapper.cs:46 | definition, no contract of its own: the prefix, a `.` when the prefix is not empty, then the name. The same rule is written at Wrapper.cs:63, :67, :71 and :89. `ChildPathExtends` and `EmptyRootNameCollapses` state its properties |
| `Paths.Rename` | Wrapper.cs:47 | definition, no contract of its own: the table's entry for the full un-renamed path when there is one, and the member's own name otherwise. `ToJson` applies the same lookup at Wrapper.cs:91. `Builder.BuildFieldsSpec` establishes that the builder's keys are this lookup at each property's full path. `Readback.ToJsonTextParses` establishes the same for the encoder's keys, and `NoTableKeepsNames` covers the `null` table |
| `Paths.ChildPathExtends` | Wrapper.cs:46 | when no name is empty, the path is the root-to-field names joined by `.`: bare name at the root, `parent.name` below it |
| `Paths.EmptyRootNameCollapses` | Wrapper.cs:89 | a root map entry whose key is empty gives its children bare paths, the same paths as root members |
| `Paths.NoTableKeepsNames` | Wrapper.cs:41 | with a `null` table, or an empty one, every key is the member's own name |
| `Encoder.ToJsonText` | Wrapper.cs:82-105 | definition, no contract of its own: the unshaped text of a map under a given formatter. `ToJsonTextIsJoin`, `EntriesEmptyIff`, `FormatterIrrelevant` and `Readback.ToJsonTextParses` state its properties, and `FirestoreDataWrapper.Wrapper.ToJson` is proved to compute it |
| `Encoder.EntryValue` | Wrapper.cs:92-98 | definition, no contract of its own: the entry `switch`. A list is written as its elements' `ParseJsonValue` texts joined by `,` in brackets, a `long` list as its numbers in brackets, `null` as `null`, and any other value through `ParseJsonValue`. `Readback.EntryReads` and `Pipeline.BuiltDateHasNoText` state its properties |
| `Encoder.JsonValue` | Wrapper.cs:113-124 | definition, no contract of its own: `ParseJsonValue`. A string is written in quotes, a `long` as decimal, a bool as `true` or `false`, a timestamp as its formatted text in quotes, a `Dictionary<string, object>` as its own text at its path, and anything else as nothing. `Readback.ValueReads` and `Pipeline.NullListElementHasNoText` state its properties |
| `Encoder.ToJsonTextIsJoin` | Wrapper.cs:85-102 | the text is `{`, then the entries' `"key": value` texts in map order joined by a comma and a newline, then `}`. There is no trailing separator, and an empty map gives `{}` |
| `Encoder.EntriesEmptyIff` | Wrapper.cs:88 | the text built so far is empty exactly when no entry has been written, so the separator goes between entries |
| `Encoder.FormatterIrrelevant` | Wrapper.cs:113-123 | the formatter is applied only to timestamps: a map without timestamps has the same text under any formatter |
| `Pipeline.DocumentIsStampFree` | Wrapper.cs:78 | a document holds no timestamp |
| `Pipeline.BuiltMapIgnoresFormatter` | Wrapper.cs:120 | the text of a map that `ToFirestoreObject` built does not depend on the installed formatter |
| `Pipeline.RenameAtDepth` | Wrapper.cs:46-47 | with the table `{"a.b": "bb"}`, the record `{a: {b: 1}}` becomes `{a: {bb: 1}}` and is written `{"a": {"bb": 1}}` |
| `Pipeline.SameTableRenamesTwice` | Wrapper.cs:89-91 | if one table is reused for both passes, a key the builder produced is renamed again by the encoder |
| `Pipeline.BuiltDateHasNoText` | Wrapper.cs:122 | a `DateTime` in a built map is written as nothing: `{"at": }` |
| `Pipeline.NullListElementHasNoText` | Wrapper.cs:94 | a `null` list element is written as nothing: `[null, "x"]` becomes `[,"x"]` |
| `JsonReader.StringReads` | Wrapper.cs:117 | a string written between quotes, with no character that needs an escape, reads back as that JSON string, and reading stops right after the closing quote |
| `JsonReader.NumberReads` | Wrapper.cs:118 | the decimal text of any integer (a minus sign for negatives, then the digits) reads back as that number, when the next character is not a digit |
| `JsonReader.TrueReads` | Wrapper.cs:119 | `true` reads back as the JSON literal `true` |
| `JsonReader.FalseReads` | Wrapper.cs:119 | `false` reads back as the JSON literal `false` |
| `JsonReader.NullReads` | Wrapper.cs:97 | the text `null` written for a `null` entry reads back as JSON `null` |
| `JsonReader.LastMember` | Wrapper.cs:100-102 | the last `"key": value` before the closing brace reads back as one member with that key and value |
| `JsonReader.NextMember` | Wrapper.cs:88-100 | a `"key": value` followed by the comma-and-newline separator reads back as that member followed by the members after the separator |
| `JsonReader.ObjectReads` | Wrapper.cs:102 | braces around a non-empty member list read back as the object of those members |
| `JsonReader.EmptyObjectReads` | Wrapper.cs:102 | `{}`, the text of an empty map, reads back as the empty object |
| `JsonReader.NextElement` | Wrapper.cs:94-95 | a list element followed by `,` reads back as that element followed by the elements after the comma |
| `JsonReader.LastElement` | Wrapper.cs:94-95 | the last list element before `]` reads back as a one-element list |
| `JsonReader.ArrayReads` | Wrapper.cs:94-95 | brackets around a non-empty element list read back as the array of those elements |
| `JsonReader.EmptyArrayReads` | Wrapper.cs:94-95 | `[]`, the text of an empty list, reads back as the empty array |
| `Readback.ToJsonTextParses` | Wrapper.cs:82-105 | when every value has a text and nothing needs an escape, the whole `ToJson` text is one JSON object with nothing after it. Its members are the map's entries in map order, each under its renamed key and with its value's meaning |
| `Readback.MapReads` | Wrapper.cs:121 | a nested map is written as an object that reads back as the map's members at the nested path, whatever text follows it |
| `Readback.EntryReads` | Wrapper.cs:92-98 | each arm of the entry `switch` writes text that reads back as its meaning: an `IEnumerable<object>` or `IEnumerable<long>` as an array, `null` as `null`, any other object through `ParseJsonValue` |
| `Readback.ValueReads` | Wrapper.cs:113-124 | each arm of `ParseJsonValue` that has a text reads back as its meaning: a string as a string, a `long` as a number, a bool as a literal, a timestamp as the string its formatter writes, a map as an object |
| `Readback.ListReads` | Wrapper.cs:94 | a list written with `string.Join(',', …)` in brackets reads back as the array of its elements' meanings, in order |
| `Readback.LongListReads` | Wrapper.cs:95 | an `IEnumerable<long>` reads back as the array of its numbers, in order |
| `Readback.DefaultParseDatePlain` | Wrapper.cs:19 | the default formatter writes only digits, `-`, `:`, `T` and `Z`, so a timestamp's text never needs an escape |
| `Readback.JpParseDatePlain` | Wrapper.cs:20 | the alternate formatter writes only digits, `-`, `:`, `T` and `+`, so its text never needs an escape either |
| `Readback.DefaultStampReadsBack` | Wrapper.cs:120 | with a new wrapper's formatter, a timestamp entry reads back as a one-member object whose string gives back the instant's date and time to the second |

## Left out

- `ShapeJsonText`, `JsonSerialize`, `JsonDeserialize`, `ToData` and the `shaped == true` branch of `ToJson`. They are thin wrappers over System.Text.Json's parser and printer, which are not part of this model.
- Reflection. A record is given as its public properties in enumeration order. Indexer properties, which make `GetValue` throw, and a `null` record passed to `ToFirestoreObject` are not represented.
- Other exceptions the source can raise. A rename table that maps a path to `null` makes `Add(null, …)` throw in the builder (Wrapper.cs:47,49), and the encoder writes its key as `""` (Wrapper.cs:91,100). A `null` formatter passed to `SetParseDate` throws when a `Timestamp` is written (Wrapper.cs:120). A `null` prefix passed to `ToFirestoreObject` throws at Wrapper.cs:46. A `null` data map passed to `ToJson` throws at Wrapper.cs:86, and a `null` prefix there throws at Wrapper.cs:89. None of these is represented: table values, formatters, maps and prefixes are never `null` in the model.
- Rename tables built with a non-ordinal key comparer. They change what `ContainsKey` finds (Wrapper.cs:47,91); the model's `map` lookup is exact string equality.
- `FS.Timestamp` reaching the builder falls into the reflection case. The model assumes it has no public properties, so it becomes an empty map.
- Time-zone arithmetic. `ToUniversalTime` and `ToLocalTime` use the supplied `TimeZone` functions. The epoch-seconds representation of a Firestore `Timestamp` is not modelled: a timestamp is the UTC instant it denotes.
- Culture-dependent formatting. Only the invariant culture is modelled.
- The platform newline. It is fixed to `"\n"`.
- Cyclic record graphs. An inductive datatype cannot express them, and the source has no cycle detection.
- Concurrent replacement of the formatter during an encoding.
- Primitive values other than `string`, `long`, `bool` and `DateTime` (for example `int` or `double`). In the source they fall into the reflection case and become empty maps, because they have no public instance properties. The model has no constructor of their own for them: the caller writes such a value as `Record([])`, which builds to the same empty map.
- `FirestoreDataWrapper.Wrapper.ToFirestoreObject`: the host time zone is an extra parameter, because `DateTime.ToUniversalTime` depends on it.
- `Readback.ToJsonTextParses`: the read-back is proved only for maps in which every string, renamed key and timestamp text is free of `"`, `\` and control characters. `ParseJsonValue` writes strings without escaping, so other strings give text that is not valid JSON.
- `Readback.ToJsonTextParses`: the read-back also excludes values that are written as nothing. These are a `DateTime`, a `null` list element, a list nested in a list, a record and a typed dictionary. The text is then not valid JSON (`{"at": }`, `[,"x"]`); `Pipeline.BuiltDateHasNoText` and `Pipeline.NullListElementHasNoText` show two cases.
- JSON outside what the encoder writes: string escapes, fractions and exponents are not read by `JsonReader`.
