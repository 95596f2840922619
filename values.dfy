/**
 * The runtime values the wrapper's two passes inspect with `switch` type
 * patterns: one constructor per shape the patterns tell apart.
 *
 * The same type serves as the builder's input (a record graph), the builder's
 * output (a Firestore-style map) and the encoder's input (a map, possibly
 * read back from Firestore, where date fields arrive as `Timestamp`s).
 */
module Values {
  import opened Time

  /** A C# `long`. */
  newtype int64 = x: int | -0x8000_0000_0000_0000 <= x < 0x8000_0000_0000_0000

  /** Which of the three string-keyed dictionary types a dictionary is. */
  datatype DictKind =
    | StringLists  // Dictionary<string, List<string>>
    | LongLists    // Dictionary<string, List<long>>
    | Objects      // Dictionary<string, object>

  /** One named member: a public property of a record, or a dictionary entry. */
  datatype Field = Field(name: string, value: Obj)

  datatype Obj =
    | Null
    | Str(s: string)
    | Long(n: int64)
    | Bool(b: bool)
    | Date(d: DateTime)
    | Stamp(t: Timestamp)
      /** Anything that is an `IEnumerable<object>`: `List<string>`, `object[]`, a list of records, ... */
    | ObjList(items: seq<Obj>)
      /** Anything that is an `IEnumerable<long>` (`List<long>`, `long[]`). */
    | LongList(longs: seq<int64>)
      /** One of the three dictionary types, its entries in enumeration order. */
    | Dict(kind: DictKind, entries: seq<Field>)
      /**
       * Any other object, seen through its public properties in enumeration
       * order. A value type without public properties (an `int`, a `double`)
       * is a record with no fields.
       */
    | Record(fields: seq<Field>)

  /** The one exception the model represents: `Dictionary.Add` of a key that is already there. */
  datatype Error = DuplicateKey(key: string)

  datatype Result<T> = Ok(value: T) | Err(error: Error)

  function Names(fs: seq<Field>): (names: seq<string>)
    ensures |names| == |fs|
    ensures forall i :: 0 <= i < |fs| ==> names[i] == fs[i].name
  {
    if |fs| == 0 then [] else Names(fs[..|fs| - 1]) + [fs[|fs| - 1].name]
  }

  predicate NoDuplicates(s: seq<string>) {
    forall i, j :: 0 <= i < j < |s| ==> s[i] != s[j]
  }
}
