/**
 * The text encoder: `ToJson` (unshaped) and `ParseJsonValue` of Wrapper.cs,
 * as functions of the timestamp formatter in force. `ToJsonText` is what
 * `ToJson` returns; the loop that computes it is
 * `FirestoreDataWrapper.Wrapper.ToJson`.
 */
module Encoder {
  import opened Text
  import opened Time
  import opened Values
  import opened Paths

  /** What `AppendLine(",")` appends between two entries: a comma and the newline. */
  const EntrySeparator := ",\n"

  /** The text of a map: its entries, separated, inside braces. */
  function ToJsonText(data: seq<Field>, prefix: string, table: Table, fmt: DateTime -> string): string
    decreases data, 1
  {
    "{" + Entries(data, prefix, table, fmt) + "}"
  }

  /** The entries of a map in enumeration order, with a separator between neighbours. */
  function Entries(data: seq<Field>, prefix: string, table: Table, fmt: DateTime -> string): string
    decreases data, 0
  {
    if |data| == 0 then ""
    else if |data| == 1 then EntryText(data[0], prefix, table, fmt)
    else Entries(data[..|data| - 1], prefix, table, fmt) + EntrySeparator + EntryText(data[|data| - 1], prefix, table, fmt)
  }

  /** One entry: the renamed key in quotes, a colon and a space, and the value's text at `prefix.key`. */
  function EntryText(item: Field, prefix: string, table: Table, fmt: DateTime -> string): string
    decreases item
  {
    var path := ChildPath(prefix, item.name);
    "\"" + Rename(table, path, item.name) + "\": " + EntryValue(item.value, path, table, fmt)
  }

  /** The `switch` on an entry's value: lists, then any non-null object, then `null`. */
  function EntryValue(v: Obj, path: string, table: Table, fmt: DateTime -> string): string
    decreases v, 1
  {
    match v
    case ObjList(xs) => "[" + Join(",", JsonValues(xs, path, table, fmt)) + "]"
    case LongList(ns) => "[" + Join(",", LongTexts(ns)) + "]"
    case Null => "null"
    case _ => JsonValue(v, path, table, fmt)
  }

  /** `ParseJsonValue`: scalars, timestamps and nested maps have a text; every other value renders as nothing. */
  function JsonValue(v: Obj, path: string, table: Table, fmt: DateTime -> string): string
    decreases v, 0
  {
    match v
    case Str(s) => "\"" + s + "\""
    case Long(n) => Decimal(n as int)
    case Bool(b) => if b then "true" else "false"
    case Stamp(t) => "\"" + fmt(ToDateTime(t)) + "\""
    case Dict(Objects, es) => ToJsonText(es, path, table, fmt)
    case _ => ""
  }

  /** `ParseJsonValue` applied to each list element, all at the list's own path. */
  function JsonValues(xs: seq<Obj>, path: string, table: Table, fmt: DateTime -> string): (texts: seq<string>)
    ensures |texts| == |xs|
    decreases xs
  {
    if |xs| == 0 then [] else JsonValues(xs[..|xs| - 1], path, table, fmt) + [JsonValue(xs[|xs| - 1], path, table, fmt)]
  }

  /** `ParseJsonValue` applied to each boxed `long` of an `IEnumerable<long>`. */
  function LongTexts(ns: seq<int64>): seq<string>
  {
    seq(|ns|, i requires 0 <= i < |ns| => Decimal(ns[i] as int))
  }

  // ---------------------------------------------------------------------------
  // What the encoder promises

  function EntryTexts(data: seq<Field>, prefix: string, table: Table, fmt: DateTime -> string): seq<string>
  {
    seq(|data|, i requires 0 <= i < |data| => EntryText(data[i], prefix, table, fmt))
  }

  /** Every entry's text starts with a quoted key, so it is never empty. */
  lemma EntryTextNonEmpty(item: Field, prefix: string, table: Table, fmt: DateTime -> string)
    ensures |EntryText(item, prefix, table, fmt)| >= 4
  {
  }

  /**
   * The text of a map is `{`, the entries' texts in map order joined by a
   * comma and a newline, and `}`: no separator before the first entry or
   * after the last, and `{}` for an empty map.
   */
  lemma {:induction false} ToJsonTextIsJoin(data: seq<Field>, prefix: string, table: Table, fmt: DateTime -> string)
    ensures ToJsonText(data, prefix, table, fmt) == "{" + Join(EntrySeparator, EntryTexts(data, prefix, table, fmt)) + "}"
    ensures data == [] ==> ToJsonText(data, prefix, table, fmt) == "{}"
  {
    EntriesIsJoin(data, prefix, table, fmt);
  }

  lemma {:induction false} EntriesIsJoin(data: seq<Field>, prefix: string, table: Table, fmt: DateTime -> string)
    ensures Entries(data, prefix, table, fmt) == Join(EntrySeparator, EntryTexts(data, prefix, table, fmt))
  {
    var n := |data|;
    if n > 1 {
      var init := data[..n - 1];
      EntriesIsJoin(init, prefix, table, fmt);
      var texts := EntryTexts(data, prefix, table, fmt);
      assert EntryTexts(init, prefix, table, fmt) == texts[..n - 1];
      assert texts == texts[..n - 1] + [texts[n - 1]];
      JoinSnoc(EntrySeparator, texts[..n - 1], texts[n - 1]);
    }
  }

  /** A map with one entry is written as that entry's text in braces. */
  lemma SingleEntryText(item: Field, prefix: string, table: Table, fmt: DateTime -> string)
    ensures ToJsonText([item], prefix, table, fmt) == "{" + EntryText(item, prefix, table, fmt) + "}"
  {
  }

  /** One more entry: a separator if something was written before it, then its text. */
  lemma EntriesNext(data: seq<Field>, i: nat, prefix: string, table: Table, fmt: DateTime -> string)
    requires i < |data|
    ensures Entries(data[..i + 1], prefix, table, fmt)
      == (if i == 0 then "" else Entries(data[..i], prefix, table, fmt) + EntrySeparator) + EntryText(data[i], prefix, table, fmt)
  {
    assert data[..i + 1][..i] == data[..i];
  }

  /** The entries' text is empty exactly when the map is. */
  lemma EntriesEmptyIff(data: seq<Field>, prefix: string, table: Table, fmt: DateTime -> string)
    ensures |Entries(data, prefix, table, fmt)| > 0 <==> |data| > 0
  {
    if |data| > 0 {
      EntryTextNonEmpty(data[|data| - 1], prefix, table, fmt);
    }
  }

  // ---------------------------------------------------------------------------
  // The formatter only reaches timestamps

  predicate StampFree(o: Obj)
  {
    match o
    case Stamp(_) => false
    case ObjList(xs) => forall i :: 0 <= i < |xs| ==> StampFree(xs[i])
    case Dict(_, es) => forall i :: 0 <= i < |es| ==> StampFree(es[i].value)
    case Record(fs) => forall i :: 0 <= i < |fs| ==> StampFree(fs[i].value)
    case _ => true
  }

  /** A map without timestamps has the same text whatever formatter is installed. */
  lemma {:induction false} FormatterIrrelevant(data: seq<Field>, prefix: string, table: Table, f: DateTime -> string, g: DateTime -> string)
    requires forall i :: 0 <= i < |data| ==> StampFree(data[i].value)
    ensures ToJsonText(data, prefix, table, f) == ToJsonText(data, prefix, table, g)
    decreases data, 2
  {
    EntriesFormatterIrrelevant(data, prefix, table, f, g);
  }

  lemma {:induction false} EntriesFormatterIrrelevant(data: seq<Field>, prefix: string, table: Table, f: DateTime -> string, g: DateTime -> string)
    requires forall i :: 0 <= i < |data| ==> StampFree(data[i].value)
    ensures Entries(data, prefix, table, f) == Entries(data, prefix, table, g)
    decreases data, 1
  {
    var n := |data|;
    if n > 0 {
      var last := data[n - 1];
      var path := ChildPath(prefix, last.name);
      ValueFormatterIrrelevant(last.value, path, table, f, g);
      if n > 1 {
        var init := data[..n - 1];
        assert forall i :: 0 <= i < n - 1 ==> init[i] == data[i];
        EntriesFormatterIrrelevant(init, prefix, table, f, g);
      }
    }
  }

  lemma {:induction false} ValueFormatterIrrelevant(v: Obj, path: string, table: Table, f: DateTime -> string, g: DateTime -> string)
    requires StampFree(v)
    ensures EntryValue(v, path, table, f) == EntryValue(v, path, table, g)
    ensures JsonValue(v, path, table, f) == JsonValue(v, path, table, g)
    decreases v, 0
  {
    match v
    case ObjList(xs) =>
      ValuesFormatterIrrelevant(xs, path, table, f, g);
    case Dict(Objects, es) =>
      FormatterIrrelevant(es, path, table, f, g);
    case _ =>
  }

  lemma {:induction false} ValuesFormatterIrrelevant(xs: seq<Obj>, path: string, table: Table, f: DateTime -> string, g: DateTime -> string)
    requires forall i :: 0 <= i < |xs| ==> StampFree(xs[i])
    ensures JsonValues(xs, path, table, f) == JsonValues(xs, path, table, g)
    decreases xs
  {
    var n := |xs|;
    if n > 0 {
      ValueFormatterIrrelevant(xs[n - 1], path, table, f, g);
      assert forall i :: 0 <= i < n - 1 ==> xs[..n - 1][i] == xs[i];
      ValuesFormatterIrrelevant(xs[..n - 1], path, table, f, g);
    }
  }
}
