/**
 * The `Wrapper` object: its one piece of state, the timestamp formatter, and
 * the two operations whose C# bodies are loops (`ToFirestoreObject` filling a
 * dictionary, `ToJson` filling a string builder), each proved to compute the
 * function that specifies it.
 */
module FirestoreDataWrapper {
  import opened Wrappers
  import opened Time
  import opened Values
  import opened Paths
  import Builder
  import Encoder

  class Wrapper {
    /** The formatter `ToJson` applies to every Firestore `Timestamp`. */
    var parseDate: DateTime -> string

    /** A new wrapper formats timestamps with `DefaultParseDate`. */
    constructor ()
      ensures parseDate == DefaultParseDate
    {
      parseDate := DefaultParseDate;
    }

    /** Replaces the formatter; nothing else is part of the wrapper's state. */
    method SetParseDate(f: DateTime -> string)
      modifies this
      ensures parseDate == f
    {
      parseDate := f;
    }

    /**
     * Converts a record, given by its public properties in enumeration
     * order, to a Firestore-style map. `zone` is the host's time zone, used to
     * normalise `DateTime` values to UTC.
     */
    method ToFirestoreObject(data: seq<Field>, zone: TimeZone, prefix: string := "", correspondings: Option<Table> := None)
      returns (r: Result<seq<Field>>)
      ensures r == Builder.BuildFields(data, prefix, TableOf(correspondings), zone)
    {
      var table := TableOf(correspondings);
      var firestoreObject: seq<Field> := [];
      var i := 0;
      while i < |data|
        invariant 0 <= i <= |data|
        invariant Builder.BuildFields(data[..i], prefix, table, zone) == Ok(firestoreObject)
      {
        var property := data[i];
        var nextPrefix := ChildPath(prefix, property.name);
        var propertyName := if nextPrefix in table then table[nextPrefix] else property.name;
        var propertyValue := Builder.ParseFirestoreObject(property.value, nextPrefix, table, zone);
        Builder.BuildFieldsNext(data, i, prefix, table, zone, firestoreObject, propertyName, propertyValue);
        if propertyValue.Err? {
          Builder.BuildFieldsErrPersists(data, i + 1, prefix, table, zone);
          return Err(propertyValue.error);
        }
        if propertyName in Names(firestoreObject) {
          Builder.BuildFieldsErrPersists(data, i + 1, prefix, table, zone);
          return Err(DuplicateKey(propertyName));
        }
        firestoreObject := firestoreObject + [Field(propertyName, propertyValue.value)];
        i := i + 1;
      }
      assert data[..i] == data;
      return Ok(firestoreObject);
    }

    /**
     * Renders a map as text with the formatter currently installed: entries
     * in map order, `"key": value`, separated by a comma and a newline.
     */
    method ToJson(data: seq<Field>, prefix: string := "", correspondings: Option<Table> := None)
      returns (json: string)
      ensures json == Encoder.ToJsonText(data, prefix, TableOf(correspondings), parseDate)
    {
      var table := if correspondings.None? then map[] else correspondings.value;
      var sb := "";
      for i := 0 to |data|
        invariant sb == Encoder.Entries(data[..i], prefix, table, parseDate)
      {
        Encoder.EntriesEmptyIff(data[..i], prefix, table, parseDate);
        Encoder.EntriesNext(data, i, prefix, table, parseDate);
        if |sb| > 0 {
          sb := sb + Encoder.EntrySeparator;
        }
        var items := data[i];
        var nextPrefix := ChildPath(prefix, items.name);
        var propertyName := if nextPrefix in table then table[nextPrefix] else items.name;
        var propertyValue := Encoder.EntryValue(items.value, nextPrefix, table, parseDate);
        assert "\"" + propertyName + "\": " + propertyValue == Encoder.EntryText(items, prefix, table, parseDate);
        sb := sb + ("\"" + propertyName + "\": " + propertyValue);
      }
      assert data[..|data|] == data;
      json := "{" + sb + "}";
    }
  }

  /** The text of a one-entry map holding a timestamp under the key `at`. */
  lemma StampEntryText(fmt: DateTime -> string, t: Timestamp)
    ensures Encoder.ToJsonText([Field("at", Stamp(t))], "", map[], fmt) == "{\"at\": \"" + fmt(ToDateTime(t)) + "\"}"
  {
    var text := "\"" + fmt(ToDateTime(t)) + "\"";
    assert ChildPath("", "at") == "at";
    assert Encoder.EntryValue(Stamp(t), "at", map[], fmt) == text;
    assert Encoder.EntryText(Field("at", Stamp(t)), "", map[], fmt) == "\"at\": " + text;
  }

  /** A new wrapper renders a timestamp entry with the default formatter. */
  method EncodeWithDefaultFormatter(t: Timestamp) returns (json: string)
    ensures json == "{\"at\": \"" + DefaultParseDate(ToDateTime(t)) + "\"}"
  {
    var w := new Wrapper();
    json := w.ToJson([Field("at", Stamp(t))]);
    StampEntryText(w.parseDate, t);
  }

  /** After `SetParseDate(f)`, the same entry is rendered through `f`. */
  method EncodeAfterSetParseDate(f: DateTime -> string, t: Timestamp) returns (json: string)
    ensures json == "{\"at\": \"" + f(ToDateTime(t)) + "\"}"
  {
    var w := new Wrapper();
    w.SetParseDate(f);
    json := w.ToJson([Field("at", Stamp(t))]);
    StampEntryText(w.parseDate, t);
  }
}
