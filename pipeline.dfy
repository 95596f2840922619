/**
 * Properties of the two passes used one after the other: a record is built
 * into a map, and that map is rendered as text.
 */
module Pipeline {
  import opened Text
  import opened Time
  import opened Values
  import opened Paths
  import opened Builder
  import opened Encoder

  /** Documents hold no timestamp: the builder turns a `Timestamp` it meets into an empty map. */
  lemma {:induction false} DocumentIsStampFree(doc: Obj)
    requires IsDocument(doc)
    ensures StampFree(doc)
  {
    match doc
    case ObjList(xs) =>
      forall i | 0 <= i < |xs|
        ensures StampFree(xs[i])
      {
        DocumentIsStampFree(xs[i]);
      }
    case Dict(_, es) =>
      forall i | 0 <= i < |es|
        ensures StampFree(es[i].value)
      {
        DocumentIsStampFree(es[i].value);
      }
    case _ =>
  }

  /** The text of a freshly built map does not depend on the timestamp formatter installed. */
  lemma BuiltMapIgnoresFormatter(
    fields: seq<Field>, prefix: string, table: Table, zone: TimeZone,
    textTable: Table, f: DateTime -> string, g: DateTime -> string)
    requires BuildFields(fields, prefix, table, zone).Ok?
    ensures var out := BuildFields(fields, prefix, table, zone).value;
      ToJsonText(out, "", textTable, f) == ToJsonText(out, "", textTable, g)
  {
    var out := BuildFields(fields, prefix, table, zone).value;
    BuildProducesDocuments(fields, prefix, table, zone);
    forall i | 0 <= i < |out|
      ensures StampFree(out[i].value)
    {
      DocumentIsStampFree(out[i].value);
    }
    FormatterIrrelevant(out, "", textTable, f, g);
  }

  /**
   * Renaming at depth: with the table `{"a.b": "bb"}`, the record
   * `{a: {b: 1}}` is built into `{a: {bb: 1}}`, whose text has the key `"bb"`
   * nested under `"a"`.
   */
  lemma RenameAtDepth(zone: TimeZone, fmt: DateTime -> string)
    ensures var table := map["a.b" := "bb"];
      var record := [Field("a", Record([Field("b", Long(1))]))];
      var built := [Field("a", Dict(Objects, [Field("bb", Long(1))]))];
      && BuildFields(record, "", table, zone) == Ok(built)
      && ToJsonText(built, "", table, fmt) == "{\"a\": {\"bb\": 1}}"
  {
    NestedRecordBuilds(zone);
    NestedMapText(fmt);
  }

  lemma NestedRecordBuilds(zone: TimeZone)
    ensures BuildFields([Field("a", Record([Field("b", Long(1))]))], "", map["a.b" := "bb"], zone)
      == Ok([Field("a", Dict(Objects, [Field("bb", Long(1))]))])
  {
    var table := map["a.b" := "bb"];
    var inner := [Field("b", Long(1))];
    var record := [Field("a", Record(inner))];
    assert ChildPath("", "a") == "a";
    assert ChildPath("a", "b") == "a.b";
    OneField(inner[0], "a", table, zone);
    assert inner == [inner[0]];
    assert ParseFirestoreObject(Record(inner), "a", table, zone) == Ok(Dict(Objects, [Field("bb", Long(1))]));
    OneField(record[0], "", table, zone);
    assert record == [record[0]];
  }

  lemma NestedMapText(fmt: DateTime -> string)
    ensures ToJsonText([Field("a", Dict(Objects, [Field("bb", Long(1))]))], "", map["a.b" := "bb"], fmt)
      == "{\"a\": {\"bb\": 1}}"
  {
    var table := map["a.b" := "bb"];
    var inner := Field("bb", Long(1));
    var outer := Field("a", Dict(Objects, [inner]));
    calc {
      ToJsonText([outer], "", table, fmt);
      == { SingleEntryText(outer, "", table, fmt); }
      "{" + EntryText(outer, "", table, fmt) + "}";
      == { OuterEntryText(fmt); }
      "{" + ("\"a\": " + ToJsonText([inner], "a", table, fmt)) + "}";
      == { SingleEntryText(inner, "a", table, fmt); InnerEntryText(fmt); }
      "{" + ("\"a\": " + ("{" + "\"bb\": 1" + "}")) + "}";
      == "{\"a\": {\"bb\": 1}}";
    }
  }

  lemma InnerEntryText(fmt: DateTime -> string)
    ensures EntryText(Field("bb", Long(1)), "a", map["a.b" := "bb"], fmt) == "\"bb\": 1"
  {
    assert ChildPath("a", "bb") == "a.bb";
    assert Decimal(1) == "1";
  }

  lemma OuterEntryText(fmt: DateTime -> string)
    ensures var table := map["a.b" := "bb"];
      EntryText(Field("a", Dict(Objects, [Field("bb", Long(1))])), "", table, fmt)
        == "\"a\": " + ToJsonText([Field("bb", Long(1))], "a", table, fmt)
  {
    assert ChildPath("", "a") == "a";
  }

  /** A record with one property is built into a map with one entry. */
  lemma OneField(f: Field, prefix: string, table: Table, zone: TimeZone)
    requires ParseFirestoreObject(f.value, ChildPath(prefix, f.name), table, zone).Ok?
    ensures var path := ChildPath(prefix, f.name);
      BuildFields([f], prefix, table, zone)
        == Ok([Field(Rename(table, path, f.name), ParseFirestoreObject(f.value, path, table, zone).value)])
  {
    var path := ChildPath(prefix, f.name);
    var entry := Field(Rename(table, path, f.name), ParseFirestoreObject(f.value, path, table, zone).value);
    assert [f][..0] == [];
    assert BuildFields([f][..0], prefix, table, zone) == Ok([]);
    assert Names([]) == [];
    assert [] + [entry] == [entry];
  }

  /**
   * Reusing one table for both passes renames twice: a key the builder
   * produced is looked up again by the encoder at its new path. With
   * `{"a": "b", "b": "c"}`, the property `a` is stored as `b` and written as `c`.
   */
  lemma SameTableRenamesTwice(zone: TimeZone, fmt: DateTime -> string)
    ensures var table := map["a" := "b", "b" := "c"];
      var record := [Field("a", Bool(true))];
      && BuildFields(record, "", table, zone) == Ok([Field("b", Bool(true))])
      && ToJsonText([Field("b", Bool(true))], "", table, fmt) == "{\"c\": true}"
  {
    var table := map["a" := "b", "b" := "c"];
    assert ChildPath("", "a") == "a" && ChildPath("", "b") == "b";
    OneField(Field("a", Bool(true)), "", table, zone);
    assert EntryText(Field("b", Bool(true)), "", table, fmt) == "\"c\": true";
  }

  /**
   * A `DateTime` stays a `DateTime` in the built map, and the encoder has no
   * text for it: an entry holding one is written with nothing after the colon.
   */
  lemma BuiltDateHasNoText(zone: TimeZone, fmt: DateTime -> string, d: DateTime)
    ensures var built := BuildFields([Field("at", Date(d))], "", map[], zone);
      && built == Ok([Field("at", Date(ToUniversalTime(d, zone)))])
      && ToJsonText(built.value, "", map[], fmt) == "{\"at\": }"
  {
    assert ChildPath("", "at") == "at";
    OneField(Field("at", Date(d)), "", map[], zone);
    assert EntryValue(Date(ToUniversalTime(d, zone)), "at", map[], fmt) == "";
    assert EntryText(Field("at", Date(ToUniversalTime(d, zone))), "", map[], fmt) == "\"at\": ";
  }

  /** A `null` element of a list has no text either: `[null, "x"]` is written `[,"x"]`. */
  lemma NullListElementHasNoText(fmt: DateTime -> string)
    ensures EntryValue(ObjList([Null, Str("x")]), "", map[], fmt) == "[,\"x\"]"
  {
    var xs := [Null, Str("x")];
    assert xs[..1] == [Null] && [Null][..0] == [];
    assert JsonValues([Null][..0], "", map[], fmt) == [];
    assert JsonValues([Null], "", map[], fmt) == [""];
    assert JsonValue(Str("x"), "", map[], fmt) == "\"x\"";
    assert JsonValues(xs, "", map[], fmt) == ["", "\"x\""];
    assert Join(",", ["", "\"x\""]) == "" + "," + "\"x\"";
  }
}
