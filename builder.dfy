/**
 * The document builder: `ToFirestoreObject` and `ParseFirestoreObject` of
 * Wrapper.cs, as functions. `BuildFields` is what `ToFirestoreObject` returns
 * for a record's properties; the loop that computes it is
 * `FirestoreDataWrapper.Wrapper.ToFirestoreObject`.
 */
module Builder {
  import opened Time
  import opened Values
  import opened Paths

  /**
   * Classifies one value found at `path`, first matching shape first:
   * lists, the three dictionary types, null, string, long, `DateTime`, bool,
   * and everything else as a nested record.
   */
  function ParseFirestoreObject(o: Obj, path: string, table: Table, zone: TimeZone): Result<Obj>
  {
    match o
    case ObjList(xs) =>
      (match ParseEach(xs, path, table, zone)
       case Ok(ys) => Ok(ObjList(ys))
       case Err(e) => Err(e))
    case LongList(ns) => Ok(ObjList(Boxed(ns)))
    case Dict(_, es) =>
      (match ParseEntries(es, path, table, zone)
       case Ok(out) => Ok(Dict(Objects, out))
       case Err(e) => Err(e))
    case Null => Ok(Null)
    case Str(_) => Ok(o)
    case Long(_) => Ok(o)
    case Date(d) => Ok(Date(ToUniversalTime(d, zone)))
    case Bool(_) => Ok(o)
    // A Timestamp matches none of the patterns above and is reflected as a record;
    // it has no public property, so it becomes an empty map.
    case Stamp(_) => Ok(Dict(Objects, []))
    case Record(fields) => AsMap(BuildFields(fields, path, table, zone))
  }

  function AsMap(r: Result<seq<Field>>): Result<Obj>
  {
    match r
    case Ok(fs) => Ok(Dict(Objects, fs))
    case Err(e) => Err(e)
  }

  /** Each `long` of an `IEnumerable<long>`, boxed; a boxed long classifies as itself. */
  function Boxed(ns: seq<int64>): seq<Obj>
  {
    seq(|ns|, i requires 0 <= i < |ns| => Long(ns[i]))
  }

  /** `Select(...).ToList()` over a list: every element classified at the list's own path. */
  function ParseEach(xs: seq<Obj>, path: string, table: Table, zone: TimeZone): Result<seq<Obj>>
  {
    if |xs| == 0 then Ok([])
    else
      match ParseEach(xs[..|xs| - 1], path, table, zone)
      case Err(e) => Err(e)
      case Ok(ys) =>
        match ParseFirestoreObject(xs[|xs| - 1], path, table, zone)
        case Err(e) => Err(e)
        case Ok(y) => Ok(ys + [y])
  }

  /** `ToDictionary` over a dictionary: keys kept, each value classified at `path.key`. */
  function ParseEntries(es: seq<Field>, path: string, table: Table, zone: TimeZone): Result<seq<Field>>
  {
    if |es| == 0 then Ok([])
    else
      match ParseEntries(es[..|es| - 1], path, table, zone)
      case Err(e) => Err(e)
      case Ok(out) =>
        var e := es[|es| - 1];
        match ParseFirestoreObject(e.value, ChildPath(path, e.name), table, zone)
        case Err(err) => Err(err)
        case Ok(v) => if e.name in Names(out) then Err(DuplicateKey(e.name)) else Ok(out + [Field(e.name, v)])
  }

  /**
   * The map `ToFirestoreObject` fills for a record's properties: for each
   * property in order, the key the table chooses for its path and its
   * classified value; `Add` throws on a key already present.
   */
  function BuildFields(fields: seq<Field>, prefix: string, table: Table, zone: TimeZone): Result<seq<Field>>
  {
    if |fields| == 0 then Ok([])
    else
      match BuildFields(fields[..|fields| - 1], prefix, table, zone)
      case Err(e) => Err(e)
      case Ok(out) =>
        var f := fields[|fields| - 1];
        var path := ChildPath(prefix, f.name);
        var key := Rename(table, path, f.name);
        match ParseFirestoreObject(f.value, path, table, zone)
        case Err(err) => Err(err)
        case Ok(v) => if key in Names(out) then Err(DuplicateKey(key)) else Ok(out + [Field(key, v)])
  }

  // ---------------------------------------------------------------------------
  // What each pass promises

  /** The key each property is stored under. */
  function RenamedKeys(fields: seq<Field>, prefix: string, table: Table): seq<string>
  {
    seq(|fields|, i requires 0 <= i < |fields| => Rename(table, ChildPath(prefix, fields[i].name), fields[i].name))
  }

  /** Every property's value classifies without error. */
  predicate FieldsParse(fields: seq<Field>, prefix: string, table: Table, zone: TimeZone) {
    forall i :: 0 <= i < |fields| ==> ParseFirestoreObject(fields[i].value, ChildPath(prefix, fields[i].name), table, zone).Ok?
  }

  predicate Repeats(keys: seq<string>, k: string) {
    exists i, j :: 0 <= i < j < |keys| && keys[i] == k && keys[j] == k
  }

  lemma NamesSnoc(fs: seq<Field>, f: Field)
    ensures Names(fs + [f]) == Names(fs) + [f.name]
  {
    assert (fs + [f])[..|fs|] == fs;
  }

  lemma NoDuplicatesSnoc(keys: seq<string>, k: string)
    requires NoDuplicates(keys) && k !in keys
    ensures NoDuplicates(keys + [k])
  {
  }

  lemma RenamedKeysPrefix(fields: seq<Field>, prefix: string, table: Table)
    requires |fields| > 0
    ensures var n := |fields|;
      RenamedKeys(fields, prefix, table) == RenamedKeys(fields[..n - 1], prefix, table) +
        [Rename(table, ChildPath(prefix, fields[n - 1].name), fields[n - 1].name)]
  {
  }

  /** Each entry's value classifies at `prefix.name`, to the value at the same position of `out`. */
  predicate ValuesParsed(es: seq<Field>, out: seq<Field>, prefix: string, table: Table, zone: TimeZone)
    requires |out| == |es|
  {
    forall i :: 0 <= i < |es| ==>
      && ParseFirestoreObject(es[i].value, ChildPath(prefix, es[i].name), table, zone).Ok?
      && out[i].value == ParseFirestoreObject(es[i].value, ChildPath(prefix, es[i].name), table, zone).value
  }

  lemma ValuesParsedSnoc(es: seq<Field>, out: seq<Field>, e: Field, key: string, prefix: string, table: Table, zone: TimeZone,
                         es': seq<Field>, out': seq<Field>)
    requires |out| == |es| && ValuesParsed(es, out, prefix, table, zone)
    requires ParseFirestoreObject(e.value, ChildPath(prefix, e.name), table, zone).Ok?
    requires es' == es + [e]
    requires out' == out + [Field(key, ParseFirestoreObject(e.value, ChildPath(prefix, e.name), table, zone).value)]
    ensures |out'| == |es'| && ValuesParsed(es', out', prefix, table, zone)
  {
    forall i | 0 <= i < |es'|
      ensures ParseFirestoreObject(es'[i].value, ChildPath(prefix, es'[i].name), table, zone).Ok?
      ensures out'[i].value == ParseFirestoreObject(es'[i].value, ChildPath(prefix, es'[i].name), table, zone).value
    {
      if i < |es| {
        assert es'[i] == es[i];
      }
    }
  }

  /** A successful build has one entry per property, keyed by the renamed keys, none repeated. */
  lemma {:induction false} BuildFieldsOk(fields: seq<Field>, prefix: string, table: Table, zone: TimeZone)
    requires BuildFields(fields, prefix, table, zone).Ok?
    ensures var out := BuildFields(fields, prefix, table, zone).value;
      && FieldsParse(fields, prefix, table, zone)
      && Names(out) == RenamedKeys(fields, prefix, table)
      && NoDuplicates(Names(out))
      && forall i :: 0 <= i < |fields| ==>
           out[i].value == ParseFirestoreObject(fields[i].value, ChildPath(prefix, fields[i].name), table, zone).value
  {
    var n := |fields|;
    if n > 0 {
      var init := fields[..n - 1];
      var f := fields[n - 1];
      var path := ChildPath(prefix, f.name);
      var key := Rename(table, path, f.name);
      var pv := ParseFirestoreObject(f.value, path, table, zone);
      var prev := BuildFields(init, prefix, table, zone);
      assert prev.Ok? && pv.Ok?;
      BuildFieldsOk(init, prefix, table, zone);
      var out := prev.value;
      assert key !in Names(out);
      var r := out + [Field(key, pv.value)];
      assert BuildFields(fields, prefix, table, zone).value == r;
      NamesSnoc(out, Field(key, pv.value));
      RenamedKeysPrefix(fields, prefix, table);
      NoDuplicatesSnoc(Names(out), key);
      forall i | 0 <= i < n
        ensures ParseFirestoreObject(fields[i].value, ChildPath(prefix, fields[i].name), table, zone).Ok?
        ensures r[i].value == ParseFirestoreObject(fields[i].value, ChildPath(prefix, fields[i].name), table, zone).value
      {
        if i < n - 1 {
          assert fields[i] == init[i];
        }
      }
    }
  }

  /** When every value classifies, a failed build names a key that two properties share. */
  lemma {:induction false} BuildFieldsErr(fields: seq<Field>, prefix: string, table: Table, zone: TimeZone)
    requires BuildFields(fields, prefix, table, zone).Err?
    requires FieldsParse(fields, prefix, table, zone)
    ensures Repeats(RenamedKeys(fields, prefix, table), BuildFields(fields, prefix, table, zone).error.key)
  {
    var n := |fields|;
    var init := fields[..n - 1];
    assert FieldsParse(init, prefix, table, zone) by {
      forall i | 0 <= i < n - 1
        ensures ParseFirestoreObject(init[i].value, ChildPath(prefix, init[i].name), table, zone).Ok?
      {
        assert init[i] == fields[i];
      }
    }
    var prev := BuildFields(init, prefix, table, zone);
    if prev.Err? {
      var keys := RenamedKeys(fields, prefix, table);
      RenamedKeysPrefix(fields, prefix, table);
      assert BuildFields(fields, prefix, table, zone) == prev;
      BuildFieldsErr(init, prefix, table, zone);
      var i, j :| 0 <= i < j < n - 1 && keys[..n - 1][i] == prev.error.key && keys[..n - 1][j] == prev.error.key;
      assert keys[i] == prev.error.key && keys[j] == prev.error.key;
    } else {
      LastKeyRepeats(fields, prefix, table, zone);
    }
  }

  /** When every earlier property went in, the failure is the last key, which repeats an earlier one. */
  lemma LastKeyRepeats(fields: seq<Field>, prefix: string, table: Table, zone: TimeZone)
    requires |fields| > 0 && BuildFields(fields, prefix, table, zone).Err?
    requires FieldsParse(fields, prefix, table, zone)
    requires BuildFields(fields[..|fields| - 1], prefix, table, zone).Ok?
    ensures Repeats(RenamedKeys(fields, prefix, table), BuildFields(fields, prefix, table, zone).error.key)
  {
    var n := |fields|;
    var init := fields[..n - 1];
    var keys := RenamedKeys(fields, prefix, table);
    var f := fields[n - 1];
    var path := ChildPath(prefix, f.name);
    var key := Rename(table, path, f.name);
    var prev := BuildFields(init, prefix, table, zone);
    var pv := ParseFirestoreObject(f.value, path, table, zone);
    assert pv.Ok?;
    assert fields[..n] == fields;
    BuildFieldsNext(fields, n - 1, prefix, table, zone, prev.value, key, pv);
    assert BuildFields(fields, prefix, table, zone) == Err(DuplicateKey(key));
    var earlier := RenamedKeys(init, prefix, table);
    BuildFieldsOk(init, prefix, table, zone);
    assert key in earlier;
    RenamedKeysPrefix(fields, prefix, table);
    assert keys == earlier + [key];
    var i :| 0 <= i < |earlier| && earlier[i] == key;
    assert keys[i] == key && keys[n - 1] == key;
  }

  /**
   * `ToFirestoreObject` succeeds exactly when every value classifies and no
   * two properties get the same key; it then holds one entry per property,
   * in property order, keyed by the renamed key. When only the keys clash, the
   * error names a key that occurs twice.
   */
  lemma BuildFieldsSpec(fields: seq<Field>, prefix: string, table: Table, zone: TimeZone)
    ensures var r := BuildFields(fields, prefix, table, zone);
      r.Ok? <==> FieldsParse(fields, prefix, table, zone) && NoDuplicates(RenamedKeys(fields, prefix, table))
    ensures var r := BuildFields(fields, prefix, table, zone);
      r.Ok? ==>
        && Names(r.value) == RenamedKeys(fields, prefix, table)
        && forall i :: 0 <= i < |fields| ==>
             r.value[i].value == ParseFirestoreObject(fields[i].value, ChildPath(prefix, fields[i].name), table, zone).value
    ensures var r := BuildFields(fields, prefix, table, zone);
      r.Err? && FieldsParse(fields, prefix, table, zone) ==> Repeats(RenamedKeys(fields, prefix, table), r.error.key)
  {
    if BuildFields(fields, prefix, table, zone).Ok? {
      BuildFieldsOk(fields, prefix, table, zone);
    } else if FieldsParse(fields, prefix, table, zone) {
      BuildFieldsErr(fields, prefix, table, zone);
    }
  }

  /** A successful `Select(...).ToList()` keeps every element's position, each classified at the same path. */
  lemma {:induction false} ParseEachOk(xs: seq<Obj>, path: string, table: Table, zone: TimeZone)
    requires ParseEach(xs, path, table, zone).Ok?
    ensures var ys := ParseEach(xs, path, table, zone).value;
      && |ys| == |xs|
      && forall i :: 0 <= i < |xs| ==>
           ParseFirestoreObject(xs[i], path, table, zone).Ok? && ys[i] == ParseFirestoreObject(xs[i], path, table, zone).value
  {
    var n := |xs|;
    if n > 0 {
      var init := xs[..n - 1];
      ParseEachOk(init, path, table, zone);
      forall i | 0 <= i < n - 1
        ensures xs[i] == init[i]
      {
      }
    }
  }

  /** A list whose every element classifies classifies. */
  lemma {:induction false} ParseEachSucceeds(xs: seq<Obj>, path: string, table: Table, zone: TimeZone)
    requires forall i :: 0 <= i < |xs| ==> ParseFirestoreObject(xs[i], path, table, zone).Ok?
    ensures ParseEach(xs, path, table, zone).Ok?
  {
    var n := |xs|;
    if n > 0 {
      var init := xs[..n - 1];
      forall i | 0 <= i < n - 1
        ensures ParseFirestoreObject(init[i], path, table, zone).Ok?
      {
        assert init[i] == xs[i];
      }
      ParseEachSucceeds(init, path, table, zone);
    }
  }

  /** One step of a successful `ToDictionary`: the entries before the last succeed, and the last is appended. */
  lemma ParseEntriesStep(es: seq<Field>, path: string, table: Table, zone: TimeZone)
    requires |es| > 0 && ParseEntries(es, path, table, zone).Ok?
    ensures var e := es[|es| - 1];
      var prev := ParseEntries(es[..|es| - 1], path, table, zone);
      var pv := ParseFirestoreObject(e.value, ChildPath(path, e.name), table, zone);
      && prev.Ok? && pv.Ok? && e.name !in Names(prev.value)
      && ParseEntries(es, path, table, zone).value == prev.value + [Field(e.name, pv.value)]
  {
  }

  /** A successful `ToDictionary` keeps the keys and their order, each value classified at `path.key`. */
  lemma ParseEntriesOk(es: seq<Field>, path: string, table: Table, zone: TimeZone)
    requires ParseEntries(es, path, table, zone).Ok?
    ensures var out := ParseEntries(es, path, table, zone).value;
      && Names(out) == Names(es)
      && NoDuplicates(Names(es))
      && forall i :: 0 <= i < |es| ==>
           && ParseFirestoreObject(es[i].value, ChildPath(path, es[i].name), table, zone).Ok?
           && out[i].value == ParseFirestoreObject(es[i].value, ChildPath(path, es[i].name), table, zone).value
  {
    ParseEntriesKeys(es, path, table, zone);
    ParseEntriesValues(es, path, table, zone);
  }

  lemma {:induction false} ParseEntriesKeys(es: seq<Field>, path: string, table: Table, zone: TimeZone)
    requires ParseEntries(es, path, table, zone).Ok?
    ensures Names(ParseEntries(es, path, table, zone).value) == Names(es)
    ensures NoDuplicates(Names(es))
  {
    var n := |es|;
    if n > 0 {
      var init := es[..n - 1];
      var e := es[n - 1];
      ParseEntriesStep(es, path, table, zone);
      ParseEntriesKeys(init, path, table, zone);
      var out := ParseEntries(init, path, table, zone).value;
      var v := ParseFirestoreObject(e.value, ChildPath(path, e.name), table, zone).value;
      assert es == init + [e];
      NamesSnoc(out, Field(e.name, v));
      NamesSnoc(init, e);
      NoDuplicatesSnoc(Names(out), e.name);
    }
  }

  lemma {:induction false} ParseEntriesValues(es: seq<Field>, path: string, table: Table, zone: TimeZone)
    requires ParseEntries(es, path, table, zone).Ok?
    ensures |ParseEntries(es, path, table, zone).value| == |es|
    ensures ValuesParsed(es, ParseEntries(es, path, table, zone).value, path, table, zone)
  {
    var n := |es|;
    if n > 0 {
      var init := es[..n - 1];
      var e := es[n - 1];
      ParseEntriesStep(es, path, table, zone);
      ParseEntriesValues(init, path, table, zone);
      assert es == init + [e];
      ValuesParsedSnoc(init, ParseEntries(init, path, table, zone).value, e, e.name, path, table, zone,
                       es, ParseEntries(es, path, table, zone).value);
    }
  }

  /** A dictionary with distinct keys whose every value classifies classifies. */
  lemma {:induction false} ParseEntriesSucceeds(es: seq<Field>, path: string, table: Table, zone: TimeZone)
    requires NoDuplicates(Names(es))
    requires forall i :: 0 <= i < |es| ==> ParseFirestoreObject(es[i].value, ChildPath(path, es[i].name), table, zone).Ok?
    ensures ParseEntries(es, path, table, zone).Ok?
  {
    var n := |es|;
    if n > 0 {
      var init := es[..n - 1];
      var e := es[n - 1];
      assert es == init + [e];
      NamesSnoc(init, e);
      forall i | 0 <= i < n - 1
        ensures ParseFirestoreObject(init[i].value, ChildPath(path, init[i].name), table, zone).Ok?
      {
        assert init[i] == es[i];
      }
      assert NoDuplicates(Names(init)) by {
        assert Names(init) == Names(es)[..n - 1];
      }
      ParseEntriesSucceeds(init, path, table, zone);
      ParseEntriesOk(init, path, table, zone);
      assert e.name !in Names(init) by {
        assert Names(es)[n - 1] == e.name;
      }
    }
  }

  // ---------------------------------------------------------------------------
  // The builder's output lies in the Firestore document model

  /**
   * A Firestore-style document value: null, string, long, bool, a UTC
   * `DateTime`, a `List<object>` of documents, or a `Dictionary<string, object>`
   * of documents with distinct keys.
   */
  predicate IsDocument(o: Obj)
  {
    match o
    case Null => true
    case Str(_) => true
    case Long(_) => true
    case Bool(_) => true
    case Date(d) => d.kind == Utc
    case ObjList(xs) => forall i :: 0 <= i < |xs| ==> IsDocument(xs[i])
    case Dict(kind, es) =>
      kind == Objects && NoDuplicates(Names(es)) && forall i :: 0 <= i < |es| ==> IsDocument(es[i].value)
    case _ => false
  }

  /** Whatever the builder classifies successfully is a document: no record, typed dictionary, `long` list or timestamp is left. */
  lemma {:induction false} ParseProducesDocument(o: Obj, path: string, table: Table, zone: TimeZone)
    requires ParseFirestoreObject(o, path, table, zone).Ok?
    ensures IsDocument(ParseFirestoreObject(o, path, table, zone).value)
    decreases o
  {
    match o
    case ObjList(xs) =>
      ParseEachOk(xs, path, table, zone);
      forall i | 0 <= i < |xs|
        ensures IsDocument(ParseFirestoreObject(xs[i], path, table, zone).value)
      {
        ParseProducesDocument(xs[i], path, table, zone);
      }
    case LongList(ns) =>
    case Dict(_, es) =>
      ParseEntriesOk(es, path, table, zone);
      forall i | 0 <= i < |es|
        ensures IsDocument(ParseFirestoreObject(es[i].value, ChildPath(path, es[i].name), table, zone).value)
      {
        ParseProducesDocument(es[i].value, ChildPath(path, es[i].name), table, zone);
      }
    case Record(fields) =>
      BuildProducesDocuments(fields, path, table, zone);
    case _ =>
  }

  /** `ToFirestoreObject`'s map is a document map: distinct keys, document values. */
  lemma {:induction false} BuildProducesDocuments(fields: seq<Field>, prefix: string, table: Table, zone: TimeZone)
    requires BuildFields(fields, prefix, table, zone).Ok?
    ensures IsDocument(Dict(Objects, BuildFields(fields, prefix, table, zone).value))
    decreases fields
  {
    BuildFieldsOk(fields, prefix, table, zone);
    var out := BuildFields(fields, prefix, table, zone).value;
    forall i | 0 <= i < |fields|
      ensures IsDocument(out[i].value)
    {
      ParseProducesDocument(fields[i].value, ChildPath(prefix, fields[i].name), table, zone);
    }
  }

  /**
   * Documents are fixed points of the classification: classifying the
   * builder's output again, at any path and with any table, changes nothing.
   */
  lemma {:induction false} ParseKeepsDocument(doc: Obj, path: string, table: Table, zone: TimeZone)
    requires IsDocument(doc)
    ensures ParseFirestoreObject(doc, path, table, zone) == Ok(doc)
    decreases doc
  {
    match doc
    case ObjList(xs) =>
      forall i | 0 <= i < |xs|
        ensures ParseFirestoreObject(xs[i], path, table, zone) == Ok(xs[i])
      {
        ParseKeepsDocument(xs[i], path, table, zone);
      }
      ParseEachSucceeds(xs, path, table, zone);
      ParseEachOk(xs, path, table, zone);
      assert ParseEach(xs, path, table, zone).value == xs;
    case Dict(_, es) =>
      forall i | 0 <= i < |es|
        ensures ParseFirestoreObject(es[i].value, ChildPath(path, es[i].name), table, zone) == Ok(es[i].value)
      {
        ParseKeepsDocument(es[i].value, ChildPath(path, es[i].name), table, zone);
      }
      ParseEntriesSucceeds(es, path, table, zone);
      ParseEntriesOk(es, path, table, zone);
      var out := ParseEntries(es, path, table, zone).value;
      assert |out| == |es| by {
        assert |Names(out)| == |Names(es)|;
      }
      forall i | 0 <= i < |es|
        ensures out[i] == es[i]
      {
        assert out[i].name == Names(out)[i] == Names(es)[i] == es[i].name;
      }
      assert out == es;
      assert doc == Dict(Objects, es);
    case _ =>
  }

  /** Classifying is idempotent. */
  lemma ParseIdempotent(o: Obj, path: string, table: Table, zone: TimeZone)
    requires ParseFirestoreObject(o, path, table, zone).Ok?
    ensures var r := ParseFirestoreObject(o, path, table, zone).value;
      ParseFirestoreObject(r, path, table, zone) == Ok(r)
  {
    ParseProducesDocument(o, path, table, zone);
    ParseKeepsDocument(ParseFirestoreObject(o, path, table, zone).value, path, table, zone);
  }

  /** One more property: what `ToFirestoreObject`'s loop does with property `k` once the first `k` are in the map. */
  lemma BuildFieldsNext(fields: seq<Field>, k: nat, prefix: string, table: Table, zone: TimeZone, out: seq<Field>,
                        key: string, pv: Result<Obj>)
    requires k < |fields| && BuildFields(fields[..k], prefix, table, zone) == Ok(out)
    requires key == Rename(table, ChildPath(prefix, fields[k].name), fields[k].name)
    requires pv == ParseFirestoreObject(fields[k].value, ChildPath(prefix, fields[k].name), table, zone)
    ensures BuildFields(fields[..k + 1], prefix, table, zone) ==
      if pv.Err? then Err(pv.error)
      else if key in Names(out) then Err(DuplicateKey(key))
      else Ok(out + [Field(key, pv.value)])
  {
    assert fields[..k + 1][..k] == fields[..k];
  }

  /** The first exception aborts the conversion: once a prefix of the properties fails, the whole record fails the same way. */
  lemma {:induction false} BuildFieldsErrPersists(fields: seq<Field>, k: nat, prefix: string, table: Table, zone: TimeZone)
    requires k <= |fields|
    requires BuildFields(fields[..k], prefix, table, zone).Err?
    ensures BuildFields(fields, prefix, table, zone) == BuildFields(fields[..k], prefix, table, zone)
    decreases |fields|
  {
    if k < |fields| {
      var init := fields[..|fields| - 1];
      assert init[..k] == fields[..k];
      BuildFieldsErrPersists(init, k, prefix, table, zone);
    } else {
      assert fields[..k] == fields;
    }
  }
}
