/**
 * What `ToJson` promises about its text: for a map whose every value has a
 * text, the result is a JSON object that reads back to the map's JSON
 * meaning (section 4 of RFC 8259). Keys and values appear in map order, with
 * keys renamed, strings and numbers as they are, and timestamps as the
 * formatter's text.
 */
module Readback {
  import opened Wrappers
  import opened Text
  import opened Time
  import opened Values
  import opened Paths
  import opened Encoder
  import opened JsonReader

  // ---------------------------------------------------------------------------
  // Which maps have a JSON text

  /**
   * Every key, after renaming, and every value of the map can be written
   * without escapes.
   */
  predicate EncodableMap(data: seq<Field>, prefix: string, table: Table, fmt: DateTime -> string)
    decreases data, 0
  {
    forall i :: 0 <= i < |data| ==>
      && Plain(Rename(table, ChildPath(prefix, data[i].name), data[i].name))
      && EncodableEntry(data[i].value, ChildPath(prefix, data[i].name), table, fmt)
  }

  /**
   * An entry's value has a text: a list of values that have one, a `long`
   * list, `null`, or a value that has a text of its own.
   */
  predicate EncodableEntry(v: Obj, path: string, table: Table, fmt: DateTime -> string)
    decreases v, 2
  {
    match v
    case ObjList(xs) => forall i :: 0 <= i < |xs| ==> EncodableValue(xs[i], path, table, fmt)
    case LongList(_) => true
    case Null => true
    case _ => EncodableValue(v, path, table, fmt)
  }

  /**
   * `ParseJsonValue` has a text for the value: a plain string, a `long`, a
   * bool, a timestamp the formatter writes plainly, or an encodable map.
   * `null`, `DateTime`, lists and records have none.
   */
  predicate EncodableValue(v: Obj, path: string, table: Table, fmt: DateTime -> string)
    decreases v, 1
  {
    match v
    case Str(s) => Plain(s)
    case Long(_) => true
    case Bool(_) => true
    case Stamp(t) => Plain(fmt(ToDateTime(t)))
    case Dict(Objects, es) => EncodableMap(es, path, table, fmt)
    case _ => false
  }

  // ---------------------------------------------------------------------------
  // The JSON meaning of a map

  /** The members of a map: renamed keys, in map order. */
  function MembersOf(data: seq<Field>, prefix: string, table: Table, fmt: DateTime -> string): (ms: seq<Member>)
    ensures |ms| == |data|
    decreases data, 0
  {
    if |data| == 0 then []
    else
      [MemberOf(data[0], prefix, table, fmt)] + MembersOf(data[1..], prefix, table, fmt)
  }

  /** One member: the renamed key, and the value's meaning at `prefix.name`. */
  function MemberOf(item: Field, prefix: string, table: Table, fmt: DateTime -> string): Member
    decreases item
  {
    var path := ChildPath(prefix, item.name);
    Member(Rename(table, path, item.name), EntryMeaning(item.value, path, table, fmt))
  }

  function EntryMeaning(v: Obj, path: string, table: Table, fmt: DateTime -> string): Json
    decreases v, 2
  {
    match v
    case ObjList(xs) => JArr(ValueMeanings(xs, path, table, fmt))
    case LongList(ns) => JArr(Numbers(ns))
    case Null => JNull
    case _ => ValueMeaning(v, path, table, fmt)
  }

  function ValueMeaning(v: Obj, path: string, table: Table, fmt: DateTime -> string): Json
    decreases v, 1
  {
    match v
    case Str(s) => JStr(s)
    case Long(n) => JNum(n as int)
    case Bool(b) => JBool(b)
    case Stamp(t) => JStr(fmt(ToDateTime(t)))
    case Dict(Objects, es) => JObj(MembersOf(es, path, table, fmt))
    case _ => JNull
  }

  function Numbers(ns: seq<int64>): (js: seq<Json>)
    ensures |js| == |ns|
  {
    if |ns| == 0 then [] else [JNum(ns[0] as int)] + Numbers(ns[1..])
  }

  function ValueMeanings(xs: seq<Obj>, path: string, table: Table, fmt: DateTime -> string): (js: seq<Json>)
    ensures |js| == |xs|
    decreases xs, 0
  {
    if |xs| == 0 then [] else [ValueMeaning(xs[0], path, table, fmt)] + ValueMeanings(xs[1..], path, table, fmt)
  }

  // ---------------------------------------------------------------------------
  // The text reads back

  /** What may follow a value's text: nothing, or a character that cannot continue a number. */
  predicate Stops(rest: string) {
    |rest| == 0 || !IsDigit(rest[0])
  }

  /**
   * The text of an encodable map is one JSON object, whose members are the
   * map's entries: renamed keys, in map order, with their values' meanings.
   */
  lemma ToJsonTextParses(data: seq<Field>, prefix: string, table: Table, fmt: DateTime -> string)
    requires EncodableMap(data, prefix, table, fmt)
    ensures ParseJson(ToJsonText(data, prefix, table, fmt)) == Some(JObj(MembersOf(data, prefix, table, fmt)))
  {
    var text := ToJsonText(data, prefix, table, fmt);
    MapReads(data, prefix, table, fmt, "");
    assert text + "" == text;
  }

  /** The text of an encodable map, then anything, reads back as the object of its members. */
  lemma {:induction false} MapReads(data: seq<Field>, prefix: string, table: Table, fmt: DateTime -> string, rest: string)
    requires EncodableMap(data, prefix, table, fmt)
    ensures ParseValue(ToJsonText(data, prefix, table, fmt) + rest)
      == Some(Parsed(JObj(MembersOf(data, prefix, table, fmt)), rest))
    decreases data, 3
  {
    var texts := EntryTexts(data, prefix, table, fmt);
    var inner := Join(EntrySeparator, texts);
    ToJsonTextIsJoin(data, prefix, table, fmt);
    if |data| == 0 {
      assert inner == "";
      EmptyObjectReads(rest);
    } else {
      MembersRead(data, prefix, table, fmt, rest);
      assert texts[0] == EntryText(data[0], prefix, table, fmt);
      JoinStartsWithHead(EntrySeparator, texts);
      ObjectReads(inner, rest, MembersOf(data, prefix, table, fmt));
    }
  }

  /** The entries' texts joined by the separator, then `}`, read back as the members. */
  lemma {:induction false} MembersRead(data: seq<Field>, prefix: string, table: Table, fmt: DateTime -> string, rest: string)
    requires |data| > 0 && EncodableMap(data, prefix, table, fmt)
    ensures ParseMembers(Join(EntrySeparator, EntryTexts(data, prefix, table, fmt)) + "}" + rest)
      == Some(Parsed(MembersOf(data, prefix, table, fmt), rest))
    decreases data, 2
  {
    if |data| == 1 {
      OneMemberRead(data, prefix, table, fmt, rest);
    } else {
      var more := data[1..];
      assert EncodableMap(more, prefix, table, fmt) by {
        forall i | 0 <= i < |more|
          ensures Plain(Rename(table, ChildPath(prefix, more[i].name), more[i].name))
          ensures EncodableEntry(more[i].value, ChildPath(prefix, more[i].name), table, fmt)
        {
          assert more[i] == data[i + 1];
        }
      }
      MembersRead(more, prefix, table, fmt, rest);
      MoreMembersRead(data, prefix, table, fmt, rest);
    }
  }

  lemma OneMemberRead(data: seq<Field>, prefix: string, table: Table, fmt: DateTime -> string, rest: string)
    requires |data| == 1
    requires var path := ChildPath(prefix, data[0].name);
      Plain(Rename(table, path, data[0].name)) && EncodableEntry(data[0].value, path, table, fmt)
    ensures ParseMembers(Join(EntrySeparator, EntryTexts(data, prefix, table, fmt)) + "}" + rest)
      == Some(Parsed(MembersOf(data, prefix, table, fmt), rest))
    decreases data, 1
  {
    var texts := EntryTexts(data, prefix, table, fmt);
    assert texts[0] == EntryText(data[0], prefix, table, fmt);
    LastMemberReads(data[0], prefix, table, fmt, rest);
    assert Join(EntrySeparator, texts) == texts[0];
    assert MembersOf(data[1..], prefix, table, fmt) == [];
    assert MembersOf(data, prefix, table, fmt) == [MemberOf(data[0], prefix, table, fmt)];
  }

  lemma MoreMembersRead(data: seq<Field>, prefix: string, table: Table, fmt: DateTime -> string, rest: string)
    requires |data| > 1
    requires var path := ChildPath(prefix, data[0].name);
      Plain(Rename(table, path, data[0].name)) && EncodableEntry(data[0].value, path, table, fmt)
    requires ParseMembers(Join(EntrySeparator, EntryTexts(data[1..], prefix, table, fmt)) + "}" + rest)
      == Some(Parsed(MembersOf(data[1..], prefix, table, fmt), rest))
    ensures ParseMembers(Join(EntrySeparator, EntryTexts(data, prefix, table, fmt)) + "}" + rest)
      == Some(Parsed(MembersOf(data, prefix, table, fmt), rest))
    decreases data, 1
  {
    var texts := EntryTexts(data, prefix, table, fmt);
    var more := data[1..];
    assert texts[0] == EntryText(data[0], prefix, table, fmt);
    assert texts[1..] == EntryTexts(more, prefix, table, fmt);
    JoinHeadThen(EntrySeparator, texts, "}", rest);
    var tail := Join(EntrySeparator, EntryTexts(more, prefix, table, fmt)) + "}" + rest;
    NextMemberReads(data[0], prefix, table, fmt, tail, MembersOf(more, prefix, table, fmt), rest);
    assert MembersOf(data, prefix, table, fmt) == [MemberOf(data[0], prefix, table, fmt)] + MembersOf(more, prefix, table, fmt);
  }

  /** The last entry, then `}`. */
  lemma LastMemberReads(item: Field, prefix: string, table: Table, fmt: DateTime -> string, rest: string)
    requires var path := ChildPath(prefix, item.name);
      Plain(Rename(table, path, item.name)) && EncodableEntry(item.value, path, table, fmt)
    ensures ParseMembers(EntryText(item, prefix, table, fmt) + "}" + rest) == Some(Parsed([MemberOf(item, prefix, table, fmt)], rest))
    decreases item, 0
  {
    var path := ChildPath(prefix, item.name);
    EntryReads(item.value, path, table, fmt, "}" + rest);
    LastMember(Rename(table, path, item.name), EntryValue(item.value, path, table, fmt), rest, EntryMeaning(item.value, path, table, fmt));
  }

  /** An entry, then the separator and more members. */
  lemma NextMemberReads(item: Field, prefix: string, table: Table, fmt: DateTime -> string, tail: string, ms: seq<Member>, rest: string)
    requires var path := ChildPath(prefix, item.name);
      Plain(Rename(table, path, item.name)) && EncodableEntry(item.value, path, table, fmt)
    requires ParseMembers(tail) == Some(Parsed(ms, rest))
    ensures ParseMembers(EntryText(item, prefix, table, fmt) + EntrySeparator + tail)
      == Some(Parsed([MemberOf(item, prefix, table, fmt)] + ms, rest))
    decreases item, 0
  {
    var path := ChildPath(prefix, item.name);
    EntryReads(item.value, path, table, fmt, EntrySeparator + tail);
    NextMember(Rename(table, path, item.name), EntryValue(item.value, path, table, fmt), tail, EntryMeaning(item.value, path, table, fmt), ms, rest);
  }

  lemma {:induction false} JoinStartsWithHead(sep: string, parts: seq<string>)
    requires |parts| > 0 && |parts[0]| > 0
    ensures |Join(sep, parts)| > 0 && Join(sep, parts)[0] == parts[0][0]
  {
  }

  /** The text of an entry's value, followed by a character that cannot continue a number, reads back as its meaning. */
  lemma {:induction false} EntryReads(v: Obj, path: string, table: Table, fmt: DateTime -> string, after: string)
    requires EncodableEntry(v, path, table, fmt) && Stops(after)
    ensures ParseValue(EntryValue(v, path, table, fmt) + after) == Some(Parsed(EntryMeaning(v, path, table, fmt), after))
    decreases v, 1
  {
    match v
    case ObjList(xs) =>
      ListReads(xs, path, table, fmt, after);
    case LongList(ns) =>
      LongListReads(ns, after);
    case Null =>
      NullReads(after);
    case Str(_) =>
      ValueReads(v, path, table, fmt, after);
    case Long(_) =>
      ValueReads(v, path, table, fmt, after);
    case Bool(_) =>
      ValueReads(v, path, table, fmt, after);
    case Stamp(_) =>
      ValueReads(v, path, table, fmt, after);
    case Dict(Objects, _) =>
      ValueReads(v, path, table, fmt, after);
  }

  /** The text of a value, followed by a character that cannot continue a number, reads back as its meaning. */
  lemma {:induction false} ValueReads(v: Obj, path: string, table: Table, fmt: DateTime -> string, after: string)
    requires EncodableValue(v, path, table, fmt) && Stops(after)
    ensures ParseValue(JsonValue(v, path, table, fmt) + after) == Some(Parsed(ValueMeaning(v, path, table, fmt), after))
    decreases v, 0
  {
    match v
    case Str(s) =>
      StringReads(s, after);
    case Long(n) =>
      NumberReads(n as int, after);
    case Bool(b) =>
      if b { TrueReads(after); } else { FalseReads(after); }
    case Stamp(t) =>
      StringReads(fmt(ToDateTime(t)), after);
    case Dict(Objects, es) =>
      MapReads(es, path, table, fmt, after);
  }

  /** A list of values with a text, then anything, reads back as the array of their meanings. */
  lemma {:induction false} ListReads(xs: seq<Obj>, path: string, table: Table, fmt: DateTime -> string, rest: string)
    requires forall i :: 0 <= i < |xs| ==> EncodableValue(xs[i], path, table, fmt)
    ensures ParseValue("[" + Join(",", JsonValues(xs, path, table, fmt)) + "]" + rest)
      == Some(Parsed(JArr(ValueMeanings(xs, path, table, fmt)), rest))
    decreases xs, 2
  {
    var texts := JsonValues(xs, path, table, fmt);
    var inner := Join(",", texts);
    if |xs| == 0 {
      assert inner == "";
      EmptyArrayReads(rest);
      assert ValueMeanings(xs, path, table, fmt) == [];
    } else {
      ElementsRead(xs, path, table, fmt, rest);
      JsonValuesAt(xs, path, table, fmt);
      ValueTextStarts(xs[0], path, table, fmt);
      JoinStartsWithHead(",", texts);
      ArrayReads(inner, rest, ValueMeanings(xs, path, table, fmt));
    }
  }

  /** The values' texts joined by commas, then `]`, read back as their meanings. */
  lemma {:induction false} ElementsRead(xs: seq<Obj>, path: string, table: Table, fmt: DateTime -> string, rest: string)
    requires |xs| > 0 && forall i :: 0 <= i < |xs| ==> EncodableValue(xs[i], path, table, fmt)
    ensures ParseElements(Join(",", JsonValues(xs, path, table, fmt)) + "]" + rest)
      == Some(Parsed(ValueMeanings(xs, path, table, fmt), rest))
    decreases xs, 1
  {
    if |xs| == 1 {
      OneElementRead(xs, path, table, fmt, rest);
    } else {
      var more := xs[1..];
      assert forall i :: 0 <= i < |more| ==> more[i] == xs[i + 1];
      ElementsRead(more, path, table, fmt, rest);
      MoreElementsRead(xs, path, table, fmt, rest);
    }
  }

  lemma OneElementRead(xs: seq<Obj>, path: string, table: Table, fmt: DateTime -> string, rest: string)
    requires |xs| == 1 && EncodableValue(xs[0], path, table, fmt)
    ensures ParseElements(Join(",", JsonValues(xs, path, table, fmt)) + "]" + rest)
      == Some(Parsed(ValueMeanings(xs, path, table, fmt), rest))
    decreases xs, 0
  {
    var texts := JsonValues(xs, path, table, fmt);
    JsonValuesAt(xs, path, table, fmt);
    assert texts[0] == JsonValue(xs[0], path, table, fmt);
    ValueReads(xs[0], path, table, fmt, "]" + rest);
    LastElement(texts[0], rest, ValueMeaning(xs[0], path, table, fmt));
    assert Join(",", texts) == texts[0];
    assert ValueMeanings(xs[1..], path, table, fmt) == [];
    assert ValueMeanings(xs, path, table, fmt) == [ValueMeaning(xs[0], path, table, fmt)];
  }

  lemma MoreElementsRead(xs: seq<Obj>, path: string, table: Table, fmt: DateTime -> string, rest: string)
    requires |xs| > 1 && EncodableValue(xs[0], path, table, fmt)
    requires ParseElements(Join(",", JsonValues(xs[1..], path, table, fmt)) + "]" + rest)
      == Some(Parsed(ValueMeanings(xs[1..], path, table, fmt), rest))
    ensures ParseElements(Join(",", JsonValues(xs, path, table, fmt)) + "]" + rest)
      == Some(Parsed(ValueMeanings(xs, path, table, fmt), rest))
    decreases xs, 0
  {
    var texts := JsonValues(xs, path, table, fmt);
    var more := xs[1..];
    JsonValuesAt(xs, path, table, fmt);
    JsonValuesAt(more, path, table, fmt);
    assert texts[1..] == JsonValues(more, path, table, fmt);
    JoinHeadThen(",", texts, "]", rest);
    var tail := Join(",", JsonValues(more, path, table, fmt)) + "]" + rest;
    ValueReads(xs[0], path, table, fmt, "," + tail);
    NextElement(texts[0], tail, ValueMeaning(xs[0], path, table, fmt), ValueMeanings(more, path, table, fmt), rest);
    assert ValueMeanings(xs, path, table, fmt) == [ValueMeaning(xs[0], path, table, fmt)] + ValueMeanings(more, path, table, fmt);
  }

  lemma {:induction false} JsonValuesAt(xs: seq<Obj>, path: string, table: Table, fmt: DateTime -> string)
    ensures forall i :: 0 <= i < |xs| ==> JsonValues(xs, path, table, fmt)[i] == JsonValue(xs[i], path, table, fmt)
  {
    if |xs| > 0 {
      var init := xs[..|xs| - 1];
      JsonValuesAt(init, path, table, fmt);
      assert forall i :: 0 <= i < |init| ==> init[i] == xs[i];
    }
  }

  /** The text of an encodable value is never empty and does not start with whitespace or `]`. */
  lemma ValueTextStarts(v: Obj, path: string, table: Table, fmt: DateTime -> string)
    requires EncodableValue(v, path, table, fmt)
    ensures var t := JsonValue(v, path, table, fmt);
      |t| > 0 && !IsWs(t[0]) && t[0] != ']'
  {
    match v
    case Long(n) =>
      assert Decimal(n as int)[0] == '-' || IsDigit(Decimal(n as int)[0]);
    case _ =>
  }

  /** A `long` list, then anything, reads back as the array of its numbers. */
  lemma LongListReads(ns: seq<int64>, rest: string)
    ensures ParseValue("[" + Join(",", LongTexts(ns)) + "]" + rest)
      == Some(Parsed(JArr(Numbers(ns)), rest))
  {
    var texts := LongTexts(ns);
    var inner := Join(",", texts);
    if |ns| == 0 {
      assert inner == "";
      EmptyArrayReads(rest);
      assert Numbers(ns) == [];
    } else {
      LongsRead(ns, rest);
      var d := Decimal(ns[0] as int);
      assert texts[0] == d;
      assert d[0] == '-' || IsDigit(d[0]);
      JoinStartsWithHead(",", texts);
      ArrayReads(inner, rest, Numbers(ns));
    }
  }

  lemma {:induction false} LongsRead(ns: seq<int64>, rest: string)
    requires |ns| > 0
    ensures ParseElements(Join(",", LongTexts(ns)) + "]" + rest)
      == Some(Parsed(Numbers(ns), rest))
  {
    if |ns| == 1 {
      OneNumberRead(ns, rest);
    } else {
      LongsRead(ns[1..], rest);
      MoreNumbersRead(ns, rest);
    }
  }

  lemma OneNumberRead(ns: seq<int64>, rest: string)
    requires |ns| == 1
    ensures ParseElements(Join(",", LongTexts(ns)) + "]" + rest) == Some(Parsed(Numbers(ns), rest))
  {
    var texts := LongTexts(ns);
    var n := ns[0] as int;
    assert texts[0] == Decimal(n);
    NumberReads(n, "]" + rest);
    LastElement(texts[0], rest, JNum(n));
    assert Join(",", texts) == texts[0];
    assert Numbers(ns[1..]) == [];
    assert Numbers(ns) == [JNum(n)];
  }

  lemma MoreNumbersRead(ns: seq<int64>, rest: string)
    requires |ns| > 1
    requires ParseElements(Join(",", LongTexts(ns[1..])) + "]" + rest) == Some(Parsed(Numbers(ns[1..]), rest))
    ensures ParseElements(Join(",", LongTexts(ns)) + "]" + rest) == Some(Parsed(Numbers(ns), rest))
  {
    var texts := LongTexts(ns);
    var n := ns[0] as int;
    var more := ns[1..];
    assert texts[0] == Decimal(n);
    assert texts[1..] == LongTexts(more);
    JoinHeadThen(",", texts, "]", rest);
    var tail := Join(",", LongTexts(more)) + "]" + rest;
    NumberReads(n, "," + tail);
    NextElement(texts[0], tail, JNum(n), Numbers(more), rest);
    assert Numbers(ns) == [JNum(n)] + Numbers(more);
  }

  // ---------------------------------------------------------------------------
  // Timestamps

  lemma PaddedPlain(n: nat, width: nat)
    ensures Plain(Padded(n, width))
  {
    var d := Digits(n);
    if |d| < width {
      var z := Zeros(width - |d|);
      assert forall i :: 0 <= i < |z + d| ==> (z + d)[i] == (if i < |z| then z[i] else d[i - |z|]);
    }
  }

  /** Both formatters write only digits, `-`, `:`, `T`, `Z` and `+`: timestamp text never needs an escape. */
  lemma WallClockPlain(d: DateTime)
    ensures Plain(WallClock(d))
  {
    PaddedPlain(d.year, 4);
    PaddedPlain(d.month, 2);
    PaddedPlain(d.day, 2);
    PaddedPlain(d.hour, 2);
    PaddedPlain(d.minute, 2);
    PaddedPlain(d.second, 2);
    GroupPlain(Padded(d.year, 4), '-', Padded(d.month, 2), Padded(d.day, 2));
    GroupPlain(Padded(d.hour, 2), ':', Padded(d.minute, 2), Padded(d.second, 2));
    var date := Group3(Padded(d.year, 4), '-', Padded(d.month, 2), Padded(d.day, 2));
    var time := Group3(Padded(d.hour, 2), ':', Padded(d.minute, 2), Padded(d.second, 2));
    PlainConcat(date, "T");
    PlainConcat(date + "T", time);
  }

  lemma GroupPlain(a: string, sep: char, b: string, c: string)
    requires Plain(a) && PlainChar(sep) && Plain(b) && Plain(c)
    ensures Plain(Group3(a, sep, b, c))
  {
    PlainConcat(a, [sep]);
    PlainConcat(a + [sep], b);
    PlainConcat(a + [sep] + b, [sep]);
    PlainConcat(a + [sep] + b + [sep], c);
  }

  lemma PlainConcat(a: string, b: string)
    requires Plain(a) && Plain(b)
    ensures Plain(a + b)
  {
    assert forall i :: 0 <= i < |a + b| ==> (a + b)[i] == (if i < |a| then a[i] else b[i - |a|]);
  }

  lemma DefaultParseDatePlain(d: DateTime)
    ensures Plain(DefaultParseDate(d))
  {
    WallClockPlain(d);
    PlainConcat(WallClock(d), "Z");
  }

  lemma JpParseDatePlain(zone: TimeZone, d: DateTime)
    ensures Plain(JpParseDate(zone, d))
  {
    WallClockPlain(ToLocalTime(d, zone));
    PlainConcat(WallClock(ToLocalTime(d, zone)), "+09:00");
  }

  /**
   * End to end with a new wrapper: a timestamp entry is written as a JSON
   * object with one string member, from which the instant reads back to the
   * second.
   */
  lemma DefaultStampReadsBack(t: Timestamp)
    requires Valid(ToDateTime(t))
    ensures var s := DefaultParseDate(ToDateTime(t));
      && ParseJson(ToJsonText([Field("at", Stamp(t))], "", map[], DefaultParseDate)) == Some(JObj([Member("at", JStr(s))]))
      && ReadDefaultDate(s) == Some(Fields(t.instant))
  {
    DefaultParseDatePlain(ToDateTime(t));
    StampEntryReads(t, DefaultParseDate);
    DefaultParseDateReadsBack(ToDateTime(t));
  }

  /** A one-entry map holding a timestamp whose text is plain reads back as one string member. */
  lemma StampEntryReads(t: Timestamp, fmt: DateTime -> string)
    requires Plain(fmt(ToDateTime(t)))
    ensures ParseJson(ToJsonText([Field("at", Stamp(t))], "", map[], fmt)) == Some(JObj([Member("at", JStr(fmt(ToDateTime(t))))]))
  {
    var data := [Field("at", Stamp(t))];
    StampEntryMeaning(t, fmt);
    ToJsonTextParses(data, "", map[], fmt);
  }

  lemma StampEntryMeaning(t: Timestamp, fmt: DateTime -> string)
    requires Plain(fmt(ToDateTime(t)))
    ensures EncodableMap([Field("at", Stamp(t))], "", map[], fmt)
    ensures MembersOf([Field("at", Stamp(t))], "", map[], fmt) == [Member("at", JStr(fmt(ToDateTime(t))))]
  {
    var data := [Field("at", Stamp(t))];
    assert ChildPath("", "at") == "at";
    assert Rename(map[], "at", "at") == "at";
    assert Plain("at");
    assert EncodableEntry(Stamp(t), "at", map[], fmt);
    assert ValueMeaning(Stamp(t), "at", map[], fmt) == JStr(fmt(ToDateTime(t)));
    assert EntryMeaning(Stamp(t), "at", map[], fmt) == JStr(fmt(ToDateTime(t)));
    assert MemberOf(data[0], "", map[], fmt) == Member("at", JStr(fmt(ToDateTime(t))));
    assert MembersOf(data[1..], "", map[], fmt) == [];
  }
}
