/**
 * A reader for the JSON text the encoder writes. It accepts the subset of
 * RFC 8259 without string escapes, fractions or exponents. Whitespace is
 * allowed wherever section 2 of RFC 8259 allows it.
 */
module JsonReader {
  import opened Wrappers
  import opened Text

  /** A JSON value (section 3 of RFC 8259); numbers are integers here. */
  datatype Json =
    | JNull
    | JBool(b: bool)
    | JNum(n: int)
    | JStr(s: string)
    | JArr(items: seq<Json>)
    | JObj(members: seq<Member>)

  /** One name/value pair of an object, in text order; names may repeat. */
  datatype Member = Member(key: string, value: Json)

  /** What was read, and the text after it. */
  datatype Parsed<T> = Parsed(value: T, rest: string)

  predicate IsWs(c: char) {
    c == ' ' || c == '\n' || c == '\r' || c == '\t'
  }

  /** `s` without its leading whitespace. */
  function SkipWs(s: string): (t: string)
    ensures |t| <= |s|
    ensures |t| > 0 ==> !IsWs(t[0])
  {
    if |s| > 0 && IsWs(s[0]) then SkipWs(s[1..]) else s
  }

  /** A character that may stand unescaped inside a JSON string (section 7 of RFC 8259). */
  predicate PlainChar(c: char) {
    c != '"' && c != '\\' && c >= ' '
  }

  predicate Plain(s: string) {
    forall i :: 0 <= i < |s| ==> PlainChar(s[i])
  }

  predicate Starts(s: string, word: string) {
    |s| >= |word| && forall i :: 0 <= i < |word| ==> s[i] == word[i]
  }

  /** The characters of a string up to its closing quote; an escape or a control character is refused. */
  function ReadString(s: string): (r: Option<Parsed<string>>)
    ensures r.Some? ==> |r.value.rest| < |s|
  {
    if |s| == 0 then None
    else if s[0] == '"' then Some(Parsed("", s[1..]))
    else if !PlainChar(s[0]) then None
    else
      match ReadString(s[1..])
      case None => None
      case Some(p) => Some(Parsed([s[0]] + p.value, p.rest))
  }

  /** The digits `s` starts with, and the text after them. */
  function ReadDigits(s: string): (r: Parsed<string>)
    ensures AllDigits(r.value) && |r.rest| <= |s|
    ensures |r.value| > 0 ==> |r.rest| < |s|
  {
    if |s| > 0 && IsDigit(s[0]) then
      var p := ReadDigits(s[1..]);
      Parsed([s[0]] + p.value, p.rest)
    else Parsed("", s)
  }

  /** A run of digits JSON accepts as an integer: at least one digit and no leading zero. */
  predicate IntegerDigits(d: string) {
    |d| > 0 && (|d| == 1 || d[0] != '0')
  }

  /** An integer: an optional minus and the digits (section 6 of RFC 8259). */
  function ParseNumber(s: string): (r: Option<Parsed<Json>>)
    ensures r.Some? ==> |r.value.rest| < |s|
  {
    if |s| > 0 && s[0] == '-' then
      var p := ReadDigits(s[1..]);
      if IntegerDigits(p.value) then Some(Parsed(JNum(0 - ValueOf(p.value)), p.rest)) else None
    else
      var p := ReadDigits(s);
      if IntegerDigits(p.value) then Some(Parsed(JNum(ValueOf(p.value)), p.rest)) else None
  }

  /** One value, after optional whitespace. */
  function ParseValue(s: string): (r: Option<Parsed<Json>>)
    ensures r.Some? ==> |r.value.rest| < |s|
    decreases |s|, 2
  {
    var t := SkipWs(s);
    if |t| == 0 then None
    else if t[0] == '{' then ParseObject(t[1..])
    else if t[0] == '[' then ParseArray(t[1..])
    else if t[0] == '"' then
      match ReadString(t[1..])
      case None => None
      case Some(p) => Some(Parsed(JStr(p.value), p.rest))
    else if Starts(t, "true") then Some(Parsed(JBool(true), t[4..]))
    else if Starts(t, "false") then Some(Parsed(JBool(false), t[5..]))
    else if Starts(t, "null") then Some(Parsed(JNull, t[4..]))
    else ParseNumber(t)
  }

  /** The rest of an object after its `{`. */
  function ParseObject(s: string): (r: Option<Parsed<Json>>)
    ensures r.Some? ==> |r.value.rest| < |s|
    decreases |s|, 1
  {
    var t := SkipWs(s);
    if |t| > 0 && t[0] == '}' then Some(Parsed(JObj([]), t[1..]))
    else
      match ParseMembers(t)
      case None => None
      case Some(p) => Some(Parsed(JObj(p.value), p.rest))
  }

  /** One or more `"name": value` members separated by commas, then the closing `}`. */
  function ParseMembers(s: string): (r: Option<Parsed<seq<Member>>>)
    ensures r.Some? ==> |r.value.rest| < |s|
    decreases |s|, 0
  {
    var t := SkipWs(s);
    if |t| == 0 || t[0] != '"' then None
    else
      match ReadString(t[1..])
      case None => None
      case Some(k) =>
        var u := SkipWs(k.rest);
        if |u| == 0 || u[0] != ':' then None
        else
          match ParseValue(u[1..])
          case None => None
          case Some(v) =>
            var w := SkipWs(v.rest);
            if |w| == 0 then None
            else if w[0] == '}' then Some(Parsed([Member(k.value, v.value)], w[1..]))
            else if w[0] != ',' then None
            else
              match ParseMembers(w[1..])
              case None => None
              case Some(more) => Some(Parsed([Member(k.value, v.value)] + more.value, more.rest))
  }

  /** The rest of an array after its `[`. */
  function ParseArray(s: string): (r: Option<Parsed<Json>>)
    ensures r.Some? ==> |r.value.rest| < |s|
    decreases |s|, 4
  {
    var t := SkipWs(s);
    if |t| > 0 && t[0] == ']' then Some(Parsed(JArr([]), t[1..]))
    else
      match ParseElements(t)
      case None => None
      case Some(p) => Some(Parsed(JArr(p.value), p.rest))
  }

  /** One or more values separated by commas, then the closing `]`. */
  function ParseElements(s: string): (r: Option<Parsed<seq<Json>>>)
    ensures r.Some? ==> |r.value.rest| < |s|
    decreases |s|, 3
  {
    match ParseValue(s)
    case None => None
    case Some(v) =>
      var w := SkipWs(v.rest);
      if |w| == 0 then None
      else if w[0] == ']' then Some(Parsed([v.value], w[1..]))
      else if w[0] != ',' then None
      else
        match ParseElements(w[1..])
        case None => None
        case Some(more) => Some(Parsed([v.value] + more.value, more.rest))
  }

  /** A whole JSON text: one value, with nothing but whitespace after it. */
  function ParseJson(s: string): Option<Json>
  {
    match ParseValue(s)
    case None => None
    case Some(p) => if SkipWs(p.rest) == "" then Some(p.value) else None
  }

  // ---------------------------------------------------------------------------
  // Reading pieces back

  lemma SkipWsStops(t: string)
    requires |t| > 0 && !IsWs(t[0])
    ensures SkipWs(t) == t
  {
  }

  lemma SkipWsOne(c: char, t: string)
    requires IsWs(c)
    ensures SkipWs([c] + t) == SkipWs(t)
  {
    assert ([c] + t)[1..] == t;
  }

  /** A plain string followed by a quote reads back as itself. */
  lemma {:induction false} ReadStringPlain(s: string, rest: string)
    requires Plain(s)
    ensures ReadString(s + "\"" + rest) == Some(Parsed(s, rest))
  {
    var text := s + "\"" + rest;
    if |s| == 0 {
      assert text == "\"" + rest;
      assert text[1..] == rest;
    } else {
      assert text[0] == s[0];
      assert text[1..] == s[1..] + "\"" + rest;
      ReadStringPlain(s[1..], rest);
      assert [s[0]] + s[1..] == s;
    }
  }

  lemma {:induction false} ReadDigitsOf(d: string, rest: string)
    requires AllDigits(d)
    requires |rest| == 0 || !IsDigit(rest[0])
    ensures ReadDigits(d + rest) == Parsed(d, rest)
  {
    if |d| > 0 {
      assert (d + rest)[1..] == d[1..] + rest;
      ReadDigitsOf(d[1..], rest);
      assert [d[0]] + d[1..] == d;
    } else {
      assert d + rest == rest;
    }
  }

  lemma DigitsReads(m: nat, rest: string)
    requires |rest| == 0 || !IsDigit(rest[0])
    ensures ParseNumber(Digits(m) + rest) == Some(Parsed(JNum(m), rest))
  {
    var d := Digits(m);
    var s := d + rest;
    assert s[0] == d[0] && s[0] != '-';
    ReadDigitsOf(d, rest);
    assert IntegerDigits(d);
    DigitsRoundTrip(m);
  }

  lemma MinusDigitsReads(m: nat, rest: string)
    requires |rest| == 0 || !IsDigit(rest[0])
    ensures ParseNumber("-" + Digits(m) + rest) == Some(Parsed(JNum(0 - m), rest))
  {
    var d := Digits(m);
    var s := "-" + d + rest;
    assert s[0] == '-';
    assert s[1..] == d + rest;
    ReadDigitsOf(d, rest);
    assert IntegerDigits(d);
    DigitsRoundTrip(m);
  }

  /** `long.ToString()` followed by a non-digit reads back as the same number. */
  lemma DecimalReads(n: int, rest: string)
    requires |rest| == 0 || !IsDigit(rest[0])
    ensures ParseNumber(Decimal(n) + rest) == Some(Parsed(JNum(n), rest))
  {
    if n < 0 {
      MinusDigitsReads(-n, rest);
    } else {
      DigitsReads(n, rest);
    }
  }

  // ---------------------------------------------------------------------------
  // Reading one construct at the front of a text

  lemma ValueAfterWs(c: char, x: string)
    requires IsWs(c)
    ensures ParseValue([c] + x) == ParseValue(x)
  {
    SkipWsOne(c, x);
  }

  lemma StringReads(s: string, rest: string)
    requires Plain(s)
    ensures ParseValue("\"" + s + "\"" + rest) == Some(Parsed(JStr(s), rest))
  {
    var text := "\"" + s + "\"" + rest;
    SkipWsStops(text);
    assert text[1..] == s + "\"" + rest;
    ReadStringPlain(s, rest);
  }

  /** No literal starts with a character other than its own first letter. */
  lemma NotLiteral(t: string)
    requires |t| > 0 && t[0] != 't' && t[0] != 'f' && t[0] != 'n'
    ensures !Starts(t, "true") && !Starts(t, "false") && !Starts(t, "null")
  {
    if |t| >= 4 {
      assert t[..4][0] == t[0];
    }
    if |t| >= 5 {
      assert t[..5][0] == t[0];
    }
  }

  lemma TrueReads(rest: string)
    ensures ParseValue("true" + rest) == Some(Parsed(JBool(true), rest))
  {
    var t := "true" + rest;
    SkipWsStops(t);
    assert t[..4] == "true" && t[4..] == rest;
  }

  lemma FalseReads(rest: string)
    ensures ParseValue("false" + rest) == Some(Parsed(JBool(false), rest))
  {
    var t := "false" + rest;
    SkipWsStops(t);
    assert t[..4] != "true" by {
      assert t[..4][0] == 'f';
    }
    assert t[..5] == "false" && t[5..] == rest;
  }

  lemma NullReads(rest: string)
    ensures ParseValue("null" + rest) == Some(Parsed(JNull, rest))
  {
    var t := "null" + rest;
    SkipWsStops(t);
    assert !Starts(t, "true") && !Starts(t, "false") by {
      assert t[..4][0] == 'n';
      if |t| >= 5 {
        assert t[..5][0] == 'n';
      }
    }
    assert t[..4] == "null" && t[4..] == rest;
  }

  /** Text starting with a minus or a digit is read as a number. */
  lemma NumberDispatch(t: string)
    requires |t| > 0 && (t[0] == '-' || IsDigit(t[0]))
    ensures ParseValue(t) == ParseNumber(t)
  {
    SkipWsStops(t);
    NotLiteral(t);
    assert t[0] != '{' && t[0] != '[' && t[0] != '"';
  }

  lemma NumberReads(n: int, rest: string)
    requires |rest| == 0 || !IsDigit(rest[0])
    ensures ParseValue(Decimal(n) + rest) == Some(Parsed(JNum(n), rest))
  {
    var d := Decimal(n);
    assert d[0] == '-' || IsDigit(d[0]);
    var t := d + rest;
    assert t[0] == d[0];
    NumberDispatch(t);
    DecimalReads(n, rest);
  }

  lemma ObjectOpen(body: string)
    ensures ParseValue("{" + body) == ParseObject(body)
  {
    var t := "{" + body;
    SkipWsStops(t);
    assert t[1..] == body;
  }

  lemma EmptyObject(rest: string)
    ensures ParseObject("}" + rest) == Some(Parsed(JObj([]), rest))
  {
    SkipWsStops("}" + rest);
    assert ("}" + rest)[1..] == rest;
  }

  lemma ObjectMembers(body: string)
    requires |body| > 0 && body[0] == '"' && ParseMembers(body).Some?
    ensures ParseObject(body) == Some(Parsed(JObj(ParseMembers(body).value.value), ParseMembers(body).value.rest))
  {
    SkipWsStops(body);
  }

  lemma ArrayOpen(body: string)
    ensures ParseValue("[" + body) == ParseArray(body)
  {
    var t := "[" + body;
    SkipWsStops(t);
    assert t[1..] == body;
  }

  lemma EmptyArray(rest: string)
    ensures ParseArray("]" + rest) == Some(Parsed(JArr([]), rest))
  {
    SkipWsStops("]" + rest);
    assert ("]" + rest)[1..] == rest;
  }

  lemma ArrayElements(body: string)
    requires |body| > 0 && !IsWs(body[0]) && body[0] != ']' && ParseElements(body).Some?
    ensures ParseArray(body) == Some(Parsed(JArr(ParseElements(body).value.value), ParseElements(body).value.rest))
  {
    SkipWsStops(body);
  }

  /** A quoted plain key, read at the start of a member. */
  lemma KeyReads(key: string, tail: string)
    requires Plain(key)
    ensures var s := "\"" + key + "\"" + tail;
      SkipWs(s) == s && ReadString(s[1..]) == Some(Parsed(key, tail))
  {
    var s := "\"" + key + "\"" + tail;
    SkipWsStops(s);
    assert s[1..] == key + "\"" + tail;
    ReadStringPlain(key, tail);
  }

  /** The colon and the space after a key, then a value. */
  lemma ColonValue(text: string, after: string)
    ensures var tail := ": " + text + after;
      SkipWs(tail) == tail && tail[0] == ':' && ParseValue(tail[1..]) == ParseValue(text + after)
  {
    var tail := ": " + text + after;
    SkipWsStops(tail);
    assert tail[1..] == [' '] + (text + after);
    ValueAfterWs(' ', text + after);
  }

  /** Whitespace in front of the members is skipped. */
  lemma MembersAfterWs(c: char, t: string)
    requires IsWs(c)
    ensures ParseMembers([c] + t) == ParseMembers(t)
  {
    SkipWsOne(c, t);
  }

  /** A member's text is the quoted key, then the colon, the value and what follows. */
  lemma KeySplit(key: string, text: string, c: string, rest: string)
    ensures "\"" + key + "\": " + text + c + rest == "\"" + key + "\"" + (": " + text + (c + rest))
    ensures "\"" + key + "\": " + text + (c + rest) == "\"" + key + "\"" + (": " + text + (c + rest))
  {
  }

  /** The last member `"key": value`, then the object's closing `}`. */
  lemma LastMember(key: string, text: string, rest: string, m: Json)
    requires Plain(key) && ParseValue(text + ("}" + rest)) == Some(Parsed(m, "}" + rest))
    ensures ParseMembers("\"" + key + "\": " + text + "}" + rest) == Some(Parsed([Member(key, m)], rest))
  {
    var after := "}" + rest;
    var colon := ": " + text + after;
    KeySplit(key, text, "}", rest);
    KeyReads(key, colon);
    ColonValue(text, after);
    SkipWsStops(after);
    assert after[1..] == rest;
  }

  /** A member `"key": value`, then a comma and the remaining members. */
  lemma MemberThenComma(key: string, text: string, more: string, m: Json, ms: seq<Member>, rest: string)
    requires Plain(key) && ParseValue(text + ("," + more)) == Some(Parsed(m, "," + more))
    requires ParseMembers(more) == Some(Parsed(ms, rest))
    ensures ParseMembers("\"" + key + "\": " + text + ("," + more)) == Some(Parsed([Member(key, m)] + ms, rest))
  {
    var after := "," + more;
    var colon := ": " + text + after;
    KeySplit(key, text, ",", more);
    KeyReads(key, colon);
    ColonValue(text, after);
    SkipWsStops(after);
    assert after[1..] == more;
  }

  /** A member `"key": value`, then a comma, a newline and the remaining members. */
  lemma NextMember(key: string, text: string, tail: string, m: Json, ms: seq<Member>, rest: string)
    requires Plain(key) && ParseValue(text + (",\n" + tail)) == Some(Parsed(m, ",\n" + tail))
    requires ParseMembers(tail) == Some(Parsed(ms, rest))
    ensures ParseMembers("\"" + key + "\": " + text + ",\n" + tail) == Some(Parsed([Member(key, m)] + ms, rest))
  {
    var more := ['\n'] + tail;
    NewlineSplit("\"" + key + "\": " + text, tail);
    MembersAfterWs('\n', tail);
    MemberThenComma(key, text, more, m, ms, rest);
  }

  lemma NewlineSplit(x: string, tail: string)
    ensures x + ",\n" + tail == x + ("," + (['\n'] + tail))
    ensures ",\n" + tail == "," + (['\n'] + tail)
  {
  }

  /** The last value, then the array's closing `]`. */
  lemma LastElement(text: string, rest: string, m: Json)
    requires ParseValue(text + ("]" + rest)) == Some(Parsed(m, "]" + rest))
    ensures ParseElements(text + "]" + rest) == Some(Parsed([m], rest))
  {
    var after := "]" + rest;
    assert text + "]" + rest == text + after;
    SkipWsStops(after);
    assert after[1..] == rest;
  }

  /** A value, then a comma and the remaining values. */
  lemma NextElement(text: string, tail: string, m: Json, ms: seq<Json>, rest: string)
    requires ParseValue(text + ("," + tail)) == Some(Parsed(m, "," + tail))
    requires ParseElements(tail) == Some(Parsed(ms, rest))
    ensures ParseElements(text + "," + tail) == Some(Parsed([m] + ms, rest))
  {
    var after := "," + tail;
    assert text + "," + tail == text + after;
    SkipWsStops(after);
    assert after[1..] == tail;
  }

  /** `{}` is the empty object. */
  lemma EmptyObjectReads(rest: string)
    ensures ParseValue("{" + "}" + rest) == Some(Parsed(JObj([]), rest))
  {
    assert "{" + "}" + rest == "{" + ("}" + rest);
    ObjectOpen("}" + rest);
    EmptyObject(rest);
  }

  /** Braces around members that read back: an object. */
  lemma ObjectReads(inner: string, rest: string, ms: seq<Member>)
    requires |inner| > 0 && inner[0] == '"'
    requires ParseMembers(inner + "}" + rest) == Some(Parsed(ms, rest))
    ensures ParseValue("{" + inner + "}" + rest) == Some(Parsed(JObj(ms), rest))
  {
    var body := inner + "}" + rest;
    assert "{" + inner + "}" + rest == "{" + body;
    ObjectOpen(body);
    assert body[0] == inner[0];
    ObjectMembers(body);
  }

  /** `[]` is the empty array. */
  lemma EmptyArrayReads(rest: string)
    ensures ParseValue("[" + "]" + rest) == Some(Parsed(JArr([]), rest))
  {
    assert "[" + "]" + rest == "[" + ("]" + rest);
    ArrayOpen("]" + rest);
    EmptyArray(rest);
  }

  /** Brackets around values that read back: an array. */
  lemma ArrayReads(inner: string, rest: string, js: seq<Json>)
    requires |inner| > 0 && !IsWs(inner[0]) && inner[0] != ']'
    requires ParseElements(inner + "]" + rest) == Some(Parsed(js, rest))
    ensures ParseValue("[" + inner + "]" + rest) == Some(Parsed(JArr(js), rest))
  {
    var body := inner + "]" + rest;
    assert "[" + inner + "]" + rest == "[" + body;
    ArrayOpen(body);
    assert body[0] == inner[0];
    ArrayElements(body);
  }
}
