/**
 * .NET `DateTime` values as far as the wrapper uses them, the Firestore
 * `Timestamp` as the UTC instant it denotes, and the two timestamp formatters
 * of Wrapper.cs (`DefaultParseDate`, `JpParseDate`).
 *
 * The host's time zone is not part of the model's state: conversions between
 * local and universal wall-clock time are supplied as a `TimeZone` value.
 * Formatting assumes the invariant culture, whose time separator is `:`.
 */
module Time {
  import opened Wrappers
  import opened Text

  /** `DateTime.Kind`. */
  datatype Kind = Unspecified | Utc | Local

  /** A `DateTime`: its calendar fields, the ticks below one second (`fraction`), and its kind. */
  datatype DateTime = DateTime(
    year: nat, month: nat, day: nat,
    hour: nat, minute: nat, second: nat,
    fraction: nat,
    kind: Kind)

  predicate IsLeapYear(y: nat) {
    y % 4 == 0 && (y % 100 != 0 || y % 400 == 0)
  }

  function DaysInMonth(y: nat, m: nat): nat
    requires 1 <= m <= 12
  {
    if m == 2 then (if IsLeapYear(y) then 29 else 28)
    else if m == 4 || m == 6 || m == 9 || m == 11 then 30
    else 31
  }

  /** The range of values a .NET `DateTime` can hold (years 1 to 9999, ticks of 100 ns). */
  predicate Valid(d: DateTime) {
    && 1 <= d.year <= 9999
    && 1 <= d.month <= 12
    && 1 <= d.day <= DaysInMonth(d.year, d.month)
    && d.hour < 24 && d.minute < 60 && d.second < 60
    && d.fraction < 10_000_000
  }

  /**
   * The host's time zone: how a local wall-clock time maps to universal time
   * and back. Daylight-saving rules and offsets live inside these functions.
   */
  datatype TimeZone = TimeZone(localToUtc: DateTime -> DateTime, utcToLocal: DateTime -> DateTime)

  /** `DateTime.ToUniversalTime()`: a UTC value is kept; a local or unspecified one is converted. */
  function ToUniversalTime(d: DateTime, zone: TimeZone): (r: DateTime)
    ensures r.kind == Utc
    ensures d.kind == Utc ==> r == d
  {
    if d.kind == Utc then d else zone.localToUtc(d).(kind := Utc)
  }

  /** `DateTime.ToLocalTime()`: a local value is kept; a UTC or unspecified one is converted. */
  function ToLocalTime(d: DateTime, zone: TimeZone): (r: DateTime)
    ensures r.kind == Local
    ensures d.kind == Local ==> r == d
  {
    if d.kind == Local then d else zone.utcToLocal(d).(kind := Local)
  }

  /** Normalising to UTC twice is normalising once. */
  lemma ToUniversalTimeIdempotent(d: DateTime, zone: TimeZone)
    ensures ToUniversalTime(ToUniversalTime(d, zone), zone) == ToUniversalTime(d, zone)
  {
  }

  /** A Firestore `Timestamp`, represented by the UTC instant it denotes. */
  datatype Timestamp = Timestamp(instant: DateTime)

  /** `Timestamp.ToDateTime()`: the instant as a `DateTime` of kind UTC. */
  function ToDateTime(t: Timestamp): (d: DateTime)
    ensures d.kind == Utc
  {
    t.instant.(kind := Utc)
  }

  /** Three digit groups with one separator character between neighbours. */
  function Group3(a: string, sep: char, b: string, c: string): string
  {
    a + [sep] + b + [sep] + c
  }

  /** The custom format `yyyy-MM-dd'T'HH:mm:ss`; kind and sub-second ticks are not written. */
  function WallClock(d: DateTime): string
  {
    Group3(Padded(d.year, 4), '-', Padded(d.month, 2), Padded(d.day, 2)) + "T" +
    Group3(Padded(d.hour, 2), ':', Padded(d.minute, 2), Padded(d.second, 2))
  }

  /** The formatter a new wrapper starts with: the wall-clock fields followed by a literal `Z`. */
  function DefaultParseDate(d: DateTime): string
  {
    WallClock(d) + "Z"
  }

  /** The alternate formatter: converted to local time, followed by a literal `+09:00`. */
  function JpParseDate(zone: TimeZone, d: DateTime): string
  {
    WallClock(ToLocalTime(d, zone)) + "+09:00"
  }

  /** Reads three digit groups, the first `width` wide and the others two wide, separated by `sep`. */
  function ReadGroup3(s: string, width: nat, sep: char): Option<(nat, nat, nat)>
  {
    if && |s| == width + 6 && s[width] == sep && s[width + 3] == sep
       && AllDigits(s[..width]) && AllDigits(s[width + 1..width + 3]) && AllDigits(s[width + 4..])
    then Some((ValueOf(s[..width]), ValueOf(s[width + 1..width + 3]), ValueOf(s[width + 4..])))
    else None
  }

  /** Reads `yyyy-MM-ddTHH:mm:ss` back into year, month, day, hour, minute and second. */
  function ReadWallClock(s: string): Option<(nat, nat, nat, nat, nat, nat)>
  {
    if |s| == 19 && s[10] == 'T' then
      match (ReadGroup3(s[..10], 4, '-'), ReadGroup3(s[11..], 2, ':'))
      case (Some((y, mo, dd)), Some((h, mi, se))) => Some((y, mo, dd, h, mi, se))
      case _ => None
    else None
  }

  /** Reads the default formatter's text back: 19 wall-clock characters and a `Z`. */
  function ReadDefaultDate(s: string): Option<(nat, nat, nat, nat, nat, nat)>
  {
    if |s| == 20 && s[19] == 'Z' then ReadWallClock(s[..19]) else None
  }

  function Fields(d: DateTime): (nat, nat, nat, nat, nat, nat)
  {
    (d.year, d.month, d.day, d.hour, d.minute, d.second)
  }

  lemma Group3ReadsBack(a: string, sep: char, b: string, c: string)
    requires |b| == 2 && |c| == 2 && AllDigits(a) && AllDigits(b) && AllDigits(c)
    ensures |Group3(a, sep, b, c)| == |a| + 6
    ensures ReadGroup3(Group3(a, sep, b, c), |a|, sep) == Some((ValueOf(a), ValueOf(b), ValueOf(c)))
  {
    var s := Group3(a, sep, b, c);
    var w := |a|;
    assert s[..w] == a;
    assert s[w + 1..w + 3] == b;
    assert s[w + 4..] == c;
  }

  /** Every field of a valid `DateTime` is written at its fixed width and reads back. */
  lemma WallClockReadsBack(d: DateTime)
    requires Valid(d)
    ensures |WallClock(d)| == 19
    ensures ReadWallClock(WallClock(d)) == Some(Fields(d))
  {
    assert Pow10(2) == 100 && Pow10(4) == 10000 by {
      assert Pow10(1) == 10;
      assert Pow10(3) == 1000;
    }
    PaddedReadsBack(d.year, 4);
    PaddedReadsBack(d.month, 2);
    PaddedReadsBack(d.day, 2);
    PaddedReadsBack(d.hour, 2);
    PaddedReadsBack(d.minute, 2);
    PaddedReadsBack(d.second, 2);
    var date := Group3(Padded(d.year, 4), '-', Padded(d.month, 2), Padded(d.day, 2));
    var time := Group3(Padded(d.hour, 2), ':', Padded(d.minute, 2), Padded(d.second, 2));
    Group3ReadsBack(Padded(d.year, 4), '-', Padded(d.month, 2), Padded(d.day, 2));
    Group3ReadsBack(Padded(d.hour, 2), ':', Padded(d.minute, 2), Padded(d.second, 2));
    var s := WallClock(d);
    assert s == date + "T" + time;
    assert s[..10] == date;
    assert s[11..] == time;
  }

  /** The default formatter's text determines the instant to the second. */
  lemma DefaultParseDateReadsBack(d: DateTime)
    requires Valid(d)
    ensures |DefaultParseDate(d)| == 20
    ensures ReadDefaultDate(DefaultParseDate(d)) == Some(Fields(d))
  {
    WallClockReadsBack(d);
    assert DefaultParseDate(d)[..19] == WallClock(d);
  }

  /** Two valid values render alike under the default formatter exactly when they agree to the second. */
  lemma DefaultParseDateInjective(a: DateTime, b: DateTime)
    requires Valid(a) && Valid(b)
    ensures DefaultParseDate(a) == DefaultParseDate(b) <==> Fields(a) == Fields(b)
  {
    DefaultParseDateReadsBack(a);
    DefaultParseDateReadsBack(b);
  }

  /** The alternate formatter writes the local wall clock and always ends in `+09:00`. */
  lemma JpParseDateReadsBack(zone: TimeZone, d: DateTime)
    requires Valid(ToLocalTime(d, zone))
    ensures |JpParseDate(zone, d)| == 25
    ensures JpParseDate(zone, d)[19..] == "+09:00"
    ensures ReadWallClock(JpParseDate(zone, d)[..19]) == Some(Fields(ToLocalTime(d, zone)))
  {
    WallClockReadsBack(ToLocalTime(d, zone));
    assert JpParseDate(zone, d)[..19] == WallClock(ToLocalTime(d, zone));
  }
}
