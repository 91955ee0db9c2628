/**
  The `date-time` text of section 5.6 of RFC 3339 as Go's `time.Format` and
  `time.Parse` handle it with the layout "2006-01-02T15:04:05Z07:00".

  A time value is kept as the civil date and clock reading together with the
  zone offset in minutes, which is what formatting reads and parsing yields.
 */
module Rfc3339 {
  import opened Common
  import opened Decimal

  datatype DateTime = DateTime(
    year: nat, month: nat, day: nat,
    hour: nat, minute: nat, second: nat, nanosecond: nat,
    offsetMinutes: int)

  predicate IsLeapYear(y: nat) {
    y % 4 == 0 && (y % 100 != 0 || y % 400 == 0)
  }

  function DaysIn(month: nat, year: nat): nat {
    if month == 2 then (if IsLeapYear(year) then 29 else 28)
    else if month == 4 || month == 6 || month == 9 || month == 11 then 30
    else 31
  }

  /**
    A time the layout can spell and read back: a four-digit year, every field
    in its calendar range, and a zone offset below one day.
   */
  predicate Valid(t: DateTime) {
    && t.year <= 9999
    && 1 <= t.month <= 12
    && 1 <= t.day <= DaysIn(t.month, t.year)
    && t.hour < 24 && t.minute < 60 && t.second < 60
    && t.nanosecond < 1_000_000_000
    && -1440 < t.offsetMinutes < 1440
  }

  predicate WholeSecond(t: DateTime) {
    t.nanosecond == 0
  }

  function Abs(x: int): nat {
    if x < 0 then -x else x
  }

  /** "Z" for a zero offset, otherwise a sign and hh:mm. */
  function Zone(offsetMinutes: int): string {
    if offsetMinutes == 0 then "Z"
    else
      (if offsetMinutes < 0 then "-" else "+")
        + Pad(Abs(offsetMinutes) / 60, 2) + ":" + Pad(Abs(offsetMinutes) % 60, 2)
  }

  function DatePart(t: DateTime): string {
    Pad(t.year, 4) + "-" + Pad(t.month, 2) + "-" + Pad(t.day, 2)
  }

  function ClockPart(t: DateTime): string {
    Pad(t.hour, 2) + ":" + Pad(t.minute, 2) + ":" + Pad(t.second, 2)
  }

  /** `t.Format(time.RFC3339)`: the layout has no fractional seconds, so they are dropped. */
  function Format(t: DateTime): string {
    DatePart(t) + "T" + ClockPart(t) + Zone(t.offsetMinutes)
  }

  function LeadingDigits(s: string): (n: nat)
    ensures n <= |s| && AllDigits(s[..n])
    ensures n < |s| ==> !IsDigit(s[n])
  {
    if s == [] || !IsDigit(s[0]) then 0
    else
      var k := LeadingDigits(s[1..]);
      assert s[..k + 1] == [s[0]] + s[1..][..k];
      k + 1
  }

  /** Nanoseconds from the digits after the point: the first nine count, the rest are ignored. */
  function FractionNanos(digits: string): (ns: nat)
    requires AllDigits(digits)
    ensures ns < 1_000_000_000
  {
    var k := if |digits| < 9 then |digits| else 9;
    assert AllDigits(digits[..k]);
    var v := Value(digits[..k]).value;
    ScaleBelow(v, k);
    v * Pow10(9 - k)
  }

  lemma {:induction false} ScaleBelow(v: nat, k: nat)
    requires k <= 9 && v < Pow10(k)
    ensures v * Pow10(9 - k) < 1_000_000_000
    decreases 9 - k
  {
    if k < 9 {
      var p := Pow10(9 - (k + 1));
      assert Pow10(k + 1) == 10 * Pow10(k);
      assert Pow10(9 - k) == 10 * p;
      ScaleBelow(v * 10, k + 1);
      ShiftDigit(v, p);
    }
  }

  lemma ShiftDigit(v: int, p: int)
    ensures v * (10 * p) == (v * 10) * p
  {
  }

  /** An optional "." followed by at least one digit; returns the nanoseconds and the rest of the text. */
  function ParseFraction(s: string): (r: (nat, string))
    ensures r.0 < 1_000_000_000 && |r.1| <= |s|
    ensures |s| == 0 || s[0] != '.' ==> r == (0, s)
  {
    if |s| >= 2 && s[0] == '.' && IsDigit(s[1]) then
      var n := 1 + LeadingDigits(s[1..]);
      assert s[1..n] == s[1..][..n - 1];
      (FractionNanos(s[1..n]), s[n..])
    else (0, s)
  }

  /** "Z", or a sign and hh:mm with hh below 24 and mm below 60. */
  function ParseZone(s: string): (r: Option<int>)
    ensures r.Some? ==> -1440 < r.value < 1440
  {
    if s == "Z" then Some(0)
    else if |s| != 6 then None
    else
      var hh, mm := Value(s[1..3]), Value(s[4..6]);
      if hh.Some? && hh.value <= 23 && mm.Some? && mm.value <= 59 && (s[0] == '-' || s[0] == '+') && s[3] == ':'
      then Some(if s[0] == '-' then -(hh.value * 60 + mm.value) else hh.value * 60 + mm.value)
      else None
  }

  /**
    `time.Parse(time.RFC3339, s)`: fixed positions for the date and clock
    fields, each checked against its range (the day against the month's
    length), the separators '-', 'T' and ':' in upper case, then the optional
    fraction and the zone.
   */
  function Parse(s: string): (r: Option<DateTime>)
    ensures r.Some? ==> Valid(r.value)
  {
    if |s| < 19 then None
    else
      var year, month, day := Value(s[0..4]), Value(s[5..7]), Value(s[8..10]);
      var hour, minute, second := Value(s[11..13]), Value(s[14..16]), Value(s[17..19]);
      if !(&& year.Some? && year.value <= 9999
           && month.Some? && 1 <= month.value <= 12
           && day.Some? && 1 <= day.value <= DaysIn(month.value, year.value)
           && hour.Some? && hour.value <= 23
           && minute.Some? && minute.value <= 59
           && second.Some? && second.value <= 59)
      then None
      else if !(s[4] == '-' && s[7] == '-' && s[10] == 'T' && s[13] == ':' && s[16] == ':') then None
      else
        var (nanos, rest) := ParseFraction(s[19..]);
        match ParseZone(rest)
        case None => None
        case Some(offset) =>
          Some(DateTime(year.value, month.value, day.value, hour.value, minute.value, second.value, nanos, offset))
  }

  lemma ZoneRoundTrip(offset: int)
    requires -1440 < offset < 1440
    ensures |Zone(offset)| >= 1 && Zone(offset)[0] != '.'
    ensures ParseZone(Zone(offset)) == Some(offset)
  {
    if offset != 0 {
      var h, m := Abs(offset) / 60, Abs(offset) % 60;
      PadValue(h, 2);
      PadValue(m, 2);
      var z := Zone(offset);
      assert z[1..3] == Pad(h, 2);
      assert z[4..6] == Pad(m, 2);
    }
  }

  lemma DatePartShape(t: DateTime)
    requires Valid(t)
    ensures var d := DatePart(t);
      |d| == 10 && d[4] == '-' && d[7] == '-'
      && Value(d[0..4]) == Some(t.year) && Value(d[5..7]) == Some(t.month) && Value(d[8..10]) == Some(t.day)
  {
    PadValue(t.year, 4);
    PadValue(t.month, 2);
    PadValue(t.day, 2);
    var d := DatePart(t);
    assert d[0..4] == Pad(t.year, 4);
    assert d[5..7] == Pad(t.month, 2);
    assert d[8..10] == Pad(t.day, 2);
  }

  lemma ClockPartShape(t: DateTime)
    requires Valid(t)
    ensures var c := ClockPart(t);
      |c| == 8 && c[2] == ':' && c[5] == ':'
      && Value(c[0..2]) == Some(t.hour) && Value(c[3..5]) == Some(t.minute) && Value(c[6..8]) == Some(t.second)
  {
    PadValue(t.hour, 2);
    PadValue(t.minute, 2);
    PadValue(t.second, 2);
    var c := ClockPart(t);
    assert c[0..2] == Pad(t.hour, 2);
    assert c[3..5] == Pad(t.minute, 2);
    assert c[6..8] == Pad(t.second, 2);
  }

  /** Formatting a whole-second time and parsing the text gives back the same time. */
  lemma ParseFormat(t: DateTime)
    requires Valid(t) && WholeSecond(t)
    ensures Parse(Format(t)) == Some(t)
  {
    var s := Format(t);
    FormatFields(t);
    ZoneRoundTrip(t.offsetMinutes);
    assert ParseFraction(s[19..]) == (0, s[19..]);
  }

  /** Where `Format` puts each field, and that each reads back. */
  lemma FormatFields(t: DateTime)
    requires Valid(t)
    ensures var s := Format(t);
      && |s| >= 19
      && Value(s[0..4]) == Some(t.year) && Value(s[5..7]) == Some(t.month) && Value(s[8..10]) == Some(t.day)
      && Value(s[11..13]) == Some(t.hour) && Value(s[14..16]) == Some(t.minute) && Value(s[17..19]) == Some(t.second)
      && s[4] == '-' && s[7] == '-' && s[10] == 'T' && s[13] == ':' && s[16] == ':'
      && s[19..] == Zone(t.offsetMinutes)
  {
    DatePartShape(t);
    ClockPartShape(t);
    Layout(DatePart(t), ClockPart(t), Zone(t.offsetMinutes));
  }

  /** Where the date, the clock and the zone sit in `date + "T" + clock + zone`. */
  lemma Layout(d: string, c: string, z: string)
    requires |d| == 10 && |c| == 8
    ensures var s := d + "T" + c + z;
      && |s| >= 19
      && s[0..4] == d[0..4] && s[5..7] == d[5..7] && s[8..10] == d[8..10]
      && s[11..13] == c[0..2] && s[14..16] == c[3..5] && s[17..19] == c[6..8]
      && s[4] == d[4] && s[7] == d[7] && s[10] == 'T' && s[13] == c[2] && s[16] == c[5]
      && s[19..] == z
  {
    var s := d + "T" + c + z;
    assert s[..10] == d;
    assert s[11..19] == c;
    assert s[19..] == z;
  }

  /** Any time the layout can spell reads back with its fractional second dropped. */
  lemma ParseFormatTruncates(t: DateTime)
    requires Valid(t)
    ensures Parse(Format(t)) == Some(t.(nanosecond := 0))
  {
    assert Format(t) == Format(t.(nanosecond := 0));
    ParseFormat(t.(nanosecond := 0));
  }

  /** Days from 0000-01-01 to the first day of year y in the proleptic Gregorian calendar. */
  function DaysBeforeYear(y: nat): int {
    365 * y + (y + 3) / 4 - (y + 99) / 100 + (y + 399) / 400
  }

  function DaysBeforeMonth(month: nat, year: nat): int
    decreases month
  {
    if month <= 1 then 0 else DaysBeforeMonth(month - 1, year) + DaysIn(month - 1, year)
  }

  /** Whole seconds since 1970-01-01T00:00:00Z: the instant a date-time names. */
  function UnixSeconds(t: DateTime): int {
    var days := DaysBeforeYear(t.year) + DaysBeforeMonth(t.month, t.year) + t.day - 1 - DaysBeforeYear(1970);
    days * 86400 + t.hour * 3600 + t.minute * 60 + t.second - t.offsetMinutes * 60
  }

  /** Nanoseconds since the Unix epoch; larger means later. */
  function EpochNanos(t: DateTime): int {
    UnixSeconds(t) * 1_000_000_000 + t.nanosecond
  }
}
