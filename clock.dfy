/** Instants and the four layouts the tool writes and reads with Go's time
    package: RFC 3339 ("2006-01-02T15:04:05Z07:00"), the zone-less
    "2006-01-02T15:04:05", the directory-name "2006-01-02T15:04:05.000" and
    the table column "2006-01-02 15:04:05". Readings of the wall clock are
    parameters of the operations that need them. */
module Clock {
  import opened Wrappers
  import opened Decimal

  /** A time.Time as the civil fields in a fixed zone `offset` seconds east of UTC. */
  datatype DateTime = DateTime(
    year: int, month: int, day: int,
    hour: int, minute: int, second: int, nanos: int,
    offset: int)

  /** Go's zero Time: January 1, year 1, 00:00:00 UTC. */
  const ZeroTime := DateTime(1, 1, 1, 0, 0, 0, 0, 0)

  predicate IsLeap(year: int) {
    year % 4 == 0 && (year % 100 != 0 || year % 400 == 0)
  }

  function DaysIn(month: int, year: int): (n: int)
    ensures 28 <= n <= 31
  {
    if month == 2 then (if IsLeap(year) then 29 else 28)
    else if month == 4 || month == 6 || month == 9 || month == 11 then 30
    else 31
  }

  /** The ranges time.Parse enforces on a layout with a four-digit year. */
  predicate ValidCivil(t: DateTime) {
    0 <= t.year <= 9999 && 1 <= t.month <= 12 && 1 <= t.day <= DaysIn(t.month, t.year)
    && 0 <= t.hour < 24 && 0 <= t.minute < 60 && 0 <= t.second < 60
    && 0 <= t.nanos < 1_000_000_000
  }

  /** A zone offset that RFC 3339 text writes as ±hh:mm with hh below 24. */
  predicate ValidOffset(offset: int) {
    offset % 60 == 0 && -86400 < offset < 86400
  }

  predicate Valid(t: DateTime) {
    ValidCivil(t) && ValidOffset(t.offset)
  }

  // ---------------------------------------------------------------------
  // Instants, Before/After and Sub

  function DaysBeforeMonth(month: int, year: int): int
    decreases month
  {
    if month <= 1 then 0 else DaysBeforeMonth(month - 1, year) + DaysIn(month - 1, year)
  }

  /** Days from January 1 of year 1 to January 1 of `year`, proleptic Gregorian. */
  function DaysBeforeYear(year: int): int {
    365 * (year - 1) + (year - 1) / 4 - (year - 1) / 100 + (year - 1) / 400
  }

  /** Nanoseconds from the zero Time to `t`. */
  function Instant(t: DateTime): int {
    var days := DaysBeforeYear(t.year) + DaysBeforeMonth(t.month, t.year) + t.day - 1;
    (days * 86400 + t.hour * 3600 + t.minute * 60 + t.second - t.offset) * 1_000_000_000 + t.nanos
  }

  predicate Before(a: DateTime, b: DateTime) { Instant(a) < Instant(b) }

  predicate After(a: DateTime, b: DateTime) { Instant(a) > Instant(b) }

  /** The range of a time.Duration, an int64 count of nanoseconds. */
  const MinDuration := MinInt64
  const MaxDuration := MaxInt64

  /** A count of nanoseconds clamped to the range of a Duration. */
  function Saturate(d: int): (r: int)
    ensures MinDuration <= r <= MaxDuration
    ensures MinDuration <= d <= MaxDuration ==> r == d
    ensures (r < 0 <==> d < 0) && (r == 0 <==> d == 0)
  {
    if d < MinDuration then MinDuration else if d > MaxDuration then MaxDuration else d
  }

  /** a.Sub(b) in nanoseconds: the difference of the instants, or the
      nearer bound of a Duration when it does not fit one (Time.Sub
      saturates). */
  function Sub(a: DateTime, b: DateTime): (d: int)
    ensures MinDuration <= d <= MaxDuration
    ensures MinDuration <= Instant(a) - Instant(b) <= MaxDuration ==> d == Instant(a) - Instant(b)
    ensures (d < 0 <==> Before(a, b)) && (d == 0 <==> Instant(a) == Instant(b))
  {
    Saturate(Instant(a) - Instant(b))
  }

  /** DaysBeforeMonth counts whole months, so it is never negative. */
  lemma {:induction false} DaysBeforeMonthNonNegative(month: int, year: int)
    ensures DaysBeforeMonth(month, year) >= 0
    decreases month
  {
    if month > 1 {
      DaysBeforeMonthNonNegative(month - 1, year);
    }
  }

  /** A valid time from year 300 on lies more than the largest Duration
      after the zero Time, so the zero Time's Sub of it saturates. */
  lemma SubFromZeroSaturates(t: DateTime)
    requires Valid(t) && t.year >= 300
    ensures Sub(ZeroTime, t) == MinDuration
  {
    DaysBeforeMonthNonNegative(t.month, t.year);
    var n := t.year - 1;
    assert n / 4 >= 0 && n / 100 <= n && n / 400 >= 0;
    var days := DaysBeforeYear(t.year) + DaysBeforeMonth(t.month, t.year) + t.day - 1;
    assert days >= 364 * 299;
    var secs := days * 86400 + t.hour * 3600 + t.minute * 60 + t.second - t.offset;
    assert secs >= 364 * 299 * 86400 - 86400;
    assert Instant(t) == secs * 1_000_000_000 + t.nanos;
    assert Instant(ZeroTime) == 0;
  }

  // ---------------------------------------------------------------------
  // Formatting (Time.Format)

  /** "2006-01-02<sep>15:04:05" followed by `rest`. */
  function ClockText(t: DateTime, sep: char, rest: string): string {
    PadInt(t.year, 4) + ("-" + (PadInt(t.month, 2) + ("-" + (PadInt(t.day, 2) + ([sep] + TimeText(t, rest))))))
  }

  /** The "Z07:00" element: "Z" in UTC, otherwise the sign, hours and minutes east of UTC. */
  function ZoneText(offset: int): string {
    if offset == 0 then "Z"
    else
      var a := if offset < 0 then -offset else offset;
      (if offset < 0 then "-" else "+") + Pad(a / 60 / 60, 2) + ":" + Pad(a / 60 % 60, 2)
  }

  /** time.RFC3339 */
  function FormatRFC3339(t: DateTime): string {
    ClockText(t, 'T', ZoneText(t.offset))
  }

  /** "2006-01-02T15:04:05" */
  function FormatPlain(t: DateTime): string {
    ClockText(t, 'T', "")
  }

  /** "2006-01-02T15:04:05.000": the fraction is cut, not rounded, to milliseconds. */
  function FormatMillis(t: DateTime): string {
    ClockText(t, 'T', "." + Pad(t.nanos % 1_000_000_000 / 1_000_000, 3))
  }

  /** "2006-01-02 15:04:05" */
  function FormatSpaced(t: DateTime): string {
    ClockText(t, ' ', "")
  }

  lemma PadIntExclude(n: int, w: nat, c: char)
    requires !IsDigit(c) && c != '-'
    ensures c !in PadInt(n, w)
  {
    DigitsExclude(Pad(if n < 0 then -n else n, w), c);
  }

  /** The clock part adds only digits, '-', ':' and its separator to `rest`. */
  lemma ClockTextExclude(t: DateTime, sep: char, rest: string, c: char)
    requires !IsDigit(c) && c != '-' && c != ':' && c != sep && c !in rest
    ensures c !in ClockText(t, sep, rest)
  {
    PadIntExclude(t.second, 2, c);
    var s1 := ":" + (PadInt(t.second, 2) + rest);
    PadIntExclude(t.minute, 2, c);
    var s2 := ":" + (PadInt(t.minute, 2) + s1);
    PadIntExclude(t.hour, 2, c);
    assert c !in TimeText(t, rest) by { assert TimeText(t, rest) == PadInt(t.hour, 2) + s2; }
    var s3 := "-" + (PadInt(t.day, 2) + ([sep] + TimeText(t, rest)));
    PadIntExclude(t.day, 2, c);
    PadIntExclude(t.month, 2, c);
    PadIntExclude(t.year, 4, c);
    assert ClockText(t, sep, rest) == PadInt(t.year, 4) + ("-" + (PadInt(t.month, 2) + s3));
  }

  /** The zone element is made of digits and the characters "Z+-:". */
  lemma ZoneTextExclude(offset: int, c: char)
    requires !IsDigit(c) && c != '-' && c != ':' && c != 'Z' && c != '+'
    ensures c !in ZoneText(offset)
  {
    if offset != 0 {
      var a := if offset < 0 then -offset else offset;
      DigitsExclude(Pad(a / 60 / 60, 2), c);
      DigitsExclude(Pad(a / 60 % 60, 2), c);
    }
  }

  /** RFC 3339 text is made of digits and the characters "-:+TZ" only. */
  lemma FormatRFC3339Exclude(t: DateTime, c: char)
    requires !IsDigit(c) && c != '-' && c != ':' && c != 'T' && c != 'Z' && c != '+'
    ensures c !in FormatRFC3339(t)
  {
    ZoneTextExclude(t.offset, c);
    ClockTextExclude(t, 'T', ZoneText(t.offset), c);
  }

  // ---------------------------------------------------------------------
  // Parsing (time.Parse, general parser)

  /** A number read from the front of the input and the text after it. */
  datatype Field = Field(value: int, rest: string)

  /** The four-digit year element "2006". */
  function Year4(s: string): Option<Field> {
    if |s| < 4 || !AllDigits(s[..4]) then None else Some(Field(Value(s[..4]), s[4..]))
  }

  /** getnum: one or two digits, exactly two when `fixed`. */
  function GetNum(s: string, fixed: bool): Option<Field> {
    if |s| == 0 || !IsDigit(s[0]) then None
    else if |s| < 2 || !IsDigit(s[1]) then
      (if fixed then None else Some(Field(DigitValue(s[0]), s[1..])))
    else Some(Field(DigitValue(s[0]) * 10 + DigitValue(s[1]), s[2..]))
  }

  /** A literal character of the layout. */
  function Skip(s: string, c: char): Option<string> {
    if |s| > 0 && s[0] == c then Some(s[1..]) else None
  }

  function DigitRun(s: string): (n: nat)
    ensures n <= |s| && AllDigits(s[..n])
    ensures n < |s| ==> !IsDigit(s[n])
  {
    if s != [] && IsDigit(s[0]) then
      var n := 1 + DigitRun(s[1..]);
      assert s[..n] == [s[0]] + s[1..][..n - 1];
      n
    else 0
  }

  /** Digits followed by a non-digit (or by nothing) make up the whole digit run. */
  lemma {:induction false} DigitRunOf(g: string, rest: string)
    requires AllDigits(g) && (rest == [] || !IsDigit(rest[0]))
    ensures DigitRun(g + rest) == |g|
    decreases |g|
  {
    if g == [] {
      assert g + rest == rest;
    } else {
      assert (g + rest)[1..] == g[1..] + rest;
      DigitRunOf(g[1..], rest);
    }
  }

  predicate StartsFraction(s: string) {
    |s| >= 2 && (s[0] == '.' || s[0] == ',') && IsDigit(s[1])
  }

  /** A fraction after the seconds that the layout does not mention: a period
      or comma and all the digits that follow, of which the first nine count. */
  function ImplicitFraction(s: string): Field {
    if StartsFraction(s) then
      var n := 1 + DigitRun(s[1..]);
      var k := if n > 10 then 10 else n;
      assert s[1..k] == s[1..][..k - 1];
      Field(Value(s[1..k]) * Pow10(10 - k), s[n..])
    else Field(0, s)
  }

  /** The "2006-01-02T15:04:05" elements of a layout, with the range checks
      time.Parse makes; `fracInLayout` says that the layout goes on with a
      fraction of its own. The result is in UTC with no fraction unless an
      implicit one was read. */
  function ParseClock(s: string, fracInLayout: bool): (r: Option<(DateTime, string)>)
    ensures r.Some? ==> ValidCivil(r.value.0) && r.value.0.offset == 0
  {
    var date :- ParseDate(s);
    var r3 :- Skip(date.3, 'T');
    var h :- GetNum(r3, false);
    var r4 :- Skip(h.rest, ':');
    var mi :- GetNum(r4, true);
    var r5 :- Skip(mi.rest, ':');
    var se :- GetNum(r5, true);
    var frac := if fracInLayout then Field(0, se.rest) else ImplicitFraction(se.rest);
    var t := DateTime(date.0, date.1, date.2, h.value, mi.value, se.value, frac.value, 0);
    if ValidCivil(t) then Some((t, frac.rest)) else None
  }

  /** The "2006-01-02" elements: year, month, day and the text after them. */
  function ParseDate(s: string): Option<(int, int, int, string)> {
    var y :- Year4(s);
    var r1 :- Skip(y.rest, '-');
    var mo :- GetNum(r1, true);
    var r2 :- Skip(mo.rest, '-');
    var d :- GetNum(r2, true);
    Some((y.value, mo.value, d.value, d.rest))
  }

  /** The "Z07:00" element: "Z", or a sign, two hour digits, ':' and two minute
      digits, with hours up to 24 and minutes up to 60 accepted. */
  function ParseZone(s: string): (r: Option<Field>)
    ensures r.Some? ==> r.value.value % 60 == 0 && -90000 <= r.value.value <= 90000
  {
    if |s| >= 1 && s[0] == 'Z' then Some(Field(0, s[1..]))
    else if |s| < 6 || s[3] != ':' || !(s[0] == '+' || s[0] == '-') then None
    else
      var hh :- GetNum(s[1..3], true);
      var mm :- GetNum(s[4..6], true);
      if hh.value > 24 || mm.value > 60 then None
      else
        var east := (hh.value * 60 + mm.value) * 60;
        Some(Field(if s[0] == '-' then -east else east, s[6..]))
  }

  /** time.Parse(time.RFC3339, s) */
  function ParseRFC3339(s: string): (r: Option<DateTime>)
    ensures r.Some? ==> ValidCivil(r.value) && r.value.offset % 60 == 0
  {
    var p :- ParseClock(s, false);
    var z :- ParseZone(p.1);
    if z.rest == [] then Some(p.0.(offset := z.value)) else None
  }

  /** time.Parse("2006-01-02T15:04:05", s): a time in UTC. */
  function ParsePlain(s: string): (r: Option<DateTime>)
    ensures r.Some? ==> ValidCivil(r.value) && r.value.offset == 0
  {
    var p :- ParseClock(s, false);
    if p.1 == [] then Some(p.0) else None
  }

  /** The ".000" element: a period or comma and exactly three digits. */
  function Millis(s: string): (r: Option<Field>)
    ensures r.Some? ==> 0 <= r.value.value < 1_000_000_000
  {
    if |s| < 4 || !(s[0] == '.' || s[0] == ',') || !AllDigits(s[1..4]) then None
    else
      ValueBound(s[1..4]);
      assert Pow10(3) == 1000;
      Some(Field(Value(s[1..4]) * 1_000_000, s[4..]))
  }

  /** time.Parse("2006-01-02T15:04:05.000", s): a time in UTC. */
  function ParseMillis(s: string): (r: Option<DateTime>)
    ensures r.Some? ==> Valid(r.value) && r.value.offset == 0
  {
    var p :- ParseClock(s, true);
    var f :- Millis(p.1);
    if f.rest == [] then Some(p.0.(nanos := f.value)) else None
  }

  // ---------------------------------------------------------------------
  // Round trips

  lemma PadField(n: int, w: nat, rest: string)
    requires 1 <= w && 0 <= n < Pow10(w)
    ensures PadInt(n, w) + rest == Pad(n, w) + rest
    ensures (Pad(n, w) + rest)[..w] == Pad(n, w) && (Pad(n, w) + rest)[w..] == rest
    ensures |Pad(n, w)| == w && Value(Pad(n, w)) == n
  {
    PadValue(n, w);
  }

  lemma GetNumPad(n: int, fixed: bool, rest: string)
    requires 0 <= n < 100
    ensures GetNum(PadInt(n, 2) + rest, fixed) == Some(Field(n, rest))
  {
    PadField(n, 2, rest);
    var p := Pad(n, 2);
    assert Value(p) == Value(p[..1]) * 10 + DigitValue(p[1]);
    assert p[..1][..0] == [];
  }

  lemma Year4Pad(n: int, rest: string)
    requires 0 <= n <= 9999
    ensures Year4(PadInt(n, 4) + rest) == Some(Field(n, rest))
  {
    PadField(n, 4, rest);
  }

  lemma SkipChar(c: char, rest: string)
    ensures Skip([c] + rest, c) == Some(rest)
  {
    assert ([c] + rest)[1..] == rest;
  }

  /** The clock elements read back what ClockText wrote, up to the text after them. */
  lemma ParseClockText(t: DateTime, fracInLayout: bool, rest: string)
    requires ValidCivil(t)
    requires fracInLayout || !StartsFraction(rest)
    ensures ParseClock(ClockText(t, 'T', rest), fracInLayout) == Some((t.(nanos := 0, offset := 0), rest))
  {
    var r1 := "T" + TimeText(t, rest);
    assert ClockText(t, 'T', rest)
        == PadInt(t.year, 4) + ("-" + (PadInt(t.month, 2) + ("-" + (PadInt(t.day, 2) + r1))));
    ParseDateText(t, r1);
    SkipChar('T', TimeText(t, rest));
    ParseTimeText(t, rest);
  }

  /** "15:04:05" followed by `rest`. */
  function TimeText(t: DateTime, rest: string): string {
    PadInt(t.hour, 2) + (":" + (PadInt(t.minute, 2) + (":" + (PadInt(t.second, 2) + rest))))
  }

  lemma ParseDateText(t: DateTime, rest: string)
    requires ValidCivil(t)
    ensures ParseDate(PadInt(t.year, 4) + ("-" + (PadInt(t.month, 2) + ("-" + (PadInt(t.day, 2) + rest)))))
         == Some((t.year, t.month, t.day, rest))
  {
    var q2 := PadInt(t.day, 2) + rest;
    var q1 := "-" + q2;
    var p2 := PadInt(t.month, 2) + q1;
    var p1 := "-" + p2;
    Year4Pad(t.year, p1);
    SkipChar('-', p2);
    GetNumPad(t.month, true, q1);
    SkipChar('-', q2);
    GetNumPad(t.day, true, rest);
  }

  lemma ParseTimeText(t: DateTime, rest: string)
    requires ValidCivil(t)
    ensures var h := GetNum(TimeText(t, rest), false);
      h == Some(Field(t.hour, ":" + (PadInt(t.minute, 2) + (":" + (PadInt(t.second, 2) + rest)))))
      && Skip(h.value.rest, ':') == Some(PadInt(t.minute, 2) + (":" + (PadInt(t.second, 2) + rest)))
      && GetNum(PadInt(t.minute, 2) + (":" + (PadInt(t.second, 2) + rest)), true)
         == Some(Field(t.minute, ":" + (PadInt(t.second, 2) + rest)))
      && Skip(":" + (PadInt(t.second, 2) + rest), ':') == Some(PadInt(t.second, 2) + rest)
      && GetNum(PadInt(t.second, 2) + rest, true) == Some(Field(t.second, rest))
  {
    var r6 := PadInt(t.second, 2) + rest;
    var r5 := ":" + r6;
    var r4 := PadInt(t.minute, 2) + r5;
    var r3 := ":" + r4;
    GetNumPad(t.hour, false, r3);
    SkipChar(':', r4);
    GetNumPad(t.minute, true, r5);
    SkipChar(':', r6);
    GetNumPad(t.second, true, rest);
  }

  lemma ParseZoneText(offset: int)
    requires ValidOffset(offset)
    ensures ParseZone(ZoneText(offset)) == Some(Field(offset, ""))
  {
    if offset != 0 {
      var a := if offset < 0 then -offset else offset;
      var h := a / 60 / 60;
      var m := a / 60 % 60;
      ZoneSplit(a);
      var sign := if offset < 0 then "-" else "+";
      ParseSignedZone(sign, h, m);
      assert ZoneText(offset) == sign + Pad(h, 2) + ":" + Pad(m, 2);
    } else {
      assert "Z"[1..] == "";
    }
  }

  /** Hours and minutes of a whole-minute offset below a day. */
  lemma ZoneSplit(a: int)
    requires 0 <= a < 86400 && a % 60 == 0
    ensures 0 <= a / 60 / 60 < 24 && 0 <= a / 60 % 60 < 60
    ensures a == (a / 60 / 60 * 60 + a / 60 % 60) * 60
  {
    assert a == 60 * (a / 60);
    assert a / 60 == 60 * (a / 60 / 60) + a / 60 % 60;
  }

  /** "±hh:mm" reads back as the signed offset in seconds. */
  lemma ParseSignedZone(sign: string, h: int, m: int)
    requires sign == "-" || sign == "+"
    requires 0 <= h < 24 && 0 <= m < 60
    ensures var east := (h * 60 + m) * 60;
      ParseZone(sign + Pad(h, 2) + ":" + Pad(m, 2)) == Some(Field(if sign == "-" then -east else east, ""))
  {
    var hh := Pad(h, 2);
    var mm := Pad(m, 2);
    PadValue(h, 2);
    PadValue(m, 2);
    var z := sign + hh + ":" + mm;
    assert z[1..3] == hh + "" && z[4..6] == mm + "" && z[6..] == "";
    GetNumPad(h, true, "");
    GetNumPad(m, true, "");
    assert GetNum(z[1..3], true) == Some(Field(h, ""));
    assert GetNum(z[4..6], true) == Some(Field(m, ""));
    assert |z| == 6 && z[3] == ':' && z[0] == sign[0];
  }

  /** RFC 3339 text reads back as the same civil time and zone, without the fraction it does not write. */
  lemma RFC3339RoundTrip(t: DateTime)
    requires Valid(t)
    ensures ParseRFC3339(FormatRFC3339(t)) == Some(t.(nanos := 0))
  {
    ParseClockText(t, false, ZoneText(t.offset));
    ParseZoneText(t.offset);
  }

  /** The zone-less layout reads back as the same civil fields, in UTC. */
  lemma PlainRoundTrip(t: DateTime)
    requires ValidCivil(t)
    ensures ParsePlain(FormatPlain(t)) == Some(t.(nanos := 0, offset := 0))
  {
    ParseClockText(t, false, "");
  }

  /** The directory-name layout reads back as the same civil fields cut to milliseconds, in UTC. */
  lemma MillisRoundTrip(t: DateTime)
    requires ValidCivil(t)
    ensures ParseMillis(FormatMillis(t)) == Some(t.(nanos := t.nanos / 1_000_000 * 1_000_000, offset := 0))
  {
    var ms := t.nanos % 1_000_000_000 / 1_000_000;
    assert ms == t.nanos / 1_000_000;
    var f := "." + Pad(ms, 3);
    ParseClockText(t, true, f);
    assert ParseClock(FormatMillis(t), true) == Some((t.(nanos := 0, offset := 0), f));
    MillisText(ms);
  }

  /** The ".000" element reads back the milliseconds it wrote, as nanoseconds. */
  lemma MillisText(ms: int)
    requires 0 <= ms < 1000
    ensures Millis("." + Pad(ms, 3)) == Some(Field(ms * 1_000_000, ""))
  {
    var f := "." + Pad(ms, 3);
    PadValue(ms, 3);
    assert f[1..4] == Pad(ms, 3);
    assert f[4..] == "";
  }
}
