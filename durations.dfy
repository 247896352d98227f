/** time.Duration arithmetic the tool relies on: rounding to the second, the
    "Hh Mm Ss" rendering, and the `<N>[dhm]` age specifications. Durations are
    nanoseconds. */
module Durations {
  import opened Wrappers
  import opened Decimal

  const Second: int := 1_000_000_000
  const Minute: int := 60 * Second
  const Hour: int := 60 * Minute

  /** Go's `/` on integers, which truncates toward zero. */
  function TDiv(a: int, b: int): int
    requires b > 0
  {
    if a >= 0 then a / b else -((-a) / b)
  }

  /** Go's `%` on integers, whose result has the sign of the dividend. */
  function TMod(a: int, b: int): int
    requires b > 0
  {
    a - b * TDiv(a, b)
  }

  /** Two's-complement wrap-around of a 64-bit signed product. */
  function Wrap64(x: int): (r: int)
    ensures InInt64(r)
    ensures InInt64(x) ==> r == x
  {
    (x - MinInt64) % 0x1_0000_0000_0000_0000 + MinInt64
  }

  /** Go's unary minus on an int64: it negates, except that the negation of
      the smallest value wraps around to that value itself. */
  function Neg64(d: int): (r: int)
    requires InInt64(d)
    ensures InInt64(r)
    ensures d != MinInt64 ==> r == -d
    ensures d == MinInt64 ==> r == MinInt64
  {
    Wrap64(-d)
  }

  /** Duration.Round(time.Second): to the nearest second, halves away from
      zero, saturating at the ends of the int64 range. */
  function RoundToSecond(d: int): int {
    var a := if d < 0 then -d else d;
    var r := a % Second;
    var mag := if r + r < Second then a - r else a - r + Second;
    if d < 0 then (if -mag < MinInt64 then MinInt64 else -mag)
    else (if mag > MaxInt64 then MaxInt64 else mag)
  }

  /** The three numbers formatDuration prints: whole hours, then minutes and
      seconds as Go's truncating `% 60` leaves them. */
  function Fields(d: int): (int, int, int) {
    var r := RoundToSecond(d);
    (TDiv(r, Hour), TMod(TDiv(r, Minute), 60), TMod(TDiv(r, Second), 60))
  }

  /** formatDuration: "Hh Mm Ss" when there are hours, "Mm Ss" when there are
      minutes, otherwise "Ss". */
  function FormatDuration(d: int): string {
    var (h, m, s) := Fields(d);
    if h > 0 then Itoa(h) + "h " + Itoa(m) + "m " + Itoa(s) + "s"
    else if m > 0 then Itoa(m) + "m " + Itoa(s) + "s"
    else Itoa(s) + "s"
  }

  /** The rendering is made of digits, minus signs, spaces and the unit letters only. */
  lemma FormatDurationExclude(d: int, c: char)
    requires !IsDigit(c) && c != '-' && c != ' ' && c != 'h' && c != 'm' && c != 's'
    ensures c !in FormatDuration(d)
  {
    var (h, m, s) := Fields(d);
    ItoaExclude(h, c);
    ItoaExclude(m, c);
    ItoaExclude(s, c);
  }

  /** A rounded duration is the multiple of a second nearest to the original,
      ties going away from zero, wherever that multiple is an int64. */
  lemma RoundToSecondNearest(d: int)
    requires MinInt64 + Second <= d <= MaxInt64 - Second
    ensures RoundToSecond(d) % Second == 0
    ensures -Second / 2 <= RoundToSecond(d) - d <= Second / 2
    ensures RoundToSecond(d) - d == Second / 2 ==> d > 0
    ensures RoundToSecond(d) - d == -Second / 2 ==> d < 0
  {
  }

  /** For a non-negative duration the printed hours, minutes and seconds are
      in range and add up to the rounded number of seconds. */
  lemma FieldsSum(d: int)
    requires 0 <= d <= MaxInt64
    ensures var (h, m, s) := Fields(d);
      h >= 0 && 0 <= m < 60 && 0 <= s < 60 && 3600 * h + 60 * m + s == RoundToSecond(d) / Second
  {
    var r := RoundToSecond(d);
    assert r >= 0;
    var secs := r / Second;
    assert r / Minute == secs / 60;
    assert r / Hour == secs / 3600;
    assert secs / 3600 == (secs / 60) / 60;
  }

  // ---------------------------------------------------------------------
  // "<N>d", "<N>h", "<N>m"

  predicate IsUnit(c: char) { c == 'd' || c == 'h' || c == 'm' }

  function UnitLength(c: char): int
    requires IsUnit(c)
  {
    if c == 'd' then 24 * Hour else if c == 'h' then Hour else Minute
  }

  /** The text matches `^(\d+)([dhm])$`. */
  predicate SpanSyntax(s: string) {
    |s| >= 2 && AllDigits(s[..|s| - 1]) && IsUnit(s[|s| - 1])
  }

  /** parseDuration / the body of parseCutoff: `hint` is the example text of
      the format error ("7d, 24h" or "30d, 12h"). The product is an int64
      and wraps like one. */
  function ParseSpan(s: string, hint: string): (r: Result<int>)
    ensures r.Ok? ==> InInt64(r.value)
  {
    if !SpanSyntax(s) then
      Err("invalid duration format: " + s + " (expected " + hint + ", etc.)")
    else
      var digits := s[..|s| - 1];
      match Atoi(digits)
      case None => Err("invalid duration value: " + digits)
      case Some(n) => Ok(Wrap64(n * UnitLength(s[|s| - 1])))
  }

  /** Exactly the texts `^\d+[dhm]$` whose number fits an int are accepted, and
      the result is the number of units, as long as that fits a Duration. */
  lemma ParseSpanAccepts(s: string, hint: string)
    ensures ParseSpan(s, hint).Ok? <==> SpanSyntax(s) && Value(s[..|s| - 1]) <= MaxInt64
    ensures ParseSpan(s, hint).Ok? && Value(s[..|s| - 1]) * UnitLength(s[|s| - 1]) <= MaxInt64 ==>
      ParseSpan(s, hint).value == Value(s[..|s| - 1]) * UnitLength(s[|s| - 1])
    ensures ParseSpan(s, hint).Ok? ==> ParseSpan(s, hint).value == Wrap64(Value(s[..|s| - 1]) * UnitLength(s[|s| - 1]))
  {
    if SpanSyntax(s) {
      var digits := s[..|s| - 1];
      assert digits[0] == s[0];
      if Value(digits) <= MaxInt64 {
        assert Atoi(digits) == Some(Value(digits));
      }
    }
  }

  /** Any count that fits an int64 is read with its unit, and the product
      wraps like an int64 whatever its size. */
  lemma ParseSpanWraps(n: nat, u: char, hint: string)
    requires IsUnit(u) && n <= MaxInt64
    ensures ParseSpan(Itoa(n) + [u], hint) == Ok(Wrap64(n * UnitLength(u)))
  {
    var s := Itoa(n) + [u];
    assert s[..|s| - 1] == DecimalText(n);
    DecimalValue(n);
    ParseSpanAccepts(s, hint);
    assert Atoi(s[..|s| - 1]) == Some(n);
  }

  /** 2^47 days are 2^63 times an odd number of nanoseconds, so the product
      wraps to the smallest Duration. */
  lemma DaysWrapToMin(n: nat)
    requires n == 0x8000_0000_0000
    ensures Wrap64(n * UnitLength('d')) == MinInt64
  {
    assert n * UnitLength('d') - MinInt64 == 0x1_0000_0000_0000_0000 * 659179688;
  }

  /** A span can wrap to the smallest Duration: "140737488355328d". */
  lemma SpanWrapsToMin(n: nat, hint: string)
    requires n == 0x8000_0000_0000
    ensures ParseSpan(Itoa(n) + "d", hint) == Ok(MinInt64)
  {
    ParseSpanWraps(n, 'd', hint);
    DaysWrapToMin(n);
  }

  /** Writing a count and a unit and reading it back gives the count of units. */
  lemma ParseSpanOfText(n: nat, u: char, hint: string)
    requires IsUnit(u) && n * UnitLength(u) <= MaxInt64
    ensures ParseSpan(Itoa(n) + [u], hint) == Ok(n * UnitLength(u))
  {
    var s := Itoa(n) + [u];
    assert s[..|s| - 1] == DecimalText(n);
    DecimalValue(n);
    assert n <= MaxInt64;
    ParseSpanAccepts(s, hint);
  }
}
