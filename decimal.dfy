/** Decimal text of integers: strconv.Itoa / fmt's %d, strconv.Atoi, and the
    zero-padded fields time.Format writes. */
module Decimal {
  import opened Wrappers

  const MaxInt64: int := 0x7fff_ffff_ffff_ffff
  const MinInt64: int := -0x8000_0000_0000_0000

  predicate InInt64(n: int) { MinInt64 <= n <= MaxInt64 }

  predicate IsDigit(c: char) { '0' <= c <= '9' }

  predicate AllDigits(s: string) { forall i | 0 <= i < |s| :: IsDigit(s[i]) }

  function DigitValue(c: char): (d: nat)
    requires IsDigit(c)
    ensures d < 10
  {
    (c as int) - ('0' as int)
  }

  function DigitChar(d: nat): (c: char)
    requires d < 10
    ensures IsDigit(c) && DigitValue(c) == d
  {
    (('0' as int) + d) as char
  }

  /** The number a run of digits denotes, read most significant first. */
  function Value(s: string): nat
    requires AllDigits(s)
  {
    if s == [] then 0 else Value(s[..|s| - 1]) * 10 + DigitValue(s[|s| - 1])
  }

  function Pow10(n: nat): (p: nat)
    ensures p >= 1
  {
    if n == 0 then 1 else 10 * Pow10(n - 1)
  }

  /** The shortest decimal text of `n`. */
  function DecimalText(n: nat): (s: string)
    ensures |s| >= 1 && AllDigits(s)
  {
    if n < 10 then [DigitChar(n)] else DecimalText(n / 10) + [DigitChar(n % 10)]
  }

  function Zeros(k: nat): (s: string)
    ensures |s| == k && AllDigits(s)
  {
    if k == 0 then "" else Zeros(k - 1) + "0"
  }

  /** `n` in decimal, zero-padded on the left to at least `w` digits. */
  function Pad(n: nat, w: nat): (s: string)
    ensures AllDigits(s)
  {
    var d := DecimalText(n);
    if |d| >= w then d else Zeros(w - |d|) + d
  }

  /** As Go's time package writes a number field of width `w`: a minus sign, then the padded digits. */
  function PadInt(n: int, w: nat): string {
    if n < 0 then "-" + Pad(-n, w) else Pad(n, w)
  }

  /** strconv.Itoa / %d */
  function Itoa(n: int): string {
    if n < 0 then "-" + DecimalText(-n) else DecimalText(n)
  }

  /** strconv.Atoi on a 64-bit platform: an optional sign, at least one
      ASCII digit and nothing else, and a value that fits in int64. */
  function Atoi(s: string): Option<int> {
    if |s| > 0 && (s[0] == '-' || s[0] == '+') then
      var body := s[1..];
      if body != [] && AllDigits(body) then
        var v: int := if s[0] == '-' then 0 - Value(body) as int else Value(body);
        if InInt64(v) then Some(v) else None
      else None
    else if s != [] && AllDigits(s) && Value(s) <= MaxInt64 then Some(Value(s))
    else None
  }

  /** A character that is not a digit does not occur in a run of digits. */
  lemma DigitsExclude(s: string, c: char)
    requires AllDigits(s) && !IsDigit(c)
    ensures c !in s
  {
    assert forall i | 0 <= i < |s| :: s[i] != c;
  }

  /** Itoa writes digits and at most a minus sign. */
  lemma ItoaExclude(n: int, c: char)
    requires !IsDigit(c) && c != '-'
    ensures c !in Itoa(n)
  {
    if n < 0 {
      DigitsExclude(DecimalText(-n), c);
    } else {
      DigitsExclude(DecimalText(n), c);
    }
  }

  // ---------------------------------------------------------------------

  lemma {:induction false} DecimalValue(n: nat)
    ensures Value(DecimalText(n)) == n
  {
    if n >= 10 {
      var d := DecimalText(n / 10) + [DigitChar(n % 10)];
      assert d[..|d| - 1] == DecimalText(n / 10);
      DecimalValue(n / 10);
    }
  }

  lemma {:induction false} ValueBound(s: string)
    requires AllDigits(s)
    ensures Value(s) < Pow10(|s|)
  {
    if s != [] {
      ValueBound(s[..|s| - 1]);
    }
  }

  lemma {:induction false} DecimalLength(n: nat, w: nat)
    requires n < Pow10(w)
    ensures |DecimalText(n)| <= w || (n == 0 && w == 0)
  {
    if n >= 10 {
      assert w >= 1;
      DecimalLength(n / 10, w - 1);
    }
  }

  lemma {:induction false} ZerosValue(k: nat, d: string)
    requires AllDigits(d)
    ensures AllDigits(Zeros(k) + d) && Value(Zeros(k) + d) == Value(d)
    decreases k, |d|
  {
    var s := Zeros(k) + d;
    if d == [] {
      assert s == Zeros(k);
      if k > 0 {
        assert s[..|s| - 1] == Zeros(k - 1) + [];
        ZerosValue(k - 1, []);
      }
    } else {
      assert s[..|s| - 1] == Zeros(k) + d[..|d| - 1];
      ZerosValue(k, d[..|d| - 1]);
    }
  }

  /** A padded field of width `w` holding a value below 10^w is exactly `w` digits and reads back as the value. */
  lemma PadValue(n: nat, w: nat)
    requires 1 <= w && n < Pow10(w)
    ensures |Pad(n, w)| == w && Value(Pad(n, w)) == n
  {
    DecimalLength(n, w);
    DecimalValue(n);
    var d := DecimalText(n);
    if |d| < w {
      ZerosValue(w - |d|, d);
    }
  }

  /** Atoi reads back what Itoa wrote, for every int64. */
  lemma AtoiItoa(n: int)
    requires InInt64(n)
    ensures Atoi(Itoa(n)) == Some(n)
  {
    if n < 0 {
      DecimalValue(-n);
      assert Itoa(n)[1..] == DecimalText(-n);
    } else {
      DecimalValue(n);
    }
  }

  /** Itoa starts with a digit or a minus sign and ends with a digit. */
  lemma ItoaEnds(n: int)
    ensures Itoa(n) != [] && (IsDigit(Itoa(n)[0]) || Itoa(n)[0] == '-') && IsDigit(Itoa(n)[|Itoa(n)| - 1])
  {
    if n < 0 {
      var d := DecimalText(-n);
      assert Itoa(n)[|Itoa(n)| - 1] == d[|d| - 1];
    }
  }
}
