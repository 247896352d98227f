/** The parts of Go's `strings` and `bufio` packages the codecs use, on `seq<char>`. */
module Strings {
  import opened Wrappers

  /** strings.HasPrefix */
  predicate HasPrefix(s: string, p: string) {
    |p| <= |s| && s[..|p|] == p
  }

  /** strings.HasSuffix */
  predicate HasSuffix(s: string, x: string) {
    |x| <= |s| && s[|s| - |x|..] == x
  }

  predicate OccursAt(s: string, sub: string, i: int) {
    0 <= i && i + |sub| <= |s| && s[i..i + |sub|] == sub
  }

  /** strings.Contains */
  predicate Contains(s: string, sub: string) {
    exists i | 0 <= i <= |s| :: OccursAt(s, sub, i)
  }

  /** Index of the first `c` in `s`, or |s| when there is none. */
  function Find(s: string, c: char): (i: nat)
    ensures i <= |s|
    ensures i < |s| ==> s[i] == c
    ensures forall k | 0 <= k < i :: s[k] != c
  {
    if s == [] then 0
    else if s[0] == c then 0
    else 1 + Find(s[1..], c)
  }

  /** strings.Join */
  function Join(parts: seq<string>, sep: string): string {
    if |parts| == 0 then ""
    else if |parts| == 1 then parts[0]
    else parts[0] + sep + Join(parts[1..], sep)
  }

  /** unicode.IsSpace, the test strings.TrimSpace applies at both ends. */
  predicate IsSpace(c: char) {
    c == '\t' || c == '\n' || c == '\U{000B}' || c == '\U{000C}' || c == '\r' || c == ' '
    || c == '\U{0085}' || c == '\U{00A0}' || c == '\U{1680}' || ('\U{2000}' <= c <= '\U{200A}')
    || c == '\U{2028}' || c == '\U{2029}' || c == '\U{202F}' || c == '\U{205F}' || c == '\U{3000}'
  }

  function TrimLeft(s: string): (r: string)
    ensures |r| <= |s| && r == s[|s| - |r|..]
    ensures r == [] || !IsSpace(r[0])
  {
    if s != [] && IsSpace(s[0]) then TrimLeft(s[1..]) else s
  }

  function TrimRight(s: string): (r: string)
    ensures |r| <= |s| && r == s[..|r|]
    ensures r == [] || !IsSpace(r[|r| - 1])
  {
    if s != [] && IsSpace(s[|s| - 1]) then TrimRight(s[..|s| - 1]) else s
  }

  /** strings.TrimSpace */
  function TrimSpace(s: string): string {
    TrimRight(TrimLeft(s))
  }

  /** The text after the first `c`, as `strings.SplitN(s, c, 2)[1]`; None when `c` does not occur. */
  function AfterFirst(s: string, c: char): Option<string> {
    var i := Find(s, c);
    if i < |s| then Some(s[i + 1..]) else None
  }

  /** `strings.SplitN(s, c, 3)[1]`: the text between the first and the second `c` (or the end). */
  function BetweenFirstTwo(s: string, c: char): Option<string> {
    var i := Find(s, c);
    if i < |s| then
      var rest := s[i + 1..];
      Some(rest[..Find(rest, c)])
    else None
  }

  // ---------------------------------------------------------------------
  // bufio.Scanner with ScanLines

  function DropCR(s: string): string {
    if |s| > 0 && s[|s| - 1] == '\r' then s[..|s| - 1] else s
  }

  /** The tokens bufio.ScanLines yields for a whole file when no line is too
      long for the scanner's buffer: split after each newline, drop one
      trailing carriage return, no empty final token. */
  function Lines(s: string): seq<string>
    decreases |s|
  {
    if s == [] then []
    else
      var i := Find(s, '\n');
      if i < |s| then [DropCR(s[..i])] + Lines(s[i + 1..])
      else [DropCR(s)]
  }

  /** A line that the scanner hands back unchanged once a newline follows it. */
  predicate PlainLine(l: string) {
    '\n' !in l && (l == [] || l[|l| - 1] != '\r')
  }

  /** Each line followed by a newline, the way the writers terminate every line. */
  function Unlines(ls: seq<string>): string {
    if ls == [] then "" else ls[0] + "\n" + Unlines(ls[1..])
  }

  lemma FindAppend(a: string, b: string, c: char)
    requires Find(a, c) < |a|
    ensures Find(a + b, c) == Find(a, c)
  {
    if a[0] != c {
      assert (a + b)[1..] == a[1..] + b;
      FindAppend(a[1..], b, c);
    }
  }

  lemma {:induction false} LinesAppend(a: string, b: string)
    requires a == [] || a[|a| - 1] == '\n'
    ensures Lines(a + b) == Lines(a) + Lines(b)
    decreases |a|
  {
    if a == [] {
      assert a + b == b;
    } else {
      var i := Find(a, '\n');
      assert a[|a| - 1] == '\n';
      FindAppend(a, b, '\n');
      assert (a + b)[..i] == a[..i];
      assert (a + b)[i + 1..] == a[i + 1..] + b;
      LinesAppend(a[i + 1..], b);
    }
  }

  lemma LineNewline(l: string, rest: string)
    requires PlainLine(l)
    ensures Lines(l + "\n" + rest) == [l] + Lines(rest)
  {
    var s := l + "\n" + rest;
    assert Find(l + "\n", '\n') == |l| by {
      assert (l + "\n")[|l|] == '\n';
    }
    FindAppend(l + "\n", rest, '\n');
    assert s[..|l|] == l;
    assert s[|l| + 1..] == rest;
  }

  lemma {:induction false} LinesOfUnlines(ls: seq<string>)
    requires forall l | l in ls :: PlainLine(l)
    ensures Lines(Unlines(ls)) == ls
  {
    if ls != [] {
      LineNewline(ls[0], Unlines(ls[1..]));
      LinesOfUnlines(ls[1..]);
    }
  }

  lemma {:induction false} UnlinesAppend(a: seq<string>, b: seq<string>)
    ensures Unlines(a + b) == Unlines(a) + Unlines(b)
  {
    if a != [] {
      assert (a + b)[1..] == a[1..] + b;
      UnlinesAppend(a[1..], b);
    } else {
      assert a + b == b;
    }
  }

  lemma UnlinesEndsInNewline(ls: seq<string>)
    ensures Unlines(ls) == [] || Unlines(ls)[|Unlines(ls)| - 1] == '\n'
  {
    if ls != [] {
      UnlinesEndsInNewline(ls[1..]);
    }
  }

  // ---------------------------------------------------------------------
  // bufio.Scanner's buffer limit

  /** bufio.MaxScanTokenSize: a default Scanner's buffer grows to at most 64 KiB. */
  const MaxTokenSize := 64 * 1024

  /** The lines of a text before ScanLines drops carriage returns. */
  function RawLines(s: string): seq<string>
    decreases |s|
  {
    if s == [] then []
    else
      var i := Find(s, '\n');
      if i < |s| then [s[..i]] + RawLines(s[i + 1..]) else [s]
  }

  /** Every line, with its newline, fits the scanner's buffer, so the scanner
      does not stop with ErrTooLong. */
  predicate ShortLines(s: string) {
    forall l | l in RawLines(s) :: |l| < MaxTokenSize
  }

  /** The index of the first line too long for the buffer, or |ls|. */
  function FirstLong(ls: seq<string>): (n: nat)
    ensures n <= |ls|
    ensures forall k | 0 <= k < n :: |ls[k]| < MaxTokenSize
    ensures n < |ls| ==> |ls[n]| >= MaxTokenSize
  {
    if ls == [] then 0
    else if |ls[0]| >= MaxTokenSize then 0
    else 1 + FirstLong(ls[1..])
  }

  lemma {:induction false} RawLinesCount(s: string)
    ensures |RawLines(s)| == |Lines(s)|
    decreases |s|
  {
    if s != [] && Find(s, '\n') < |s| {
      RawLinesCount(s[Find(s, '\n') + 1..]);
    }
  }

  /** The tokens a default bufio.Scanner with ScanLines yields before Scan
      returns false: the lines of the text up to the first one that fills the
      whole buffer without a newline, where the scan stops with ErrTooLong. */
  function Scanned(s: string): seq<string> {
    var n := FirstLong(RawLines(s));
    RawLinesCount(s);
    Lines(s)[..n]
  }

  /** The scanner yields the lines of the text up to the first one that does
      not fit its buffer, and stops early with an error iff there is such a
      line; otherwise it yields every line. */
  lemma {:induction false} ScanLinesSpec(s: string)
    ensures |Scanned(s)| <= |Lines(s)| && Scanned(s) == Lines(s)[..|Scanned(s)|]
    ensures |Scanned(s)| <= |RawLines(s)|
    ensures forall k | 0 <= k < |Scanned(s)| :: |RawLines(s)[k]| < MaxTokenSize
    ensures !ShortLines(s) <==> |Scanned(s)| < |RawLines(s)|
    ensures !ShortLines(s) ==> |RawLines(s)[|Scanned(s)|]| >= MaxTokenSize
    ensures ShortLines(s) ==> Scanned(s) == Lines(s)
  {
    RawLinesCount(s);
    var n := FirstLong(RawLines(s));
    assert |Scanned(s)| == n;
    if n < |RawLines(s)| {
      assert RawLines(s)[n] in RawLines(s);
    } else {
      forall l | l in RawLines(s) ensures |l| < MaxTokenSize {
        var k :| 0 <= k < |RawLines(s)| && RawLines(s)[k] == l;
      }
      assert Lines(s)[..n] == Lines(s);
    }
  }

  /** The raw lines of a newline-terminated part and the rest are those of the two parts. */
  lemma {:induction false} RawLinesAppend(a: string, b: string)
    requires a == [] || a[|a| - 1] == '\n'
    ensures RawLines(a + b) == RawLines(a) + RawLines(b)
    decreases |a|
  {
    if a == [] {
      assert a + b == b;
    } else {
      var i := Find(a, '\n');
      assert a[|a| - 1] == '\n';
      FindAppend(a, b, '\n');
      assert (a + b)[..i] == a[..i];
      assert (a + b)[i + 1..] == a[i + 1..] + b;
      RawLinesAppend(a[i + 1..], b);
    }
  }

  lemma {:induction false} FirstLongAppend(x: seq<string>, y: seq<string>)
    ensures FirstLong(x + y) == if FirstLong(x) < |x| then FirstLong(x) else |x| + FirstLong(y)
    decreases |x|
  {
    if x == [] {
      assert x + y == y;
    } else {
      assert (x + y)[1..] == x[1..] + y;
      FirstLongAppend(x[1..], y);
    }
  }

  lemma {:induction false} ShortLinesAppend(a: string, b: string)
    requires a == [] || a[|a| - 1] == '\n'
    ensures ShortLines(a + b) <==> ShortLines(a) && ShortLines(b)
  {
    RawLinesAppend(a, b);
    assert forall l :: l in RawLines(a + b) <==> l in RawLines(a) || l in RawLines(b);
  }

  /** The scanner reads a newline-terminated part followed by the rest as it
      reads the two one after the other, unless it stops in the first. */
  lemma {:induction false} ScanLinesAppend(a: string, b: string)
    requires a == [] || a[|a| - 1] == '\n'
    ensures ShortLines(a) ==> Scanned(a + b) == Scanned(a) + Scanned(b)
    ensures !ShortLines(a) ==> Scanned(a + b) == Scanned(a)
    ensures ShortLines(a + b) <==> ShortLines(a) && ShortLines(b)
  {
    ShortLinesAppend(a, b);
    var ra, rb := RawLines(a), RawLines(b);
    var la, lb := Lines(a), Lines(b);
    var n := FirstLong(RawLines(a + b));
    assert |ra| == |la| && |rb| == |lb| && |RawLines(a + b)| == |Lines(a + b)| by {
      RawLinesCount(a);
      RawLinesCount(b);
      RawLinesCount(a + b);
    }
    assert Scanned(a + b) == Lines(a + b)[..n];
    assert ShortLines(a) <==> FirstLong(ra) == |ra| by {
      ScanLinesSpec(a);
    }
    assert Lines(a + b) == la + lb by {
      LinesAppend(a, b);
    }
    assert n == if FirstLong(ra) < |ra| then FirstLong(ra) else |ra| + FirstLong(rb) by {
      RawLinesAppend(a, b);
      FirstLongAppend(ra, rb);
    }
    PrefixConcat(la, lb, FirstLong(ra), FirstLong(rb));
  }

  lemma PrefixConcat(la: seq<string>, lb: seq<string>, na: nat, nb: nat)
    requires na <= |la| && nb <= |lb|
    ensures na == |la| ==> (la + lb)[..na + nb] == la[..na] + lb[..nb]
    ensures na < |la| ==> (la + lb)[..na] == la[..na]
  {
    if na == |la| {
      assert la[..na] == la;
    }
  }

  /** A line too long for the buffer ends the scan, whatever follows it. */
  lemma {:induction false} ScanTooLong(long: string, rest: string)
    requires '\n' !in long && |long| >= MaxTokenSize
    ensures Scanned(long + rest) == [] && !ShortLines(long + rest)
  {
    var s := long + rest;
    var i := Find(s, '\n');
    assert i >= |long|;
    if i < |s| {
      assert RawLines(s) == [s[..i]] + RawLines(s[i + 1..]);
    } else {
      assert RawLines(s) == [s];
    }
    assert RawLines(s)[0] in RawLines(s);
  }

  lemma {:induction false} RawLinesOfUnlines(ls: seq<string>)
    requires forall l | l in ls :: PlainLine(l)
    ensures RawLines(Unlines(ls)) == ls
  {
    if ls != [] {
      var l, rest := ls[0], Unlines(ls[1..]);
      assert l in ls;
      var s := l + "\n" + rest;
      assert Find(l + "\n", '\n') == |l| by {
        assert (l + "\n")[|l|] == '\n';
      }
      FindAppend(l + "\n", rest, '\n');
      assert s[..|l|] == l;
      assert s[|l| + 1..] == rest;
      RawLinesOfUnlines(ls[1..]);
    }
  }

  /** Lines that fit the buffer, each written with a newline, are scanned back
      as exactly those lines, with no error. */
  lemma ScanOfUnlines(ls: seq<string>)
    requires forall l | l in ls :: PlainLine(l) && |l| < MaxTokenSize
    ensures Scanned(Unlines(ls)) == ls && ShortLines(Unlines(ls))
  {
    RawLinesOfUnlines(ls);
    LinesOfUnlines(ls);
    ScanLinesSpec(Unlines(ls));
  }

  // ---------------------------------------------------------------------
  // Facts used to show that a fixed label does not match

  lemma PrefixMismatch(s: string, p: string, k: nat)
    requires k < |p| && (k >= |s| || s[k] != p[k])
    ensures !HasPrefix(s, p)
  {
    if k < |s| && |p| <= |s| {
      assert s[..|p|][k] != p[k];
    }
  }

  /** An occurrence of `sub` in `p + x` whose last character is missing from `x` lies inside `p`. */
  lemma {:induction false} ContainsInPrefix(p: string, x: string, sub: string)
    requires |sub| > 0 && sub[|sub| - 1] !in x
    requires !Contains(p, sub)
    ensures !Contains(p + x, sub)
  {
    forall i | 0 <= i <= |p + x|
      ensures !OccursAt(p + x, sub, i)
    {
      if i + |sub| <= |p + x| {
        var last := i + |sub| - 1;
        if last >= |p| {
          assert (p + x)[i..i + |sub|][|sub| - 1] == x[last - |p|];
        } else {
          assert (p + x)[i..i + |sub|] == p[i..i + |sub|];
          assert !OccursAt(p, sub, i);
        }
      }
    }
  }

  lemma NotContainsChar(s: string, sub: string, k: nat)
    requires k < |sub| && sub[k] !in s
    ensures !Contains(s, sub)
  {
    forall i | 0 <= i <= |s|
      ensures !OccursAt(s, sub, i)
    {
      if i + |sub| <= |s| {
        assert s[i..i + |sub|][k] == s[i + k];
      }
    }
  }

  /** The text after the first `c`, when `c` does not occur before it. */
  lemma AfterFirstSplit(p: string, c: char, rest: string)
    requires c !in p
    ensures AfterFirst(p + [c] + rest, c) == Some(rest)
  {
    var s := p + [c] + rest;
    assert s[|p|] == c;
    assert s[|p| + 1..] == rest;
  }

  /** TrimSpace leaves a text alone that neither starts nor ends with space. */
  lemma TrimSpaceKeeps(v: string)
    requires v != [] && !IsSpace(v[0]) && !IsSpace(v[|v| - 1])
    ensures TrimSpace(v) == v
  {
  }
}
