/** Run directories: the name a run gets, `<start>_<branch>_<hash>`, and the
    recognizer for such names, which stands for the regular expression
    `^(\d{4}-\d{2}-\d{2}T\d{2}:\d{2}:\d{2}\.\d{3})_(.+)_([a-f0-9]{7})$`. */
module RunDir {
  import opened Wrappers
  import opened Decimal
  import opened Clock
  import opened Repo

  /** The three groups of a matching name. */
  datatype Parts = Parts(stamp: string, branch: string, hash: string)

  /** `s` has the shape of `mask`, where 'd' stands for any ASCII digit and
      every other mask character for itself. */
  predicate Fits(s: string, mask: string) {
    |s| == |mask| && forall i | 0 <= i < |s| :: if mask[i] == 'd' then IsDigit(s[i]) else s[i] == mask[i]
  }

  const StampMask := "dddd-dd-ddTdd:dd:dd.ddd"

  /** `[a-f0-9]` */
  predicate IsHexLower(c: char) { IsDigit(c) || 'a' <= c <= 'f' }

  /** `[a-f0-9]{7}` */
  predicate IsShortHash(h: string) {
    |h| == 7 && forall i | 0 <= i < 7 :: IsHexLower(h[i])
  }

  /** FindStringSubmatch with the run-directory pattern. The hash group and
      the '_' before it are the last eight characters, so the greedy branch
      group is everything between the two underscores that frame it; `.`
      does not match a newline. */
  function MatchRunDir(name: string): Option<Parts> {
    if |name| >= 33 && Fits(name[..23], StampMask) && name[23] == '_'
       && name[|name| - 8] == '_' && IsShortHash(name[|name| - 7..]) && '\n' !in name[24..|name| - 8]
    then Some(Parts(name[..23], name[24..|name| - 8], name[|name| - 7..]))
    else None
  }

  /** The name of a run's directory (internal/run/run.go): start time to the
      millisecond, sanitised branch, short hash. */
  function DirName(start: DateTime, branch: string, shortHash: string): string {
    FormatMillis(start) + "_" + SanitizeBranchName(branch) + "_" + shortHash
  }

  /** A name matches exactly when it is three well-formed groups joined by
      underscores, and the groups come back as they were joined. */
  lemma MatchRunDirIff(p: Parts)
    ensures MatchRunDir(p.stamp + "_" + p.branch + "_" + p.hash) == Some(p)
        <==> Fits(p.stamp, StampMask) && p.branch != [] && '\n' !in p.branch && IsShortHash(p.hash)
  {
    var name := p.stamp + "_" + p.branch + "_" + p.hash;
    if Fits(p.stamp, StampMask) && IsShortHash(p.hash) {
      assert name[..23] == p.stamp;
      assert name[23] == '_';
      assert name[24..|name| - 8] == p.branch;
      assert name[|name| - 8] == '_';
      assert name[|name| - 7..] == p.hash;
    }
  }

  /** Whatever matches is such a join. */
  lemma MatchRunDirSplits(name: string)
    requires MatchRunDir(name).Some?
    ensures var p := MatchRunDir(name).value;
      name == p.stamp + "_" + p.branch + "_" + p.hash && |p.stamp| == 23 && p.branch != []
  {
    var p := MatchRunDir(name).value;
    assert name == name[..23] + [name[23]] + name[24..|name| - 8] + [name[|name| - 8]] + name[|name| - 7..];
  }

  lemma FitsAppend(a: string, ma: string, b: string, mb: string)
    requires Fits(a, ma) && Fits(b, mb)
    ensures Fits(a + b, ma + mb)
  {
    forall i | 0 <= i < |a + b|
      ensures if (ma + mb)[i] == 'd' then IsDigit((a + b)[i]) else (a + b)[i] == (ma + mb)[i]
    {
      if i >= |a| {
        assert (a + b)[i] == b[i - |a|] && (ma + mb)[i] == mb[i - |a|];
      }
    }
  }

  /** `w` digit positions. */
  function DigitMask(w: nat): (m: string)
    ensures |m| == w && forall i | 0 <= i < w :: m[i] == 'd'
  {
    if w == 0 then "" else DigitMask(w - 1) + "d"
  }

  /** A field padded to `w` digits, then text of some shape. */
  lemma FieldFits(n: int, w: nat, rest: string, mrest: string)
    requires 1 <= w && 0 <= n < Pow10(w) && Fits(rest, mrest)
    ensures Fits(PadInt(n, w) + rest, DigitMask(w) + mrest)
  {
    PadValue(n, w);
    FitsAppend(PadInt(n, w), DigitMask(w), rest, mrest);
  }

  /** A separator, then text of some shape. */
  lemma SepFits(c: char, rest: string, mrest: string)
    requires c != 'd' && Fits(rest, mrest)
    ensures Fits([c] + rest, [c] + mrest)
  {
    FitsAppend([c], [c], rest, mrest);
  }

  lemma TimeFits(t: DateTime, rest: string, mrest: string)
    requires ValidCivil(t) && Fits(rest, mrest)
    ensures Fits(TimeText(t, rest), DigitMask(2) + (":" + (DigitMask(2) + (":" + (DigitMask(2) + mrest)))))
  {
    assert Pow10(2) == 100;
    FieldFits(t.second, 2, rest, mrest);
    SepFits(':', PadInt(t.second, 2) + rest, DigitMask(2) + mrest);
    FieldFits(t.minute, 2, ":" + (PadInt(t.second, 2) + rest), ":" + (DigitMask(2) + mrest));
    SepFits(':', PadInt(t.minute, 2) + (":" + (PadInt(t.second, 2) + rest)),
            DigitMask(2) + (":" + (DigitMask(2) + mrest)));
    FieldFits(t.hour, 2, ":" + (PadInt(t.minute, 2) + (":" + (PadInt(t.second, 2) + rest))),
              ":" + (DigitMask(2) + (":" + (DigitMask(2) + mrest))));
  }

  lemma DateFits(t: DateTime, sep: char, rest: string, mtime: string)
    requires ValidCivil(t) && sep != 'd' && Fits(TimeText(t, rest), mtime)
    ensures Fits(ClockText(t, sep, rest),
                 DigitMask(4) + ("-" + (DigitMask(2) + ("-" + (DigitMask(2) + ([sep] + mtime))))))
  {
    assert Pow10(2) == 100 && Pow10(4) == 10000;
    var r := TimeText(t, rest);
    SepFits(sep, r, mtime);
    FieldFits(t.day, 2, [sep] + r, [sep] + mtime);
    SepFits('-', PadInt(t.day, 2) + ([sep] + r), DigitMask(2) + ([sep] + mtime));
    FieldFits(t.month, 2, "-" + (PadInt(t.day, 2) + ([sep] + r)), "-" + (DigitMask(2) + ([sep] + mtime)));
    SepFits('-', PadInt(t.month, 2) + ("-" + (PadInt(t.day, 2) + ([sep] + r))),
            DigitMask(2) + ("-" + (DigitMask(2) + ([sep] + mtime))));
    FieldFits(t.year, 4, "-" + (PadInt(t.month, 2) + ("-" + (PadInt(t.day, 2) + ([sep] + r)))),
              "-" + (DigitMask(2) + ("-" + (DigitMask(2) + ([sep] + mtime)))));
  }

  /** The millisecond layout always has the stamp shape (for years 0 to 9999). */
  lemma FormatMillisFits(t: DateTime)
    requires ValidCivil(t)
    ensures Fits(FormatMillis(t), StampMask)
  {
    var ms := t.nanos % 1_000_000_000 / 1_000_000;
    assert Pow10(3) == 1000;
    FieldFits(ms, 3, "", "");
    assert PadInt(ms, 3) == Pad(ms, 3);
    SepFits('.', Pad(ms, 3), DigitMask(3));
    var mt := DigitMask(2) + (":" + (DigitMask(2) + (":" + (DigitMask(2) + ("." + DigitMask(3))))));
    TimeFits(t, "." + Pad(ms, 3), "." + DigitMask(3));
    DateFits(t, 'T', "." + Pad(ms, 3), mt);
    StampMaskParts();
  }

  /** The stamp mask, element by element. */
  lemma StampMaskParts()
    ensures StampMask == DigitMask(4) + ("-" + (DigitMask(2) + ("-" + (DigitMask(2) + ("T"
      + (DigitMask(2) + (":" + (DigitMask(2) + (":" + (DigitMask(2) + ("." + DigitMask(3))))))))))))
  {
    assert DigitMask(2) == "dd";
    assert DigitMask(3) == "ddd";
    assert DigitMask(4) == "dddd";
  }

  /** Build, then recognise: the name of a run started at a valid time, on a
      non-empty branch without a newline, with a short hash in lower-case hex,
      is recognised; its groups give back the sanitised branch and the hash,
      and its stamp reads back as the start time cut to the millisecond. */
  lemma DirNameRoundTrip(start: DateTime, branch: string, shortHash: string)
    requires ValidCivil(start) && branch != [] && '\n' !in branch && IsShortHash(shortHash)
    ensures MatchRunDir(DirName(start, branch, shortHash))
         == Some(Parts(FormatMillis(start), SanitizeBranchName(branch), shortHash))
    ensures ParseMillis(FormatMillis(start))
         == Some(start.(nanos := start.nanos / 1_000_000 * 1_000_000, offset := 0))
    ensures '/' !in DirName(start, branch, shortHash)[24..|DirName(start, branch, shortHash)| - 8]
  {
    var b := SanitizeBranchName(branch);
    assert '\n' !in b by {
      forall i | 0 <= i < |b| ensures b[i] != '\n' {
        assert branch[i] in branch;
      }
    }
    FormatMillisFits(start);
    var p := Parts(FormatMillis(start), b, shortHash);
    MatchRunDirIff(p);
    SanitizeBranchNameProperties(branch);
    MillisRoundTrip(start);
  }
}
