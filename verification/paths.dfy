/**
 * Strings the downloader builds: `str(n)`, `zfill(2)`, path joining and splitting, and
 * the remote directory URL and local directory path for one (instrument, subdir, month).
 * Paths use "/" as their only separator.
 */
module Paths {
  import opened Calendar

  /** The Berkeley mirror; the LASP mirror is the commented-out alternative. */
  const BaseUrl := "https://sprg.ssl.berkeley.edu/data/maven/data/sci/"
  const LocalRoot := "D:/Planetary/data/maven/data/sci/"

  predicate IsDigit(c: char) {
    '0' <= c <= '9'
  }

  predicate AllDigits(s: string) {
    forall i :: 0 <= i < |s| ==> IsDigit(s[i])
  }

  function DigitChar(d: nat): (c: char)
    requires d < 10
    ensures IsDigit(c) && DigitValue(c) == d
  {
    ['0', '1', '2', '3', '4', '5', '6', '7', '8', '9'][d]
  }

  function DigitValue(c: char): nat
    requires IsDigit(c)
  {
    (c as int - '0' as int) as nat
  }

  /** `str(n)` for a non-negative integer: decimal digits, no leading zero. */
  function DecimalString(n: nat): (s: string)
    ensures |s| >= 1 && AllDigits(s)
    ensures s[0] == '0' <==> n == 0
  {
    if n < 10 then [DigitChar(n)] else DecimalString(n / 10) + [DigitChar(n % 10)]
  }

  /** The value of a string of decimal digits, leading zeros allowed. */
  function ParseDecimal(s: string): nat
    requires AllDigits(s)
  {
    if s == [] then 0 else ParseDecimal(s[..|s| - 1]) * 10 + DigitValue(s[|s| - 1])
  }

  /** Reading back `str(n)` gives `n`. */
  lemma {:induction false} DecimalRoundTrip(n: nat)
    ensures ParseDecimal(DecimalString(n)) == n
  {
    var s := DecimalString(n);
    if n >= 10 {
      DecimalRoundTrip(n / 10);
      assert s[..|s| - 1] == DecimalString(n / 10);
    }
  }

  /** `s.zfill(width)` for an unsigned string: left-pad with '0' up to `width`. */
  function ZFill(s: string, width: nat): string
    decreases width - |s|
  {
    if |s| >= width then s else ZFill(['0'] + s, width)
  }

  /** Padding adds only leading zeros, which keep the value. */
  lemma {:induction false} ZFillValue(s: string, width: nat)
    requires AllDigits(s)
    ensures var z := ZFill(s, width);
      |z| == (if |s| >= width then |s| else width) && AllDigits(z) && ParseDecimal(z) == ParseDecimal(s)
    decreases width - |s|
  {
    if |s| < width {
      LeadingZero(s);
      ZFillValue(['0'] + s, width);
    }
  }

  lemma {:induction false} LeadingZero(s: string)
    requires AllDigits(s)
    ensures AllDigits(['0'] + s) && ParseDecimal(['0'] + s) == ParseDecimal(s)
    decreases |s|
  {
    var t := ['0'] + s;
    if s != [] {
      assert t[..|t| - 1] == ['0'] + s[..|s| - 1];
      LeadingZero(s[..|s| - 1]);
    }
  }

  /** `str(month).zfill(2)`. */
  function MonthSegment(month: nat): string {
    ZFill(DecimalString(month), 2)
  }

  /** A month in 1..12 becomes exactly two digits that read back as the month. */
  lemma MonthSegmentProperties(month: nat)
    requires 1 <= month <= 12
    ensures var m := MonthSegment(month);
      |m| == 2 && AllDigits(m) && ParseDecimal(m) == month
  {
    DecimalRoundTrip(month);
    ZFillValue(DecimalString(month), 2);
  }

  /** `os.path.join(dir, name)` for a directory that does not end with the separator. */
  function Join(dir: string, name: string): string {
    dir + "/" + name
  }

  /** Index of the last "/" in `p`, or -1 when there is none. */
  function LastSlash(p: string): (i: int)
    ensures -1 <= i < |p|
    ensures 0 <= i ==> p[i] == '/'
    ensures forall k :: i < k < |p| ==> p[k] != '/'
  {
    if p == [] then -1
    else if p[|p| - 1] == '/' then |p| - 1
    else LastSlash(p[..|p| - 1])
  }

  /** `os.path.basename`: what follows the last separator. */
  function Basename(p: string): string {
    p[LastSlash(p) + 1..]
  }

  /** `os.path.dirname`: what precedes the last separator. */
  function Dirname(p: string): string {
    var i := LastSlash(p);
    if i < 0 then "" else p[..i]
  }

  /** Joining a separator-free name to a directory can be undone by dirname and basename. */
  lemma JoinSplits(dir: string, name: string)
    requires '/' !in name
    ensures Dirname(Join(dir, name)) == dir && Basename(Join(dir, name)) == name
  {
    var p := Join(dir, name);
    assert p[|dir|] == '/';
    assert forall k :: |dir| < k < |p| ==> p[k] == name[k - |dir| - 1];
    assert LastSlash(p) == |dir|;
  }

  /** The path below both roots: instrument/subdir/year/zero-padded month. */
  function RelativeDir(instrument: string, subdir: string, ym: YearMonth): string
    requires ym.Valid()
  {
    Join(Join(Join(instrument, subdir), DecimalString(ym.year as nat)), MonthSegment(ym.month as nat))
  }

  /** The remote directory URL that `sync` lists. */
  function RemoteDir(instrument: string, subdir: string, ym: YearMonth): string
    requires ym.Valid()
  {
    BaseUrl + RelativeDir(instrument, subdir, ym) + "/"
  }

  /** The local directory that mirrors it. */
  function LocalDir(instrument: string, subdir: string, ym: YearMonth): string
    requires ym.Valid()
  {
    LocalRoot + RelativeDir(instrument, subdir, ym)
  }

  /**
   * The remote URL and the local path are built from the same segments: below their roots
   * they agree, the last segment of the local path is the two-digit month and the one before
   * it the year, both reading back as the month's numbers, and above them sit the
   * instrument and the subdirectory.
   */
  lemma DirsAreParallel(instrument: string, subdir: string, ym: YearMonth)
    requires ym.Valid()
    ensures var local := LocalDir(instrument, subdir, ym);
      && RemoteDir(instrument, subdir, ym) == BaseUrl + local[|LocalRoot|..] + "/"
      && |Basename(local)| == 2 && AllDigits(Basename(local))
      && ParseDecimal(Basename(local)) == ym.month
      && AllDigits(Basename(Dirname(local)))
      && ParseDecimal(Basename(Dirname(local))) == ym.year
      && Dirname(Dirname(local)) == LocalRoot + instrument + "/" + subdir
  {
    var year := DecimalString(ym.year as nat);
    var month := MonthSegment(ym.month as nat);
    var upper := LocalRoot + Join(instrument, subdir);
    MonthSegmentProperties(ym.month as nat);
    DecimalRoundTrip(ym.year as nat);
    assert '/' !in month by {
      assert forall i :: 0 <= i < |month| ==> IsDigit(month[i]);
    }
    assert '/' !in year by {
      assert forall i :: 0 <= i < |year| ==> IsDigit(year[i]);
    }
    assert LocalDir(instrument, subdir, ym) == Join(Join(upper, year), month);
    JoinSplits(Join(upper, year), month);
    JoinSplits(upper, year);
  }
}
