/**
 * The year-range selector: a start list offering every available year and an
 * end list offering the years from the chosen start on. Each option's value
 * is the year's decimal text, and a choice reaches the callbacks as
 * `parseInt(value, 10)`.
 */
module YearRangeSelector {

  import opened Wrappers
  import opened Strings
  import opened Seqs

  /** The length of the longest run of decimal digits at the front of `s`. */
  function DigitRun(s: string): (n: nat)
    ensures n <= |s|
    ensures AllDigits(s[..n])
    ensures n < |s| ==> !IsDigit(s[n])
  {
    if s == [] || !IsDigit(s[0]) then 0
    else
      var n := 1 + DigitRun(s[1..]);
      assert s[..n] == [s[0]] + s[1..][..n - 1];
      n
  }

  /** The length of the run of whitespace at the front of `s`. */
  function SpaceRun(s: string): (n: nat)
    ensures n <= |s|
    ensures n < |s| ==> !IsWhitespace(s[n])
  {
    if s == [] || !IsWhitespace(s[0]) then 0 else 1 + SpaceRun(s[1..])
  }

  /**
   * `parseInt(s, 10)`: leading whitespace is skipped, one optional sign is
   * read, then the longest run of digits; with no digit the result is NaN
   * (None). Whatever follows the digits is ignored.
   */
  function ParseInt10(s: string): (r: Option<int>)
    ensures var p := SpaceRun(s);
      r.Some? <==>
        (p < |s| && IsDigit(s[p])) || (p + 1 < |s| && (s[p] == '-' || s[p] == '+') && IsDigit(s[p + 1]))
  {
    var t := s[SpaceRun(s)..];
    var negative := t != [] && t[0] == '-';
    var u := if t != [] && (t[0] == '-' || t[0] == '+') then t[1..] else t;
    var n := DigitRun(u);
    assert n > 0 <==> u != [] && IsDigit(u[0]);
    if n == 0 then None
    else
      var v: int := DigitsValue(u[..n]);
      Some(if negative then -v else v)
  }

  /** A string made only of digits is read whole. */
  lemma {:induction false} AllDigitsRun(s: string)
    requires AllDigits(s)
    ensures DigitRun(s) == |s|
  {
    if s != [] {
      assert AllDigits(s[1..]);
      AllDigitsRun(s[1..]);
    }
  }

  /** The option value of a year: `String(year)`. */
  function OptionValue(year: int): string {
    IntToString(year)
  }

  /** What `parseInt(value, 10)` hands back for an option is that option's year. */
  lemma OptionValueRoundTrip(year: int)
    ensures ParseInt10(OptionValue(year)) == Some(year)
  {
    var s := OptionValue(year);
    var m := if year < 0 then -year else year;
    var digits := NatToString(m);
    AllDigitsRun(digits);
    DigitsValueOfNatToString(m);
    assert SpaceRun(s) == 0;
    assert s[0..] == s;
    if year < 0 {
      assert s[1..] == digits;
    } else {
      assert s == digits;
    }
    assert digits[..|digits|] == digits;
  }

  /** The option values of a list of years, in order. */
  function OptionValues(years: seq<int>): (vs: seq<string>)
    ensures |vs| == |years|
    ensures forall i :: 0 <= i < |years| ==> vs[i] == OptionValue(years[i])
  {
    if years == [] then [] else [OptionValue(years[0])] + OptionValues(years[1..])
  }

  /** The start list: every available year, in the order given. */
  function StartYears(years: seq<int>): seq<int> {
    years
  }

  function AtLeast(startYear: int): int -> bool {
    (y: int) => y >= startYear
  }

  /** The end list: `availableYears.filter(year => year >= startYear)`. */
  function EndYears(years: seq<int>, startYear: int): (opts: seq<int>)
    ensures forall y :: y in opts <==> y in years && y >= startYear
    ensures IsSubsequence(opts, StartYears(years))
  {
    FilterIsSubsequence(years, AtLeast(startYear));
    Filter(years, AtLeast(startYear))
  }

  /** The start list's k-th option reports exactly the k-th year to `onStartYearChange`. */
  lemma StartChoice(years: seq<int>, k: nat)
    requires k < |years|
    ensures ParseInt10(OptionValues(StartYears(years))[k]) == Some(years[k])
  {
    OptionValueRoundTrip(years[k]);
  }

  /**
   * The end list's k-th option reports its own year to `onEndYearChange`, and
   * that year is an available year no earlier than the start.
   */
  lemma EndChoice(years: seq<int>, startYear: int, k: nat)
    requires k < |EndYears(years, startYear)|
    ensures ParseInt10(OptionValues(EndYears(years, startYear))[k]) == Some(EndYears(years, startYear)[k])
    ensures EndYears(years, startYear)[k] in years && EndYears(years, startYear)[k] >= startYear
  {
    OptionValueRoundTrip(EndYears(years, startYear)[k]);
  }

  /** Option values keep the subsequence relation of their years. */
  lemma {:induction false} OptionValuesSubsequence(a: seq<int>, b: seq<int>)
    requires IsSubsequence(a, b)
    ensures IsSubsequence(OptionValues(a), OptionValues(b))
    decreases |b|
  {
    if |a| > 0 {
      assert OptionValues(b)[1..] == OptionValues(b[1..]);
      assert OptionValues(a)[1..] == OptionValues(a[1..]);
      if a[0] == b[0] && IsSubsequence(a[1..], b[1..]) {
        OptionValuesSubsequence(a[1..], b[1..]);
      } else {
        OptionValuesSubsequence(a, b[1..]);
      }
    }
  }

  /** The end options are a subsequence of the start options. */
  lemma EndOptionsWithinStart(years: seq<int>, startYear: int)
    ensures IsSubsequence(OptionValues(EndYears(years, startYear)), OptionValues(StartYears(years)))
  {
    OptionValuesSubsequence(EndYears(years, startYear), years);
  }

  /**
   * Over an ascending year list the end options are a tail of the start
   * options: the years before the first one at or after the start are cut.
   */
  lemma {:induction false} EndYearsIsSuffix(years: seq<int>, startYear: int)
    requires StrictlyIncreasing(years)
    ensures exists k :: 0 <= k <= |years| && EndYears(years, startYear) == years[k..]
    decreases |years|
  {
    var p := AtLeast(startYear);
    if years == [] {
      assert Filter(years, p) == years[0..];
    } else if years[0] >= startYear {
      forall x | x in years ensures p(x) {
        var i :| 0 <= i < |years| && years[i] == x;
        assert i == 0 || years[0] < years[i];
      }
      FilterAllPass(years, p);
      assert Filter(years, p) == years[0..];
    } else {
      assert StrictlyIncreasing(years[1..]);
      EndYearsIsSuffix(years[1..], startYear);
      var k :| 0 <= k <= |years[1..]| && Filter(years[1..], p) == years[1..][k..];
      assert Filter(years, p) == years[k + 1..];
    }
  }
}
