/**
 * The per-country emissions dataset and its helpers: country lookup, the
 * de-duplicated ascending year list, the inclusive year-range filter and the
 * two averages. The same four helpers appear in the emissions utilities, the
 * emissions context and the country-emissions hook.
 */
module EmissionsData {

  import opened Wrappers
  import opened Seqs

  /**
   * One parsed dataset row. Totals are in billions of tonnes; a per-capita
   * value that did not parse is NaN, written None.
   */
  datatype EmissionsRecord = EmissionsRecord(country: string, year: int, totalEmissions: real, perCapitaEmissions: Option<real>)

  /** `allCountriesData[country] || []`. */
  function CountryData(all: map<string, seq<EmissionsRecord>>, country: string): (r: seq<EmissionsRecord>)
    ensures country in all ==> r == all[country]
    ensures country !in all ==> r == []
  {
    if country in all then all[country] else []
  }

  /** `data.map(d => d.year)`. */
  function Years(rows: seq<EmissionsRecord>): (ys: seq<int>)
    ensures |ys| == |rows|
    ensures forall i :: 0 <= i < |rows| ==> ys[i] == rows[i].year
  {
    seq(|rows|, i requires 0 <= i < |rows| => rows[i].year)
  }

  predicate Distinct(s: seq<int>) {
    forall i, j :: 0 <= i < j < |s| ==> s[i] != s[j]
  }

  /** `[...new Set(s)]`: first occurrences, in order. */
  function Dedupe(s: seq<int>): (r: seq<int>)
    ensures Distinct(r)
    ensures forall x :: x in r <==> x in s
    ensures |r| <= |s|
  {
    if s == [] then []
    else
      var d := Dedupe(s[..|s| - 1]);
      var x := s[|s| - 1];
      assert forall y :: y in s <==> y in s[..|s| - 1] || y == x;
      if x in d then d else d + [x]
  }

  /** Insert `x` into an ascending list before the first larger element. */
  function Insert(x: int, s: seq<int>): (r: seq<int>)
    ensures multiset(r) == multiset(s) + multiset{x}
  {
    if s == [] || x <= s[0] then [x] + s
    else
      assert s == [s[0]] + s[1..];
      [s[0]] + Insert(x, s[1..])
  }

  /** `.sort((a, b) => a - b)`, as an insertion sort. */
  function SortAscending(s: seq<int>): (r: seq<int>)
    ensures multiset(r) == multiset(s)
  {
    if s == [] then []
    else
      assert s == [s[0]] + s[1..];
      Insert(s[0], SortAscending(s[1..]))
  }

  /** Inserting a number above `lo` into a list above `lo` keeps every element above `lo`. */
  lemma {:induction false} InsertAbove(x: int, s: seq<int>, lo: int)
    requires lo < x && forall i :: 0 <= i < |s| ==> lo < s[i]
    ensures forall i :: 0 <= i < |Insert(x, s)| ==> lo < Insert(x, s)[i]
  {
    if s != [] && x > s[0] {
      InsertAbove(x, s[1..], lo);
      var t := Insert(x, s[1..]);
      assert Insert(x, s) == [s[0]] + t;
      forall i | 0 <= i < |[s[0]] + t| ensures lo < ([s[0]] + t)[i] {
        if i > 0 {
          assert ([s[0]] + t)[i] == t[i - 1];
        }
      }
    }
  }

  lemma {:induction false} InsertIncreasing(x: int, s: seq<int>)
    requires StrictlyIncreasing(s) && x !in s
    ensures StrictlyIncreasing(Insert(x, s))
  {
    if s != [] && x > s[0] {
      var rest := s[1..];
      assert forall i :: 0 <= i < |rest| ==> rest[i] == s[i + 1];
      InsertIncreasing(x, rest);
      InsertAbove(x, rest, s[0]);
      var t := Insert(x, rest);
      var r := [s[0]] + t;
      assert Insert(x, s) == r;
      forall i, j | 0 <= i < j < |r| ensures r[i] < r[j] {
        assert r[j] == t[j - 1];
        if i > 0 {
          assert r[i] == t[i - 1];
        }
      }
    }
  }

  /** Sorting numbers that are pairwise distinct gives a strictly increasing list of the same numbers. */
  lemma {:induction false} SortDistinct(s: seq<int>)
    requires Distinct(s)
    ensures StrictlyIncreasing(SortAscending(s))
    ensures forall x :: x in SortAscending(s) <==> x in s
  {
    if s != [] {
      SortDistinct(s[1..]);
      assert s[0] !in s[1..];
      assert s[0] !in SortAscending(s[1..]);
      InsertIncreasing(s[0], SortAscending(s[1..]));
    }
    forall x ensures x in SortAscending(s) <==> x in s {
      assert x in SortAscending(s) <==> x in multiset(SortAscending(s));
    }
  }

  /** `[...new Set(years)].sort((a, b) => a - b)` over the years of some rows. */
  function UniqueYears(rows: seq<EmissionsRecord>): seq<int> {
    SortAscending(Dedupe(Years(rows)))
  }

  /** The year list is strictly increasing and holds exactly the years present in the rows. */
  lemma UniqueYearsSpec(rows: seq<EmissionsRecord>)
    ensures StrictlyIncreasing(UniqueYears(rows))
    ensures forall y :: y in UniqueYears(rows) <==> exists r :: r in rows && r.year == y
  {
    SortDistinct(Dedupe(Years(rows)));
    forall y ensures y in Years(rows) <==> exists r :: r in rows && r.year == y {
      if y in Years(rows) {
        var i :| 0 <= i < |rows| && Years(rows)[i] == y;
        assert rows[i] in rows;
      }
      if exists r :: r in rows && r.year == y {
        var r :| r in rows && r.year == y;
        var i :| 0 <= i < |rows| && rows[i] == r;
        assert Years(rows)[i] == y;
      }
    }
  }

  /** `getAvailableYears`. */
  function AvailableYears(all: map<string, seq<EmissionsRecord>>, country: string): (ys: seq<int>)
    ensures country !in all ==> ys == []
  {
    UniqueYears(CountryData(all, country))
  }

  /** The year list is strictly increasing and holds exactly the years of the country's rows. */
  lemma AvailableYearsSpec(all: map<string, seq<EmissionsRecord>>, country: string)
    ensures StrictlyIncreasing(AvailableYears(all, country))
    ensures forall y :: y in AvailableYears(all, country) <==>
      country in all && exists r :: r in all[country] && r.year == y
  {
    UniqueYearsSpec(CountryData(all, country));
  }

  function InRange(startYear: int, endYear: int): EmissionsRecord -> bool {
    (d: EmissionsRecord) => d.year >= startYear && d.year <= endYear
  }

  /** `filterDataByYearRange`: the rows with startYear <= year <= endYear, in order. */
  function FilterByYearRange(data: seq<EmissionsRecord>, startYear: int, endYear: int): (r: seq<EmissionsRecord>)
    ensures forall d :: d in r <==> d in data && startYear <= d.year <= endYear
    ensures IsSubsequence(r, data)
  {
    FilterIsSubsequence(data, InRange(startYear, endYear));
    Filter(data, InRange(startYear, endYear))
  }

  /** Filtering twice by the same range is filtering once; a reversed range keeps nothing. */
  lemma FilterByYearRangeProperties(data: seq<EmissionsRecord>, startYear: int, endYear: int)
    ensures FilterByYearRange(FilterByYearRange(data, startYear, endYear), startYear, endYear)
      == FilterByYearRange(data, startYear, endYear)
    ensures startYear > endYear ==> FilterByYearRange(data, startYear, endYear) == []
  {
    FilterIdempotent(data, InRange(startYear, endYear));
    if startYear > endYear {
      FilterNonePass(data, InRange(startYear, endYear));
    }
  }

  /** Range filtering distributes over concatenation: order across parts is kept. */
  lemma FilterByYearRangeAppend(a: seq<EmissionsRecord>, b: seq<EmissionsRecord>, startYear: int, endYear: int)
    ensures FilterByYearRange(a + b, startYear, endYear)
      == FilterByYearRange(a, startYear, endYear) + FilterByYearRange(b, startYear, endYear)
  {
    FilterAppend(a, b, InRange(startYear, endYear));
  }

  function SumTotal(rows: seq<EmissionsRecord>): real {
    if rows == [] then 0.0 else rows[0].totalEmissions + SumTotal(rows[1..])
  }

  /** The per-capita sum; NaN (None) as soon as one value is NaN. */
  function SumPerCapita(rows: seq<EmissionsRecord>): (r: Option<real>)
    ensures r.Some? <==> forall d :: d in rows ==> d.perCapitaEmissions.Some?
  {
    if rows == [] then Some(0.0)
    else
      var rest := SumPerCapita(rows[1..]);
      assert forall d :: d in rows <==> d == rows[0] || d in rows[1..];
      if rows[0].perCapitaEmissions.None? || rest.None? then None
      else Some(rows[0].perCapitaEmissions.value + rest.value)
  }

  datatype Statistics = Statistics(averageTotalEmissions: real, averagePerCapita: Option<real>)

  /** `calculateStatistics`: both averages, 0 for no rows. */
  function CalculateStatistics(rows: seq<EmissionsRecord>): (s: Statistics)
    ensures rows == [] ==> s == Statistics(0.0, Some(0.0))
    ensures rows != [] ==> s.averageTotalEmissions * |rows| as real == SumTotal(rows)
    ensures rows != [] ==>
      (s.averagePerCapita.Some? <==> forall d :: d in rows ==> d.perCapitaEmissions.Some?)
    ensures rows != [] && s.averagePerCapita.Some? ==>
      s.averagePerCapita.value * |rows| as real == SumPerCapita(rows).value
  {
    if |rows| > 0 then
      var n := |rows| as real;
      var pc := SumPerCapita(rows);
      Statistics(SumTotal(rows) / n, if pc.Some? then Some(pc.value / n) else None)
    else
      Statistics(0.0, Some(0.0))
  }

  lemma {:induction false} SumTotalBounds(rows: seq<EmissionsRecord>, lo: real, hi: real)
    requires forall i :: 0 <= i < |rows| ==> lo <= rows[i].totalEmissions <= hi
    ensures lo * |rows| as real <= SumTotal(rows) <= hi * |rows| as real
  {
    if rows != [] {
      var n := (|rows| - 1) as real;
      SumTotalBounds(rows[1..], lo, hi);
      assert SumTotal(rows) == rows[0].totalEmissions + SumTotal(rows[1..]);
      assert lo * (n + 1.0) == lo * n + lo;
      assert hi * (n + 1.0) == hi * n + hi;
    }
  }

  /** The average total lies between the smallest and the largest total. */
  lemma AverageWithinBounds(rows: seq<EmissionsRecord>, lo: real, hi: real)
    requires rows != []
    requires forall i :: 0 <= i < |rows| ==> lo <= rows[i].totalEmissions <= hi
    ensures lo <= CalculateStatistics(rows).averageTotalEmissions <= hi
  {
    SumTotalBounds(rows, lo, hi);
    DivideBounds(CalculateStatistics(rows).averageTotalEmissions, |rows| as real, SumTotal(rows), lo, hi);
  }

  /** A mean of values within [lo, hi] lies within [lo, hi]. */
  lemma DivideBounds(a: real, n: real, sum: real, lo: real, hi: real)
    requires n > 0.0 && a * n == sum && lo * n <= sum <= hi * n
    ensures lo <= a <= hi
  {
  }
}
