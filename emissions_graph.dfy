/**
 * The historical-emissions panel: a selected country and a start/end year
 * pair. An effect sets a default range whenever the country's year list
 * changes, and the two year handlers keep the range ordered. The rows shown
 * are the country's rows inside the range, with their two averages.
 */
module EmissionsGraph {

  import opened Wrappers
  import opened Strings
  import opened Seqs
  import opened EmissionsData

  const InitialCountry := "United_States"
  const InitialStartYear := 2000
  const InitialEndYear := 2020

  /** How far back from the latest year the default range reaches when more years are available. */
  const Window := 20

  datatype YearRange = YearRange(startYear: int, endYear: int)

  function Max(a: int, b: int): int {
    if a < b then b else a
  }

  function Min(a: int, b: int): int {
    if a < b then a else b
  }

  /** `Math.max(...years)`. */
  function Latest(years: seq<int>): (m: int)
    requires years != []
    ensures m in years
    ensures forall y :: y in years ==> y <= m
  {
    if |years| == 1 then years[0]
    else
      var rest := Latest(years[1..]);
      assert forall y :: y in years ==> y == years[0] || y in years[1..];
      Max(years[0], rest)
  }

  /** The range the default-range effect sets for a non-empty year list. */
  function DefaultRange(years: seq<int>): YearRange
    requires years != []
  {
    var latest := years[|years| - 1];
    var earliest := years[0];
    YearRange(if |years| > Window then Max(earliest, latest - Window) else earliest, latest)
  }

  /** The effect's outcome: the default range when years are available, otherwise no change. */
  function AfterEffect(r: YearRange, years: seq<int>): (r': YearRange)
    ensures years == [] ==> r' == r
  {
    if years == [] then r else DefaultRange(years)
  }

  /** In an ascending list of distinct integers the last lies at least |s| - 1 above the first. */
  lemma {:induction false} Span(s: seq<int>)
    requires s != [] && StrictlyIncreasing(s)
    ensures s[|s| - 1] - s[0] >= |s| - 1
  {
    if |s| > 1 {
      assert StrictlyIncreasing(s[1..]);
      Span(s[1..]);
      assert s[0] < s[1];
    }
  }

  /**
   * Over an ascending year list the default range ends at the latest year.
   * With at most twenty years it starts at the earliest and covers them all;
   * with more it spans exactly twenty years, and `Math.max` with the earliest
   * year never changes its start.
   */
  lemma DefaultRangeSpec(years: seq<int>)
    requires years != [] && StrictlyIncreasing(years)
    ensures DefaultRange(years).endYear == Latest(years)
    ensures DefaultRange(years).startYear <= DefaultRange(years).endYear
    ensures |years| <= Window ==>
      DefaultRange(years).startYear == years[0] &&
      forall y :: y in years ==> DefaultRange(years).startYear <= y <= DefaultRange(years).endYear
    ensures |years| > Window ==> DefaultRange(years).endYear - DefaultRange(years).startYear == Window
  {
    Span(years);
    var last := years[|years| - 1];
    forall y | y in years ensures years[0] <= y <= last {
      var i :| 0 <= i < |years| && years[i] == y;
      assert i == 0 || years[0] < years[i];
      assert i == |years| - 1 || years[i] < last;
    }
    assert last in years;
  }

  /**
   * With at most twenty available years the default range shows every row of
   * the country.
   */
  lemma DefaultRangeShowsAll(all: map<string, seq<EmissionsRecord>>, country: string)
    requires AvailableYears(all, country) != [] && |AvailableYears(all, country)| <= Window
    ensures var r := DefaultRange(AvailableYears(all, country));
      FilterByYearRange(CountryData(all, country), r.startYear, r.endYear) == CountryData(all, country)
  {
    var years := AvailableYears(all, country);
    AvailableYearsSpec(all, country);
    DefaultRangeSpec(years);
    var r := DefaultRange(years);
    var rows := CountryData(all, country);
    forall d | d in rows ensures InRange(r.startYear, r.endYear)(d) {
      assert d.year in years;
    }
    FilterAllPass(rows, InRange(r.startYear, r.endYear));
  }

  /** `handleStartYearChange`: the new start, and the end pushed past it when it is not already later. */
  function StartChange(r: YearRange, year: int, years: seq<int>): (r': YearRange)
    requires years != []
    ensures r'.startYear == year
    ensures year < r.endYear ==> r'.endYear == r.endYear
  {
    YearRange(year, if year >= r.endYear then Min(year + 1, Latest(years)) else r.endYear)
  }

  /**
   * Choosing an available start year leaves an ordered range whose end is
   * either the old end or one year past the start, capped at the latest
   * available year.
   */
  lemma StartChangeOrdered(r: YearRange, year: int, years: seq<int>)
    requires years != [] && year in years
    ensures StartChange(r, year, years).startYear <= StartChange(r, year, years).endYear
    ensures year >= r.endYear ==>
      StartChange(r, year, years).endYear <= Latest(years) &&
      StartChange(r, year, years).endYear <= year + 1
  {
  }

  /** `handleEndYearChange`: only the end moves. */
  function EndChange(r: YearRange, year: int): (r': YearRange)
    ensures r'.startYear == r.startYear && r'.endYear == year
  {
    r.(endYear := year)
  }

  /** `selectedCountry.replace(/_/g, ' ')`. */
  function DisplayName(country: string): (name: string)
    ensures |name| == |country|
    ensures '_' !in name
    ensures forall i :: 0 <= i < |country| && country[i] != '_' ==> name[i] == country[i]
  {
    ReplaceAll(country, '_', ' ')
  }

  /** The rows the chart draws: the selected country's rows inside the range, in order. */
  function Shown(all: map<string, seq<EmissionsRecord>>, country: string, r: YearRange): (rows: seq<EmissionsRecord>)
    ensures forall d :: d in rows <==> d in CountryData(all, country) && r.startYear <= d.year <= r.endYear
    ensures IsSubsequence(rows, CountryData(all, country))
  {
    FilterByYearRange(CountryData(all, country), r.startYear, r.endYear)
  }

  /**
   * As written, the effect's dependency is the array `getAvailableYears`
   * builds afresh on every render, so it runs after every render: the
   * range after a render is the effect's outcome whatever it was before.
   */
  function RenderAsWritten(r: YearRange, years: seq<int>): YearRange {
    AfterEffect(r, years)
  }

  /** As written, no choice of start or end year survives the next render while years are available. */
  lemma AsWrittenForgetsChoice(r: YearRange, year: int, years: seq<int>)
    requires years != []
    ensures RenderAsWritten(StartChange(r, year, years), years) == DefaultRange(years)
    ensures RenderAsWritten(EndChange(r, year), years) == DefaultRange(years)
  {
  }

  /** Picking 1991 as start over the years 1990 to 1992 shows 1990 again after the render. */
  lemma AsWrittenExample()
    ensures var years := [1990, 1991, 1992];
      var picked := StartChange(DefaultRange(years), 1991, years);
      picked.startYear == 1991 && RenderAsWritten(picked, years).startYear == 1990
  {
  }

  /**
   * The evidently intended effect: it runs when the year list's contents
   * differ from those it last ran with (`seen`), and leaves the range alone
   * otherwise.
   */
  function Render(r: YearRange, seen: Option<seq<int>>, years: seq<int>): (r': YearRange)
    ensures seen == Some(years) ==> r' == r
    ensures seen != Some(years) && years != [] ==> r' == DefaultRange(years)
    ensures years == [] ==> r' == r
  {
    if seen == Some(years) then r else AfterEffect(r, years)
  }

  /**
   * With the intended effect a start or end choice survives the render that
   * follows it, and a new country's year list still gets its default range.
   */
  lemma RenderKeepsChoice(r: YearRange, year: int, years: seq<int>, other: seq<int>)
    requires years != [] && other != [] && other != years
    ensures Render(StartChange(r, year, years), Some(years), years) == StartChange(r, year, years)
    ensures Render(EndChange(r, year), Some(years), years) == EndChange(r, year)
    ensures Render(r, Some(years), other) == DefaultRange(other)
  {
  }

  class Panel {
    var selectedCountry: string
    var startYear: int
    var endYear: int
    /** The year list the default-range effect last ran with; None before the first render. */
    var seenYears: Option<seq<int>>

    function Range(): YearRange
      reads this
    {
      YearRange(startYear, endYear)
    }

    /** The years the selectors offer for the selected country. */
    function Years(all: map<string, seq<EmissionsRecord>>): seq<int>
      reads this
    {
      AvailableYears(all, selectedCountry)
    }

    constructor ()
      ensures selectedCountry == InitialCountry
      ensures Range() == YearRange(InitialStartYear, InitialEndYear)
      ensures seenYears == None
    {
      selectedCountry := InitialCountry;
      startYear := InitialStartYear;
      endYear := InitialEndYear;
      seenYears := None;
    }

    /**
     * The default-range effect after a render whose `availableYears` is
     * `years`: it runs when the list differs from the one it last ran with.
     */
    method AfterRender(years: seq<int>)
      modifies this
      ensures selectedCountry == old(selectedCountry)
      ensures Range() == Render(old(Range()), old(seenYears), years)
      ensures seenYears == Some(years)
    {
      if seenYears != Some(years) {
        if |years| > 0 {
          var latest := years[|years| - 1];
          var earliest := years[0];
          if |years| > Window {
            startYear := Max(earliest, latest - Window);
          } else {
            startYear := earliest;
          }
          endYear := latest;
        }
        seenYears := Some(years);
      }
    }

    /** `handleCountryChange`. */
    method HandleCountryChange(country: string)
      modifies this
      ensures selectedCountry == country
      ensures Range() == old(Range()) && seenYears == old(seenYears)
    {
      selectedCountry := country;
    }

    /** `handleStartYearChange`, called from the start list of the selected country's years. */
    method HandleStartYearChange(year: int, all: map<string, seq<EmissionsRecord>>)
      requires Years(all) != []
      modifies this
      ensures selectedCountry == old(selectedCountry) && seenYears == old(seenYears)
      ensures Range() == StartChange(old(Range()), year, Years(all))
    {
      var years := Years(all);
      startYear := year;
      if year >= endYear {
        endYear := Min(year + 1, Latest(years));
      }
    }

    /** `handleEndYearChange`. */
    method HandleEndYearChange(year: int)
      modifies this
      ensures Range() == EndChange(old(Range()), year)
      ensures selectedCountry == old(selectedCountry) && seenYears == old(seenYears)
    {
      endYear := year;
    }
  }

  /**
   * Picking an available start year after the panel has rendered its
   * country leaves that start in place through the next render, with the
   * range ordered.
   */
  method PickStart(p: Panel, all: map<string, seq<EmissionsRecord>>, year: int)
    requires p.seenYears == Some(p.Years(all)) && year in p.Years(all)
    modifies p
    ensures p.startYear == year && p.startYear <= p.endYear
  {
    p.HandleStartYearChange(year, all);
    StartChangeOrdered(old(p.Range()), year, p.Years(all));
    p.AfterRender(p.Years(all));
  }
}
