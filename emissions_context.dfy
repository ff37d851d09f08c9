/**
 * The emissions provider's loading rules: each listed country's file is
 * parsed by the shared row pipeline, a failed fetch gives no rows, and the
 * per-country results are gathered into one map keyed by country.
 */
module EmissionsContext {

  import opened Wrappers
  import opened EmissionsData
  import opened EmissionsCsv
  import opened Strings

  /**
   * The rows for one country: its fetched CSV text (None when the response
   * was not ok or the fetch threw) parsed with that country on every row.
   */
  function CountryRows(country: string, fetched: Option<string>, rd: Readers): (rows: seq<EmissionsRecord>)
    ensures fetched.None? ==> rows == []
    ensures forall d :: d in rows ==> d.country == country
  {
    match fetched
    case None => []
    case Some(csv) =>
      var rows := ParseCsv(csv, FromFile(country), rd);
      CountryFromFile(Split(csv, '\n')[1..], country, rd);
      rows
  }

  /** Rows parsed for a file all carry that file's country. */
  lemma {:induction false} CountryFromFile(lines: seq<string>, country: string, rd: Readers)
    ensures forall d :: d in ParseLines(lines, FromFile(country), rd) ==> d.country == country
  {
    if lines != [] {
      CountryFromFile(lines[1..], country, rd);
    }
  }

  /** The map `results.forEach(({country, data}) => countriesData[country] = data)` builds. */
  function Gathered(results: seq<(string, seq<EmissionsRecord>)>): map<string, seq<EmissionsRecord>> {
    if results == [] then map[]
    else
      var last := results[|results| - 1];
      Gathered(results[..|results| - 1])[last.0 := last.1]
  }

  /**
   * The map has exactly the countries of the results, and each country's
   * entry is the data of its last result.
   */
  lemma {:induction false} GatheredSpec(results: seq<(string, seq<EmissionsRecord>)>)
    ensures forall c :: c in Gathered(results) <==> exists i :: 0 <= i < |results| && results[i].0 == c
    ensures forall i :: 0 <= i < |results| && (forall j :: i < j < |results| ==> results[j].0 != results[i].0) ==>
      results[i].0 in Gathered(results) && Gathered(results)[results[i].0] == results[i].1
  {
    if results != [] {
      var init := results[..|results| - 1];
      GatheredSpec(init);
      forall c ensures c in Gathered(results) <==> exists i :: 0 <= i < |results| && results[i].0 == c {
        if c in Gathered(init) {
          var i :| 0 <= i < |init| && init[i].0 == c;
          assert results[i].0 == c;
        }
        if exists i :: 0 <= i < |results| && results[i].0 == c {
          var i :| 0 <= i < |results| && results[i].0 == c;
          if i < |init| {
            assert init[i].0 == c;
          }
        }
      }
      forall i | 0 <= i < |results| && (forall j :: i < j < |results| ==> results[j].0 != results[i].0)
        ensures results[i].0 in Gathered(results) && Gathered(results)[results[i].0] == results[i].1
      {
        if i < |init| {
          assert results[|results| - 1].0 != results[i].0;
          assert init[i] == results[i];
        }
      }
    }
  }

  /** The `forEach` loop itself: one assignment per result, in order. */
  method Gather(results: seq<(string, seq<EmissionsRecord>)>) returns (m: map<string, seq<EmissionsRecord>>)
    ensures m == Gathered(results)
  {
    m := map[];
    var i := 0;
    while i < |results|
      invariant 0 <= i <= |results|
      invariant m == Gathered(results[..i])
    {
      assert results[..i + 1][..i] == results[..i];
      m := m[results[i].0 := results[i].1];
      i := i + 1;
    }
    assert results[..|results|] == results;
  }

  /** The result pairs the provider collects: one per listed country, in list order. */
  function Results(countries: seq<string>, fetched: string -> Option<string>, rd: Readers): (rs: seq<(string, seq<EmissionsRecord>)>)
    ensures |rs| == |countries|
    ensures forall i :: 0 <= i < |countries| ==> rs[i] == (countries[i], CountryRows(countries[i], fetched(countries[i]), rd))
  {
    if countries == [] then []
    else [(countries[0], CountryRows(countries[0], fetched(countries[0]), rd))] + Results(countries[1..], fetched, rd)
  }

  /**
   * Over a list of distinct countries the provider's map has one entry per
   * country, holding that country's own parsed rows, or none when its fetch
   * failed.
   */
  lemma ProviderData(countries: seq<string>, fetched: string -> Option<string>, rd: Readers)
    requires forall i, j :: 0 <= i < j < |countries| ==> countries[i] != countries[j]
    ensures forall c :: c in Gathered(Results(countries, fetched, rd)) <==> c in countries
    ensures forall c :: c in countries ==>
      Gathered(Results(countries, fetched, rd))[c] == CountryRows(c, fetched(c), rd)
  {
    var rs := Results(countries, fetched, rd);
    GatheredSpec(rs);
    forall c ensures c in Gathered(rs) <==> c in countries {
      if c in countries {
        var i :| 0 <= i < |countries| && countries[i] == c;
        assert rs[i].0 == c;
      }
    }
    forall c | c in countries ensures Gathered(rs)[c] == CountryRows(c, fetched(c), rd) {
      var i :| 0 <= i < |countries| && countries[i] == c;
      assert forall j :: i < j < |rs| ==> rs[j].0 != rs[i].0;
    }
  }
}
