/**
 * The CSV row pipeline shared by the dataset loaders: split on newlines,
 * drop the header, drop blank lines, split each line on commas, read the year
 * from column 1, the total from column 4 (divided by 1e9) and the per-capita
 * value from column 5, and drop rows whose year or total is NaN.
 *
 * `parseInt(_, 10)` and `parseFloat` are parameters: partial functions where
 * None stands for NaN. A missing column is `undefined`, which both read as NaN.
 */
module EmissionsCsv {

  import opened Wrappers
  import opened Strings
  import opened EmissionsData

  /** Where a row's country comes from: the file being loaded, or the row's column 0. */
  datatype CountrySource = FromFile(name: string) | FromColumn

  /** The number readers, kept abstract. */
  datatype Readers = Readers(parseInt: string -> Option<int>, parseFloat: string -> Option<real>)

  /** `columns[k]` read by a number reader; past the end it is `undefined`, read as NaN. */
  function ColumnAs<T>(cols: seq<string>, k: nat, read: string -> Option<T>): (r: Option<T>)
    ensures k >= |cols| ==> r.None?
  {
    if k < |cols| then read(cols[k]) else None
  }

  /** One non-header line: the record it yields, or None when it is dropped. */
  function ParseLine(line: string, source: CountrySource, rd: Readers): (r: Option<EmissionsRecord>)
    ensures IsBlank(line) ==> r.None?
  {
    if IsBlank(line) then None
    else
      var cols := Split(line, ',');
      var year := ColumnAs(cols, 1, rd.parseInt);
      var total := ColumnAs(cols, 4, rd.parseFloat);
      if year.None? || total.None? then None
      else
        var country := match source case FromFile(name) => name case FromColumn => cols[0];
        Some(EmissionsRecord(country, year.value, total.value / 1000000000.0, ColumnAs(cols, 5, rd.parseFloat)))
  }

  /** The filter-map over the lines after the header. */
  function ParseLines(lines: seq<string>, source: CountrySource, rd: Readers): (rows: seq<EmissionsRecord>)
    ensures |rows| <= |lines|
  {
    if lines == [] then []
    else
      match ParseLine(lines[0], source, rd)
      case Some(r) => [r] + ParseLines(lines[1..], source, rd)
      case None => ParseLines(lines[1..], source, rd)
  }

  /** The whole pipeline: `csvText.split('\n').slice(1)` and then the line rules. */
  function ParseCsv(csv: string, source: CountrySource, rd: Readers): (rows: seq<EmissionsRecord>)
    ensures |rows| <= |Split(csv, '\n')| - 1
  {
    ParseLines(Split(csv, '\n')[1..], source, rd)
  }

  /** Rows come out in input order: parsing distributes over concatenated lines. */
  lemma {:induction false} ParseLinesAppend(a: seq<string>, b: seq<string>, source: CountrySource, rd: Readers)
    ensures ParseLines(a + b, source, rd) == ParseLines(a, source, rd) + ParseLines(b, source, rd)
  {
    if a != [] {
      assert (a + b)[1..] == a[1..] + b;
      ParseLinesAppend(a[1..], b, source, rd);
    } else {
      assert a + b == b;
    }
  }

  /** A single line yields one record or none, exactly as ParseLine says. */
  lemma ParseOneLine(line: string, source: CountrySource, rd: Readers)
    ensures ParseLines([line], source, rd) ==
      (if ParseLine(line, source, rd).Some? then [ParseLine(line, source, rd).value] else [])
  {
    assert [line][1..] == [];
  }

  /**
   * A line that is not blank and whose year and total parse yields a record
   * with the year of column 1 and the total of column 4 in billions; its
   * country is the file's, or column 0.
   */
  lemma KeptLine(line: string, source: CountrySource, rd: Readers)
    requires !IsBlank(line)
    requires ColumnAs(Split(line, ','), 1, rd.parseInt).Some?
    requires ColumnAs(Split(line, ','), 4, rd.parseFloat).Some?
    ensures var cols := Split(line, ',');
      var r := ParseLine(line, source, rd);
      r.Some? && r.value.year == rd.parseInt(cols[1]).value
      && r.value.totalEmissions * 1000000000.0 == rd.parseFloat(cols[4]).value
      && r.value.country == (if source.FromFile? then source.name else cols[0])
  {
  }

  /** A line whose year or total does not parse is dropped. */
  lemma DroppedLine(line: string, source: CountrySource, rd: Readers)
    requires ColumnAs(Split(line, ','), 1, rd.parseInt).None? || ColumnAs(Split(line, ','), 4, rd.parseFloat).None?
    ensures ParseLine(line, source, rd).None?
  {
  }

  /** Whatever the first line holds, it never becomes a row. */
  lemma HeaderDropped(header: string, body: string, source: CountrySource, rd: Readers)
    requires '\n' !in header
    ensures ParseCsv(header + ['\n'] + body, source, rd) == ParseLines(Split(body, '\n'), source, rd)
  {
    SplitAfter(header, '\n', body);
  }

  /** Blank lines anywhere after the header contribute nothing. */
  lemma BlankLinesIgnored(a: seq<string>, blank: string, b: seq<string>, source: CountrySource, rd: Readers)
    requires IsBlank(blank)
    ensures ParseLines(a + [blank] + b, source, rd) == ParseLines(a + b, source, rd)
  {
    ParseLinesAppend(a + [blank], b, source, rd);
    ParseLinesAppend(a, [blank], source, rd);
    ParseLinesAppend(a, b, source, rd);
    ParseOneLine(blank, source, rd);
  }

  /** Every record comes from a line of the input: rows are a filter-map, never invented. */
  lemma {:induction false} RowsFromLines(lines: seq<string>, source: CountrySource, rd: Readers)
    ensures forall r :: r in ParseLines(lines, source, rd) ==>
      exists i :: 0 <= i < |lines| && ParseLine(lines[i], source, rd) == Some(r)
  {
    if lines != [] {
      RowsFromLines(lines[1..], source, rd);
      forall r | r in ParseLines(lines, source, rd)
        ensures exists i :: 0 <= i < |lines| && ParseLine(lines[i], source, rd) == Some(r)
      {
        if ParseLine(lines[0], source, rd) == Some(r) {
        } else {
          assert r in ParseLines(lines[1..], source, rd);
          var i :| 0 <= i < |lines[1..]| && ParseLine(lines[1..][i], source, rd) == Some(r);
          assert ParseLine(lines[i + 1], source, rd) == Some(r);
        }
      }
    }
  }
}
