/**
 * `load_and_aggregate`: turns the rows of the repaired table into a chronological daily series.
 * `Date.parse` and `Float()` are library calls and enter the model as partial functions.
 */
module Aggregation {
  import opened Wrappers

  /** A calendar date, as a day number: the order of day numbers is the chronological order. */
  type Date = int

  /** One table row: column name to cell text; a column the row lacks reads as an empty cell. */
  type Row = map<string, string>

  /** The parsed CSV: its header and its rows, in file order. */
  datatype Table = Table(columns: seq<string>, rows: seq<Row>)

  /** Which columns hold the date and the value, and the two library parsers. */
  datatype Reader = Reader(dateCol: string, salesCol: string,
                           parseDate: string -> Option<Date>, parseFloat: string -> Option<real>)

  /** The aggregated series: one value per date. */
  datatype Series = Series(dates: seq<Date>, values: seq<real>)

  /** The configuration error the aggregator aborts with. */
  datatype AggregateError = MissingColumns(dateCol: string, salesCol: string)

  function Cell(row: Row, col: string): string {
    if col in row then row[col] else ""
  }

  /** The row's date, or `None` when `Date.parse` raises. */
  function RowDate(rd: Reader, row: Row): Option<Date> {
    rd.parseDate(Cell(row, rd.dateCol))
  }

  /** The coerce-or-zero policy: a value `Float()` rejects counts as 0.0. */
  function CoerceOrZero(v: Option<real>): real {
    v.GetOr(0.0)
  }

  /** The row's contribution to its date's total. */
  function RowValue(rd: Reader, row: Row): real {
    CoerceOrZero(rd.parseFloat(Cell(row, rd.salesCol)))
  }

  predicate StrictlyIncreasing(s: seq<Date>) {
    forall i, j :: 0 <= i < j < |s| ==> s[i] < s[j]
  }

  /** The dates some row parses to. */
  ghost function DatesIn(rd: Reader, rows: seq<Row>): set<Date>
    decreases |rows|
  {
    if rows == [] then {}
    else
      var last := rows[|rows| - 1];
      DatesIn(rd, rows[..|rows| - 1]) + (if RowDate(rd, last).Some? then {RowDate(rd, last).value} else {})
  }

  /** The sum, over the rows whose date parses to `d`, of their coerced values. */
  ghost function DayTotal(rd: Reader, rows: seq<Row>, d: Date): real
    decreases |rows|
  {
    if rows == [] then 0.0
    else
      var last := rows[|rows| - 1];
      DayTotal(rd, rows[..|rows| - 1], d) + (if RowDate(rd, last) == Some(d) then RowValue(rd, last) else 0.0)
  }

  /** `df.where(parsed date not nil)`: the rows whose date parses, in their order. */
  function KeepDated(rd: Reader, rows: seq<Row>): (kept: seq<Row>)
    ensures forall k :: 0 <= k < |kept| ==> RowDate(rd, kept[k]).Some?
    decreases |rows|
  {
    if rows == [] then []
    else
      var last := rows[|rows| - 1];
      KeepDated(rd, rows[..|rows| - 1]) + (if RowDate(rd, last).Some? then [last] else [])
  }

  /** Dropping the rows whose date does not parse changes neither the dates nor any total. */
  lemma {:induction false} KeepDatedKeepsTotals(rd: Reader, rows: seq<Row>)
    ensures DatesIn(rd, KeepDated(rd, rows)) == DatesIn(rd, rows)
    ensures forall d :: DayTotal(rd, KeepDated(rd, rows), d) == DayTotal(rd, rows, d)
    decreases |rows|
  {
    if rows != [] {
      var init, last := rows[..|rows| - 1], rows[|rows| - 1];
      KeepDatedKeepsTotals(rd, init);
      var k := KeepDated(rd, init);
      if RowDate(rd, last).Some? {
        assert KeepDated(rd, rows) == k + [last];
        assert (k + [last])[..|k + [last]| - 1] == k;
      } else {
        assert KeepDated(rd, rows) == k;
      }
    }
  }

  /** A date no row parses to totals zero. */
  lemma {:induction false} AbsentDateTotalsZero(rd: Reader, rows: seq<Row>, d: Date)
    requires d !in DatesIn(rd, rows)
    ensures DayTotal(rd, rows, d) == 0.0
    decreases |rows|
  {
    if rows != [] {
      AbsentDateTotalsZero(rd, rows[..|rows| - 1], d);
    }
  }

  predicate Distinct(s: seq<Date>) {
    forall i, j :: 0 <= i < j < |s| ==> s[i] != s[j]
  }

  /**
   * `keys.sort` on the keys of a hash, which are distinct: the same dates in ascending order.
   * Each key is inserted in front of the first larger one.
   */
  method SortKeys(keys: seq<Date>) returns (sorted: seq<Date>)
    requires Distinct(keys)
    ensures StrictlyIncreasing(sorted)
    ensures |sorted| == |keys|
    ensures forall d :: d in sorted <==> d in keys
  {
    sorted := [];
    for i := 0 to |keys|
      invariant StrictlyIncreasing(sorted)
      invariant |sorted| == i
      invariant forall d :: d in sorted <==> d in keys[..i]
    {
      var k := keys[i];
      assert k !in keys[..i];
      var p := 0;
      while p < |sorted| && sorted[p] < k
        invariant 0 <= p <= |sorted|
        invariant forall q :: 0 <= q < p ==> sorted[q] < k
      {
        p := p + 1;
      }
      assert p < |sorted| ==> k < sorted[p] by {
        if p < |sorted| { assert sorted[p] in keys[..i]; }
      }
      sorted := sorted[..p] + [k] + sorted[p..];
      assert keys[..i + 1] == keys[..i] + [k];
    }
    assert keys[..|keys|] == keys;
  }

  /**
   * `load_and_aggregate` after the table is read: abort when a named column is missing; else
   * drop the rows whose date does not parse, sum the coerced values per date into a hash, and
   * emit the dates in ascending order with their totals.
   */
  method LoadAndAggregate(t: Table, rd: Reader) returns (r: Result<Series, AggregateError>)
    ensures r.Failure? <==> !(rd.dateCol in t.columns && rd.salesCol in t.columns)
    ensures r.Failure? ==> r.error == MissingColumns(rd.dateCol, rd.salesCol)
    ensures r.Success? ==>
              && |r.value.dates| == |r.value.values|
              && StrictlyIncreasing(r.value.dates)
              && (forall d :: d in r.value.dates <==> d in DatesIn(rd, t.rows))
              && (forall i :: 0 <= i < |r.value.dates| ==>
                    r.value.values[i] == DayTotal(rd, t.rows, r.value.dates[i]))
  {
    if !(rd.dateCol in t.columns && rd.salesCol in t.columns) {
      return Failure(MissingColumns(rd.dateCol, rd.salesCol));
    }
    var kept := KeepDated(rd, t.rows);
    // The hash `grouped`: its entries, and its keys in insertion order.
    var grouped: map<Date, real> := map[];
    var order: seq<Date> := [];
    var i := 0;
    while i < |kept|
      invariant 0 <= i <= |kept|
      invariant grouped.Keys == DatesIn(rd, kept[..i])
      invariant forall d :: d in grouped ==> grouped[d] == DayTotal(rd, kept[..i], d)
      invariant Distinct(order)
      invariant forall d :: d in order <==> d in grouped
    {
      var row := kept[i];
      var d := RowDate(rd, row).value;
      var s := RowValue(rd, row);
      assert kept[..i + 1][..i] == kept[..i];
      if d !in grouped {
        AbsentDateTotalsZero(rd, kept[..i], d);
        order := order + [d];
      }
      grouped := grouped[d := (if d in grouped then grouped[d] else 0.0) + s];
      i := i + 1;
    }
    assert kept[..i] == kept;
    KeepDatedKeepsTotals(rd, t.rows);
    var dates := SortKeys(order);
    assert forall j :: 0 <= j < |dates| ==> dates[j] in grouped by {
      forall j | 0 <= j < |dates| ensures dates[j] in grouped { assert dates[j] in dates; }
    }
    var values := seq(|dates|, j requires 0 <= j < |dates| => grouped[dates[j]]);
    return Success(Series(dates, values));
  }
}
