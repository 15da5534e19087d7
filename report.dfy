/** The analysis workbook of `create_excel_report` and `calculate_yoy`:
    date-by-brand sum pivots with a Statewide column, the Hold ratio grid and
    the year-over-year grids. Spreadsheet writing and cell formatting are not
    modelled; a table here is what would be written to one sheet. */
module Report {
  import opened Basics
  import opened Snapshot

  datatype Metric = Handle | Ggr

  function Amount(r: Row, m: Metric): real
  {
    match m
    case Handle => r.handle
    case Ggr => r.ggr
  }

  /** A column heading: one per brand, then the Statewide total. */
  datatype Label = BrandLabel(name: string) | StatewideLabel

  /** A sheet, column by column: `cols[j][i]` is the cell of column
      `labels[j]` on row `dates[i]`. */
  datatype Table<T> = Table(dates: seq<Date>, labels: seq<Label>, cols: seq<seq<T>>)

  ghost predicate Shaped<T>(t: Table<T>)
  {
    |t.cols| == |t.labels| && forall j :: 0 <= j < |t.cols| ==> |t.cols[j]| == |t.dates|
  }

  /** The row headings of every sheet: the distinct dates, most recent first. */
  function ReportDates(rows: seq<Row>): (ds: seq<Date>)
    ensures StrictlyDescending(ds)
    ensures forall d :: d in ds <==> exists i :: 0 <= i < |rows| && rows[i].date == d
  {
    if rows == [] then []
    else
      var front := rows[..|rows| - 1];
      var r := InsertDate(ReportDates(front), rows[|rows| - 1].date);
      assert forall i :: 0 <= i < |rows| - 1 ==> rows[i] == front[i];
      r
  }

  /** The brand columns: the distinct brands in sorted order. */
  function ReportBrands(rows: seq<Row>): (bs: seq<string>)
    ensures StrictlyIncreasing(bs)
    ensures forall b :: b in bs <==> b in Brands(rows)
  {
    if rows == [] then []
    else InsertName(ReportBrands(rows[..|rows| - 1]), rows[|rows| - 1].brand)
  }

  /** The pivot cell of date `d` and brand `b`: the sum of the metric over
      that brand's rows on that date (`aggfunc='sum'`, `fill_value=0`). */
  function CellSum(rows: seq<Row>, d: Date, b: string, m: Metric): real
  {
    if rows == [] then 0.0
    else
      var r := rows[|rows| - 1];
      CellSum(rows[..|rows| - 1], d, b, m) + (if r.date == d && r.brand == b then Amount(r, m) else 0.0)
  }

  /** The metric summed over every row of date `d`, whatever its brand. */
  function DateTotal(rows: seq<Row>, d: Date, m: Metric): real
  {
    if rows == [] then 0.0
    else
      var r := rows[|rows| - 1];
      DateTotal(rows[..|rows| - 1], d, m) + (if r.date == d then Amount(r, m) else 0.0)
  }

  /** The metric summed over all rows. */
  function Total(rows: seq<Row>, m: Metric): real
  {
    if rows == [] then 0.0 else Total(rows[..|rows| - 1], m) + Amount(rows[|rows| - 1], m)
  }

  /** The brand cells of one pivot row, in column order. */
  function RowCells(rows: seq<Row>, d: Date, bs: seq<string>, m: Metric): (r: seq<real>)
    ensures |r| == |bs| && forall j :: 0 <= j < |bs| ==> r[j] == CellSum(rows, d, bs[j], m)
  {
    if bs == [] then [] else [CellSum(rows, d, bs[0], m)] + RowCells(rows, d, bs[1..], m)
  }

  function Labels(bs: seq<string>): seq<Label>
  {
    seq(|bs|, j requires 0 <= j < |bs| => BrandLabel(bs[j])) + [StatewideLabel]
  }

  /** The pivot of one metric, reindexed by the report dates, with the
      Statewide column (`sum(axis=1)` over the brand columns) appended. */
  function Pivot(rows: seq<Row>, m: Metric): (t: Table<real>)
    ensures Shaped(t) && t.dates == ReportDates(rows) && t.labels == Labels(ReportBrands(rows))
    ensures var bs := ReportBrands(rows);
            forall j, i :: 0 <= j < |bs| && 0 <= i < |t.dates| ==> t.cols[j][i] == CellSum(rows, t.dates[i], bs[j], m)
    ensures var bs := ReportBrands(rows);
            forall i :: 0 <= i < |t.dates| ==> t.cols[|bs|][i] == Sum(RowCells(rows, t.dates[i], bs, m))
  {
    var ds := ReportDates(rows);
    var bs := ReportBrands(rows);
    var brandCols := seq(|bs|, j requires 0 <= j < |bs| =>
                       seq(|ds|, i requires 0 <= i < |ds| => CellSum(rows, ds[i], bs[j], m)));
    var statewide := seq(|ds|, i requires 0 <= i < |ds| => Sum(RowCells(rows, ds[i], bs, m)));
    Table(ds, Labels(bs), brandCols + [statewide])
  }

  lemma CellSumStep(rows: seq<Row>, r: Row, d: Date, b: string, m: Metric)
    ensures CellSum(rows + [r], d, b, m) == CellSum(rows, d, b, m) + (if r.date == d && r.brand == b then Amount(r, m) else 0.0)
  {
    assert (rows + [r])[..|rows|] == rows;
  }

  lemma DateTotalStep(rows: seq<Row>, r: Row, d: Date, m: Metric)
    ensures DateTotal(rows + [r], d, m) == DateTotal(rows, d, m) + (if r.date == d then Amount(r, m) else 0.0)
  {
    assert (rows + [r])[..|rows|] == rows;
  }

  /** A cell with no row of that date and brand is 0. */
  lemma {:induction false} CellSumWithoutRows(rows: seq<Row>, d: Date, b: string, m: Metric)
    requires forall i :: 0 <= i < |rows| ==> rows[i].date != d || rows[i].brand != b
    ensures CellSum(rows, d, b, m) == 0.0
  {
    if rows != [] {
      CellSumWithoutRows(rows[..|rows| - 1], d, b, m);
    }
  }

  lemma {:induction false} RowCellsWithoutRows(d: Date, bs: seq<string>, m: Metric)
    ensures Sum(RowCells([], d, bs, m)) == 0.0
  {
    if bs != [] {
      RowCellsWithoutRows(d, bs[1..], m);
      assert RowCells([], d, bs, m)[1..] == RowCells([], d, bs[1..], m);
    }
  }

  /** One more row adds its amount to the row total of its own date when its
      brand has a column, and changes nothing else. */
  lemma {:induction false} RowCellsStep(rows: seq<Row>, r: Row, d: Date, bs: seq<string>, m: Metric)
    requires Distinct(bs)
    ensures Sum(RowCells(rows + [r], d, bs, m))
            == Sum(RowCells(rows, d, bs, m)) + (if r.date == d && r.brand in bs then Amount(r, m) else 0.0)
  {
    if bs != [] {
      var tail := bs[1..];
      assert Distinct(tail);
      assert r.brand in bs <==> r.brand == bs[0] || r.brand in tail;
      assert r.brand == bs[0] ==> r.brand !in tail;
      RowCellsStep(rows, r, d, tail, m);
      CellSumStep(rows, r, d, bs[0], m);
      assert RowCells(rows + [r], d, bs, m)[1..] == RowCells(rows + [r], d, tail, m);
      assert RowCells(rows, d, bs, m)[1..] == RowCells(rows, d, tail, m);
    }
  }

  /** Summing the brand cells of a date gives that date's total, when every
      row's brand has a column and no column repeats. */
  lemma {:induction false} BrandPartition(rows: seq<Row>, d: Date, bs: seq<string>, m: Metric)
    requires Distinct(bs)
    requires forall i :: 0 <= i < |rows| ==> rows[i].brand in bs
    ensures Sum(RowCells(rows, d, bs, m)) == DateTotal(rows, d, m)
  {
    if rows == [] {
      RowCellsWithoutRows(d, bs, m);
    } else {
      var front := rows[..|rows| - 1];
      var r := rows[|rows| - 1];
      assert rows == front + [r];
      BrandPartition(front, d, bs, m);
      RowCellsStep(front, r, d, bs, m);
      DateTotalStep(front, r, d, m);
    }
  }

  /** Every Statewide cell is the total of its date over all rows: no row is
      lost or counted twice by the pivot. */
  lemma StatewideIsDateTotal(rows: seq<Row>, m: Metric, i: nat)
    requires i < |ReportDates(rows)|
    ensures var t := Pivot(rows, m);
            t.labels[|t.labels| - 1] == StatewideLabel
            && t.cols[|t.cols| - 1][i] == DateTotal(rows, t.dates[i], m)
  {
    var bs := ReportBrands(rows);
    IncreasingIsDistinct(bs);
    forall k | 0 <= k < |rows| ensures rows[k].brand in bs {
      InBrands(rows, rows[k].brand);
    }
    BrandPartition(rows, ReportDates(rows)[i], bs, m);
  }

  /** The totals of the given dates, in order. */
  function DateTotals(rows: seq<Row>, ds: seq<Date>, m: Metric): (r: seq<real>)
    ensures |r| == |ds| && forall i :: 0 <= i < |ds| ==> r[i] == DateTotal(rows, ds[i], m)
  {
    if ds == [] then [] else [DateTotal(rows, ds[0], m)] + DateTotals(rows, ds[1..], m)
  }

  lemma {:induction false} DateTotalsWithoutRows(ds: seq<Date>, m: Metric)
    ensures Sum(DateTotals([], ds, m)) == 0.0
  {
    if ds != [] {
      DateTotalsWithoutRows(ds[1..], m);
      assert DateTotals([], ds, m)[1..] == DateTotals([], ds[1..], m);
    }
  }

  lemma {:induction false} DateTotalsStep(rows: seq<Row>, r: Row, ds: seq<Date>, m: Metric)
    requires Distinct(ds)
    ensures Sum(DateTotals(rows + [r], ds, m))
            == Sum(DateTotals(rows, ds, m)) + (if r.date in ds then Amount(r, m) else 0.0)
  {
    if ds != [] {
      var tail := ds[1..];
      assert Distinct(tail);
      assert r.date in ds <==> r.date == ds[0] || r.date in tail;
      assert r.date == ds[0] ==> r.date !in tail;
      DateTotalsStep(rows, r, tail, m);
      DateTotalStep(rows, r, ds[0], m);
      assert DateTotals(rows + [r], ds, m)[1..] == DateTotals(rows + [r], tail, m);
      assert DateTotals(rows, ds, m)[1..] == DateTotals(rows, tail, m);
    }
  }

  /** Summing the totals of distinct dates covering every row gives the
      total over all rows. */
  lemma {:induction false} DatePartition(rows: seq<Row>, ds: seq<Date>, m: Metric)
    requires Distinct(ds)
    requires forall i :: 0 <= i < |rows| ==> rows[i].date in ds
    ensures Sum(DateTotals(rows, ds, m)) == Total(rows, m)
  {
    if rows == [] {
      DateTotalsWithoutRows(ds, m);
    } else {
      var front := rows[..|rows| - 1];
      var r := rows[|rows| - 1];
      assert rows == front + [r];
      DatePartition(front, ds, m);
      DateTotalsStep(front, r, ds, m);
    }
  }

  /** The Statewide column of a pivot adds up to the metric's total over the
      whole snapshot. */
  lemma StatewideColumnTotal(rows: seq<Row>, m: Metric)
    ensures var t := Pivot(rows, m);
            Sum(t.cols[|t.cols| - 1]) == Total(rows, m)
  {
    var t := Pivot(rows, m);
    var ds := ReportDates(rows);
    forall i | 0 <= i < |ds| ensures t.cols[|t.cols| - 1][i] == DateTotals(rows, ds, m)[i] {
      StatewideIsDateTotal(rows, m, i);
    }
    assert t.cols[|t.cols| - 1] == DateTotals(rows, ds, m);
    forall k | 0 <= k < |rows| ensures rows[k].date in ds {
    }
    DatePartition(rows, ds, m);
  }

  /** `num / den` with a zero denominator giving a blank cell (the Handle
      zeros are replaced by NaN before dividing, and NaN is then blanked). */
  function Ratio(num: real, den: real): (r: Option<real>)
    ensures r.None? <==> den == 0.0
    ensures r.Some? ==> r.value * den == num
  {
    if den == 0.0 then None else Some(num / den)
  }

  /** The Hold sheet: GGR divided by Handle, cell by cell, Statewide included. */
  function Hold(ggr: Table<real>, handle: Table<real>): (t: Table<Option<real>>)
    requires Shaped(ggr) && Shaped(handle)
    requires ggr.dates == handle.dates && ggr.labels == handle.labels
    ensures Shaped(t) && t.dates == ggr.dates && t.labels == ggr.labels
    ensures forall j, i :: 0 <= j < |t.cols| && 0 <= i < |t.dates| ==>
              && (t.cols[j][i].None? <==> handle.cols[j][i] == 0.0)
              && (t.cols[j][i].Some? ==> t.cols[j][i].value * handle.cols[j][i] == ggr.cols[j][i])
  {
    var cols := seq(|ggr.cols|, j requires 0 <= j < |ggr.cols| =>
                  seq(|ggr.dates|, i requires 0 <= i < |ggr.dates| => Ratio(ggr.cols[j][i], handle.cols[j][i])));
    Table(ggr.dates, ggr.labels, cols)
  }

  /** The Hold sheet of a snapshot: blank exactly where the Handle pivot is
      zero, and otherwise the GGR pivot cell divided by the Handle pivot cell. */
  lemma HoldOfSnapshot(rows: seq<Row>, j: nat, i: nat)
    requires j < |Pivot(rows, Handle).cols| && i < |ReportDates(rows)|
    ensures var g, h := Pivot(rows, Ggr), Pivot(rows, Handle);
            var c := Hold(g, h).cols[j][i];
            && (c.None? <==> h.cols[j][i] == 0.0)
            && (c.Some? ==> c.value * h.cols[j][i] == g.cols[j][i])
  {
  }

  // Year over year.

  /** 52 weeks: the same weekday one year earlier. */
  const YearOffset: int := 364
  /** How far from the ideal prior date a candidate may lie, in days. */
  const Tolerance: int := 7

  function Distance(x: Date, target: Date): nat
  {
    if x >= target then x - target else target - x
  }

  predicate InWindow(x: Date, target: Date)
  {
    target - Tolerance <= x <= target + Tolerance
  }

  /** The grid row whose date is closest to `target` within the window, as
      `min(window, key=...)` chooses it: the first minimiser in row order. */
  function ClosestPrior(dates: seq<Date>, target: Date): (k: Option<nat>)
    ensures k.None? <==> forall j :: 0 <= j < |dates| ==> !InWindow(dates[j], target)
    ensures k.Some? ==> k.value < |dates| && InWindow(dates[k.value], target)
    ensures k.Some? ==> forall j :: 0 <= j < |dates| && InWindow(dates[j], target) ==>
                          Distance(dates[k.value], target) <= Distance(dates[j], target)
    ensures k.Some? ==> forall j :: 0 <= j < k.value && InWindow(dates[j], target) ==>
                          Distance(dates[k.value], target) < Distance(dates[j], target)
  {
    if dates == [] then None
    else
      var n := |dates| - 1;
      var best := ClosestPrior(dates[..n], target);
      assert forall j :: 0 <= j < n ==> dates[..n][j] == dates[j];
      if InWindow(dates[n], target) && (best.None? || Distance(dates[n], target) < Distance(dates[best.value], target))
      then Some(n)
      else best
  }

  /** One year-over-year cell: blank without a candidate prior row or when the
      prior value is 0, otherwise current / prior - 1. */
  function YoYValue(dates: seq<Date>, series: seq<real>, i: nat): Option<real>
    requires |series| == |dates| && i < |dates|
  {
    match ClosestPrior(dates, dates[i] - YearOffset)
    case None => None
    case Some(k) => if series[k] == 0.0 then None else Some(series[i] / series[k] - 1.0)
  }

  function YoYSeries(dates: seq<Date>, series: seq<real>): (r: seq<Option<real>>)
    requires |series| == |dates|
  {
    seq(|dates|, i requires 0 <= i < |dates| => YoYValue(dates, series, i))
  }

  /** `calc_for_series`: one pass over the grid's dates. */
  method SeriesYoY(dates: seq<Date>, series: seq<real>) returns (values: seq<Option<real>>)
    requires |series| == |dates|
    ensures values == YoYSeries(dates, series)
  {
    values := [];
    var i := 0;
    while i < |dates|
      invariant 0 <= i <= |dates|
      invariant values == YoYSeries(dates, series)[..i]
    {
      var lastYear := dates[i] - YearOffset;
      var closest := ClosestPrior(dates, lastYear);
      if closest.None? {
        values := values + [None];
      } else {
        var prior := series[closest.value];
        if prior == 0.0 {
          values := values + [None];
        } else {
          values := values + [Some(series[i] / prior - 1.0)];
        }
      }
      i := i + 1;
    }
  }

  /** `calculate_yoy`: every column of the grid, Statewide included, is
      replaced by its own year-over-year series. */
  method CalculateYoY(t: Table<real>) returns (y: Table<Option<real>>)
    requires Shaped(t)
    ensures Shaped(y) && y.dates == t.dates && y.labels == t.labels
    ensures forall j :: 0 <= j < |t.cols| ==> y.cols[j] == YoYSeries(t.dates, t.cols[j])
  {
    var cols: seq<seq<Option<real>>> := [];
    var j := 0;
    while j < |t.cols|
      invariant 0 <= j <= |t.cols| && |cols| == j
      invariant forall k :: 0 <= k < j ==> cols[k] == YoYSeries(t.dates, t.cols[k])
    {
      var column := SeriesYoY(t.dates, t.cols[j]);
      cols := cols + [column];
      j := j + 1;
    }
    y := Table(t.dates, t.labels, cols);
  }

  /** Without a grid date within 7 days of one year (364 days) earlier, the
      cell is blank. */
  lemma YoYBlankWithoutCandidate(dates: seq<Date>, series: seq<real>, i: nat)
    requires |series| == |dates| && i < |dates|
    requires forall j :: 0 <= j < |dates| ==> !InWindow(dates[j], dates[i] - YearOffset)
    ensures YoYValue(dates, series, i).None?
  {
  }

  /** When the grid holds the date exactly 364 days earlier, that row is the
      prior one, and the cell is the growth against it (blank if it is 0). */
  lemma YoYExactYear(dates: seq<Date>, series: seq<real>, i: nat, k: nat)
    requires |series| == |dates| && i < |dates| && k < |dates|
    requires Distinct(dates) && dates[k] == dates[i] - YearOffset
    ensures ClosestPrior(dates, dates[i] - YearOffset) == Some(k)
    ensures YoYValue(dates, series, i) == if series[k] == 0.0 then None else Some(series[i] / series[k] - 1.0)
  {
    var target := dates[i] - YearOffset;
    var c := ClosestPrior(dates, target);
    assert InWindow(dates[k], target);
    assert Distance(dates[c.value], target) == 0;
  }

  /** On a most-recent-first grid, of two candidates equally far from the
      ideal prior date the later date wins. */
  lemma TieBreakPrefersLaterDate(dates: seq<Date>, target: Date, j: nat)
    requires StrictlyDescending(dates) && j < |dates| && InWindow(dates[j], target)
    ensures var c := ClosestPrior(dates, target);
            c.Some? && (Distance(dates[j], target) == Distance(dates[c.value], target) ==> dates[c.value] >= dates[j])
  {
  }

  /** With weekly rows on days 471, 110 and 104, the ideal prior date of day
      471 is day 107, three days from both candidates; day 110 is chosen. */
  lemma TieExample()
    ensures ClosestPrior([471, 110, 104], 471 - YearOffset) == Some(1)
  {
    var ds: seq<Date> := [471, 110, 104];
    assert ds[..2] == [471, 110] && ds[..2][..1] == [471] && ds[..2][..1][..0] == [];
  }
}
