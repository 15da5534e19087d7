/** A snapshot of the canonical data file: rows of (Date, Brand, Handle, GGR)
    in file order, and the per-brand reductions that the comparison reads. */
module Snapshot {
  import opened Basics

  /** One row of the canonical data file. */
  datatype Row = Row(date: Date, brand: string, handle: real, ggr: real)

  /** The distinct brands of a snapshot (`df['Brand'].unique()`). */
  function Brands(rows: seq<Row>): set<string>
  {
    if rows == [] then {} else Brands(rows[..|rows| - 1]) + {rows[|rows| - 1].brand}
  }

  lemma {:induction false} InBrands(rows: seq<Row>, b: string)
    ensures b in Brands(rows) <==> exists i :: 0 <= i < |rows| && rows[i].brand == b
  {
    if rows != [] {
      var front := rows[..|rows| - 1];
      InBrands(front, b);
      if b in Brands(front) {
        var i :| 0 <= i < |front| && front[i].brand == b;
        assert rows[i].brand == b;
      }
      if i :| 0 <= i < |rows| - 1 && rows[i].brand == b {
        assert front[i].brand == b;
      }
    }
  }

  function MinDate(rows: seq<Row>): (m: Date)
    requires rows != []
    ensures exists i :: 0 <= i < |rows| && rows[i].date == m
    ensures forall i :: 0 <= i < |rows| ==> m <= rows[i].date
  {
    if |rows| == 1 then rows[0].date
    else
      var rest := MinDate(rows[1..]);
      if rows[0].date <= rest then rows[0].date else rest
  }

  function MaxDate(rows: seq<Row>): (m: Date)
    requires rows != []
    ensures exists i :: 0 <= i < |rows| && rows[i].date == m
    ensures forall i :: 0 <= i < |rows| ==> rows[i].date <= m
  {
    if |rows| == 1 then rows[0].date
    else
      var rest := MaxDate(rows[1..]);
      if rows[0].date >= rest then rows[0].date else rest
  }

  /** `(df['Date'].min(), df['Date'].max())`; an empty snapshot has no range
      (pandas gives NaT for both ends, and two such pairs compare equal). */
  function DateRange(rows: seq<Row>): Option<(Date, Date)>
  {
    if rows == [] then None else Some((MinDate(rows), MaxDate(rows)))
  }

  /** The most recent date of a brand: the `'Date': 'max'` aggregation. */
  function LatestDate(rows: seq<Row>, b: string): (d: Date)
    requires b in Brands(rows)
    ensures exists i :: 0 <= i < |rows| && rows[i].brand == b && rows[i].date == d
    ensures forall i :: 0 <= i < |rows| && rows[i].brand == b ==> rows[i].date <= d
  {
    var last := rows[|rows| - 1];
    var front := rows[..|rows| - 1];
    if last.brand == b && b !in Brands(front) then
      InBrands(front, b);
      assert forall i :: 0 <= i < |rows| - 1 ==> rows[i] == front[i];
      last.date
    else
      var before := LatestDate(front, b);
      if last.brand == b && last.date > before then last.date else before
  }

  /** The position of a brand's last row in file order: pandas' `'last'`
      aggregation takes GGR and Handle from there. */
  function LastIndex(rows: seq<Row>, b: string): (k: nat)
    requires b in Brands(rows)
    ensures k < |rows| && rows[k].brand == b
    ensures forall j :: k < j < |rows| ==> rows[j].brand != b
  {
    if rows[|rows| - 1].brand == b then |rows| - 1
    else
      LastIndex(rows[..|rows| - 1], b)
  }

  /** What the comparison knows of one brand of a snapshot. */
  datatype BrandSummary = BrandSummary(date: Date, ggr: real, handle: real)

  /** `groupby('Brand').agg({'Date': 'max', 'GGR': 'last', 'Handle': 'last'})`:
      three independent reductions, not one chosen row. */
  function Latest(rows: seq<Row>, b: string): BrandSummary
    requires b in Brands(rows)
  {
    var k := LastIndex(rows, b);
    BrandSummary(LatestDate(rows, b), rows[k].ggr, rows[k].handle)
  }

  ghost predicate SortedByDate(rows: seq<Row>)
  {
    forall i, j :: 0 <= i < j < |rows| ==> rows[i].date <= rows[j].date
  }

  /** When the rows are in date order, as the extractor writes them, the GGR
      and Handle of a brand's summary come from a row that carries the
      brand's latest date. */
  lemma LatestOfSortedRows(rows: seq<Row>, b: string)
    requires b in Brands(rows) && SortedByDate(rows)
    ensures rows[LastIndex(rows, b)].date == Latest(rows, b).date
  {
    var k := LastIndex(rows, b);
    var i :| 0 <= i < |rows| && rows[i].brand == b && rows[i].date == LatestDate(rows, b);
    assert i <= k;
  }

  /** In file order the GGR of a brand's summary need not belong to the row
      with the latest date: here the latest date is day 10 while the GGR
      (7) is that of the day-3 row, which comes last. */
  lemma LatestMixesRows()
    ensures var rows := [Row(10, "A", 1.0, 5.0), Row(3, "A", 2.0, 7.0)];
            "A" in Brands(rows) && Latest(rows, "A") == BrandSummary(10, 7.0, 2.0)
  {
    var rows := [Row(10, "A", 1.0, 5.0), Row(3, "A", 2.0, 7.0)];
    assert rows[0].brand == "A";
    assert rows[..1] == [Row(10, "A", 1.0, 5.0)];
    assert "A" in Brands(rows[..1]) by { assert rows[..1][0].brand == "A"; }
  }
}
