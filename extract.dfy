/** The report extractor (`NYGamingDataExtractorV2`): reads every weekly
    workbook of an operator, keeps the rows below the `Week-Ending` header
    that carry a date and a positive GGR, names them after the operator and
    writes them sorted by date and brand. Reading workbooks, the directory
    listing and writing the CSV file are not modelled: workbooks arrive as
    values, and what would be written is returned. */
module Extract {
  import opened Basics
  import Snapshot

  /** A spreadsheet cell as pandas hands it over: empty (NaN), text, a
      number, or a timestamp (a day number). */
  datatype Cell = Blank | Text(s: string) | Number(x: real) | Stamp(day: Date)

  type SheetRows = seq<seq<Cell>>

  /** A sheet that could be read, or one whose reading raised. */
  datatype SheetRead = Unreadable | Sheet(rows: SheetRows)

  /** A workbook that could not be opened, or its sheets in order. */
  datatype Workbook = Corrupt | Workbook(sheets: seq<SheetRead>)

  /** A file found by the `*.xlsx` glob, with its contents. */
  datatype ReportFile = ReportFile(name: string, book: Workbook)

  /** pandas' text parsers, which the model does not reproduce: `to_datetime`
      on a string and `float` on a string; `None` where they raise. */
  datatype Parsers = Parsers(date: string -> Option<Date>, number: string -> Option<real>)

  /** The Handle column as written: empty, a whole number, or the cell's own
      text when it is not numeric. */
  datatype HandleText = NoHandle | WholeNumber(n: int) | Verbatim(cell: Cell)

  /** One output row: (Date, Handle, GGR, Brand). */
  datatype Record = Record(date: Date, handle: HandleText, ggr: real, brand: string)

  // Brand names.

  /** The display name of each known operator's file. */
  const BrandMapping: map<string, string> := map[
    "Bally_Bet_Weekly_Report.xlsx" := "Bally Bet",
    "BetMGM_Weekly_Report.xlsx" := "BetMGM",
    "Caesars_Sport_Book_Weekly_Report.xlsx" := "Caesars Sport Book",
    "DraftKings_Sport_Book_Weekly_Report.xlsx" := "DraftKings Sport Book",
    "ESPN_Bet_Wynn_Interactive_Weekly_Report.xlsx" := "ESPN Bet",
    "Fanatics_Weekly_Report.xlsx" := "Fanatics",
    "FanDuel_Weekly_Report.xlsx" := "FanDuel",
    "Resorts_World_Bet_Weekly_Report.xlsx" := "Resorts World Bet",
    "Rush_Street_Interactive_Weekly_Report.xlsx" := "Rush Street Interactive"
  ]

  /** `str.rfind('.')`: the position of the last dot, or -1. */
  function LastDot(name: string): (i: int)
    ensures -1 <= i < |name|
    ensures i >= 0 ==> name[i] == '.'
    ensures forall j :: i < j < |name| ==> name[j] != '.'
  {
    if name == [] then -1
    else if name[|name| - 1] == '.' then |name| - 1
    else LastDot(name[..|name| - 1])
  }

  /** `Path.stem`: the name without its last suffix; a leading dot or a
      trailing dot does not start a suffix. */
  function Stem(name: string): string
  {
    var i := LastDot(name);
    if 0 < i < |name| - 1 then name[..i] else name
  }

  /** `brand_mapping.get(name, stem)`. */
  function BrandName(fileName: string): string
  {
    if fileName in BrandMapping then BrandMapping[fileName] else Stem(fileName)
  }

  /** The stem of `<base>.xlsx` is `<base>`: the suffix starts at the dot
      of `.xlsx`, the last one in the name. */
  lemma XlsxStem(base: string)
    requires base != []
    ensures Stem(base + ".xlsx") == base
  {
    var name := base + ".xlsx";
    assert name[|base|] == '.';
    assert forall j :: |base| < j < |name| ==> name[j] != '.';
    assert LastDot(name) == |base|;
  }

  /** A workbook named `<base>.xlsx` that has no display name is named by
      its base name; a known one by its display name. */
  lemma BrandNaming(base: string)
    requires base != []
    ensures base + ".xlsx" in BrandMapping ==> BrandName(base + ".xlsx") == BrandMapping[base + ".xlsx"]
    ensures base + ".xlsx" !in BrandMapping ==> BrandName(base + ".xlsx") == base
  {
    XlsxStem(base);
  }

  // One worksheet.

  function CellAt(row: seq<Cell>, k: nat): Cell
  {
    if k < |row| then row[k] else Blank
  }

  /** `part in s` on strings: `part` occurs in `s` at some position. */
  predicate Contains(s: string, part: string)
    decreases |s|
  {
    |part| <= |s| && (s[..|part|] == part || Contains(s[1..], part))
  }

  /** A header row: its first cell is text containing `Week-Ending` (the
      text form of a number or a timestamp never does). */
  predicate IsHeaderRow(row: seq<Cell>)
  {
    CellAt(row, 0).Text? && Contains(CellAt(row, 0).s, "Week-Ending")
  }

  /** The first header row of a sheet, if any. */
  function FirstHeader(rows: SheetRows): (h: Option<nat>)
    ensures h.None? <==> forall k :: 0 <= k < |rows| ==> !IsHeaderRow(rows[k])
    ensures h.Some? ==> h.value < |rows| && IsHeaderRow(rows[h.value])
                        && forall k :: 0 <= k < h.value ==> !IsHeaderRow(rows[k])
  {
    if rows == [] then None
    else if IsHeaderRow(rows[0]) then Some(0)
    else
      var rest := FirstHeader(rows[1..]);
      assert forall k :: 1 <= k < |rows| ==> rows[1..][k - 1] == rows[k];
      if rest.None? then None else Some(rest.value + 1)
  }

  predicate IsBlankRow(row: seq<Cell>)
  {
    forall k :: 0 <= k < |row| ==> row[k].Blank?
  }

  /** `dropna(how='all')`: the rows that have a non-empty cell, in order. */
  function DropBlankRows(rows: SheetRows): (r: SheetRows)
    ensures forall row :: row in r <==> row in rows && !IsBlankRow(row)
    ensures |r| <= |rows|
  {
    if rows == [] then []
    else
      var front := DropBlankRows(rows[..|rows| - 1]);
      var last := rows[|rows| - 1];
      assert rows == rows[..|rows| - 1] + [last];
      if IsBlankRow(last) then front else front + [last]
  }

  /** The date of a date cell: text is parsed; a timestamp is its day; a
      number has no `strftime`, so it is not a date. */
  function DateOf(c: Cell, p: Parsers): (r: Option<Date>)
    ensures r.Some? <==> c.Stamp? || (c.Text? && p.date(c.s).Some?)
    ensures c.Stamp? ==> r == Some(c.day)
  {
    match c
    case Text(s) => p.date(s)
    case Stamp(d) => Some(d)
    case _ => None
  }

  /** `float(cell)`: a number is itself, text is parsed, a timestamp and an
      empty cell have no value. */
  function NumberOf(c: Cell, p: Parsers): (r: Option<real>)
    ensures r.Some? <==> c.Number? || (c.Text? && p.number(c.s).Some?)
    ensures c.Number? ==> r == Some(c.x)
  {
    match c
    case Number(x) => Some(x)
    case Text(s) => p.number(s)
    case _ => None
  }

  /** `int(x)`: truncation toward zero. */
  function Trunc(x: real): (n: int)
    ensures x >= 0.0 ==> n as real <= x < n as real + 1.0
    ensures x < 0.0 ==> n as real - 1.0 < x <= n as real
    ensures (x >= 0.0 ==> n >= 0) && (x <= 0.0 ==> n <= 0)
  {
    if x >= 0.0 then x.Floor else -((-x).Floor)
  }

  /** Halves and fractions below 1 go toward zero, on either side. */
  lemma TruncTowardZero()
    ensures Trunc(2.5) == 2 && Trunc(0.5) == 0 && Trunc(-0.5) == 0 && Trunc(-2.5) == -2
    ensures Trunc(7.0) == 7 && Trunc(-7.0) == -7
  {
  }

  /** The Handle text: empty for an empty cell, `str(int(float(v)))` when the
      cell converts to a number, the cell's own text otherwise. */
  function HandleOf(c: Cell, p: Parsers): (h: HandleText)
    ensures h.NoHandle? <==> c.Blank?
    ensures h.WholeNumber? <==> !c.Blank? && NumberOf(c, p).Some?
    ensures h.WholeNumber? ==> h.n == Trunc(NumberOf(c, p).value)
    ensures h.Verbatim? ==> h.cell == c
  {
    if c.Blank? then NoHandle
    else match NumberOf(c, p)
      case Some(x) => WholeNumber(Trunc(x))
      case None => Verbatim(c)
  }

  /** The record of one data row (date in column 0, Handle in column 2, GGR
      in column 5), or nothing when the row is skipped. */
  function ConvertRow(row: seq<Cell>, brand: string, p: Parsers): (r: Option<Record>)
    ensures r.Some? <==>
              && !CellAt(row, 0).Blank? && !CellAt(row, 5).Blank?
              && DateOf(CellAt(row, 0), p).Some?
              && NumberOf(CellAt(row, 5), p).Some? && NumberOf(CellAt(row, 5), p).value > 0.0
    ensures r.Some? ==>
              && r.value.date == DateOf(CellAt(row, 0), p).value
              && r.value.ggr == NumberOf(CellAt(row, 5), p).value
              && r.value.handle == HandleOf(CellAt(row, 2), p)
              && r.value.brand == brand
  {
    var dateCell, handleCell, ggrCell := CellAt(row, 0), CellAt(row, 2), CellAt(row, 5);
    if dateCell.Blank? || ggrCell.Blank? then None
    else
      match (DateOf(dateCell, p), NumberOf(ggrCell, p))
      case (Some(d), Some(g)) =>
        if g > 0.0 then Some(Record(d, HandleOf(handleCell, p), g, brand)) else None
      case _ => None
  }

  /** The records of consecutive data rows, in row order. */
  function RowsRecords(rows: SheetRows, brand: string, p: Parsers): (r: seq<Record>)
    ensures |r| <= |rows|
    ensures forall rec :: rec in r ==> rec.ggr > 0.0 && rec.brand == brand
  {
    if rows == [] then []
    else
      var front := RowsRecords(rows[..|rows| - 1], brand, p);
      match ConvertRow(rows[|rows| - 1], brand, p)
      case Some(rec) => front + [rec]
      case None => front
  }

  /** The records of one sheet: none without a header row, otherwise those
      of the non-blank rows after the first header row. */
  function SheetRecords(rows: SheetRows, brand: string, p: Parsers): seq<Record>
  {
    match FirstHeader(rows)
    case None => []
    case Some(h) => RowsRecords(DropBlankRows(rows[h + 1..]), brand, p)
  }

  lemma {:induction false} RowsRecordsAppend(a: SheetRows, b: SheetRows, brand: string, p: Parsers)
    ensures RowsRecords(a + b, brand, p) == RowsRecords(a, brand, p) + RowsRecords(b, brand, p)
  {
    if b == [] {
      assert a + b == a;
    } else {
      var b0 := b[..|b| - 1];
      assert (a + b)[..|a + b| - 1] == a + b0;
      RowsRecordsAppend(a, b0, brand, p);
    }
  }

  /** Dropping the empty rows changes no record: an empty row has no date. */
  lemma {:induction false} BlankRowsYieldNothing(rows: SheetRows, brand: string, p: Parsers)
    ensures RowsRecords(DropBlankRows(rows), brand, p) == RowsRecords(rows, brand, p)
  {
    if rows != [] {
      var front := rows[..|rows| - 1];
      var last := rows[|rows| - 1];
      BlankRowsYieldNothing(front, brand, p);
      if !IsBlankRow(last) {
        RowsRecordsAppend(DropBlankRows(front), [last], brand, p);
        assert [last][..0] == [];
      } else {
        assert CellAt(last, 0).Blank?;
      }
    }
  }

  /** The records of a sheet are those of all the rows below its first
      header row, and only those. */
  lemma RecordsFollowHeader(rows: SheetRows, brand: string, p: Parsers)
    ensures FirstHeader(rows).None? ==> SheetRecords(rows, brand, p) == []
    ensures FirstHeader(rows).Some? ==>
              SheetRecords(rows, brand, p) == RowsRecords(rows[FirstHeader(rows).value + 1..], brand, p)
  {
    if FirstHeader(rows).Some? {
      BlankRowsYieldNothing(rows[FirstHeader(rows).value + 1..], brand, p);
    }
  }

  // Whole files.

  function ReadableSheetsRecords(sheets: seq<SheetRead>, brand: string, p: Parsers): seq<Record>
  {
    if sheets == [] then []
    else
      var last := sheets[|sheets| - 1];
      ReadableSheetsRecords(sheets[..|sheets| - 1], brand, p)
      + (if last.Sheet? then SheetRecords(last.rows, brand, p) else [])
  }

  predicate AllReadable(sheets: seq<SheetRead>)
  {
    forall k :: 0 <= k < |sheets| ==> sheets[k].Sheet?
  }

  /** The records of a workbook, sheet after sheet; an error while opening it
      or reading any of its sheets discards the whole file. */
  function FileRecords(book: Workbook, brand: string, p: Parsers): seq<Record>
  {
    if book.Corrupt? || !AllReadable(book.sheets) then []
    else ReadableSheetsRecords(book.sheets, brand, p)
  }

  predicate IsTemporary(name: string)
  {
    |name| >= 2 && name[..2] == "~$"
  }

  /** The files left after removing Excel's `~$` lock files, in order. */
  function KeptFiles(files: seq<ReportFile>): (r: seq<ReportFile>)
    ensures forall f :: f in r <==> f in files && !IsTemporary(f.name)
  {
    if files == [] then []
    else
      var front := files[..|files| - 1];
      var last := files[|files| - 1];
      assert files == front + [last];
      KeptFiles(front) + (if IsTemporary(last.name) then [] else [last])
  }

  /** Filtering a concatenation filters each part, in order. */
  lemma {:induction false} KeptFilesAppend(a: seq<ReportFile>, b: seq<ReportFile>)
    ensures KeptFiles(a + b) == KeptFiles(a) + KeptFiles(b)
  {
    if b == [] {
      assert a + b == a;
    } else {
      var b0, last := b[..|b| - 1], b[|b| - 1];
      var own := if IsTemporary(last.name) then [] else [last];
      assert (a + b)[..|a + b| - 1] == a + b0 && (a + b)[|a + b| - 1] == last;
      assert KeptFiles(a + b) == KeptFiles(a + b0) + own;
      KeptFilesAppend(a, b0);
      AppendAssoc(KeptFiles(a), KeptFiles(b0), own);
    }
  }

  lemma KeptFilesOne(f: ReportFile)
    ensures KeptFiles([f]) == if IsTemporary(f.name) then [] else [f]
  {
    assert [f][..0] == [];
  }

  /** Without lock files, every file is kept, in the same order. */
  lemma {:induction false} NoLockFilesKeepsAll(files: seq<ReportFile>)
    requires forall f :: f in files ==> !IsTemporary(f.name)
    ensures KeptFiles(files) == files
  {
    if files != [] {
      var front, last := files[..|files| - 1], files[|files| - 1];
      assert files == front + [last];
      KeptFilesAppend(front, [last]);
      KeptFilesOne(last);
      NoLockFilesKeepsAll(front);
    }
  }

  /** The records of the given files, file after file. */
  function AllRecords(files: seq<ReportFile>, p: Parsers): seq<Record>
  {
    if files == [] then []
    else
      var last := files[|files| - 1];
      AllRecords(files[..|files| - 1], p) + FileRecords(last.book, BrandName(last.name), p)
  }

  /** One more file extends the records by that file's records. */
  lemma AllRecordsStep(files: seq<ReportFile>, n: nat, p: Parsers)
    requires n < |files|
    ensures AllRecords(files[..n + 1], p)
            == AllRecords(files[..n], p) + FileRecords(files[n].book, BrandName(files[n].name), p)
  {
    assert files[..n + 1][..n] == files[..n];
  }

  lemma {:induction false} SheetsRecordsFacts(sheets: seq<SheetRead>, brand: string, p: Parsers)
    ensures forall rec :: rec in ReadableSheetsRecords(sheets, brand, p) ==> rec.ggr > 0.0 && rec.brand == brand
  {
    if sheets != [] {
      SheetsRecordsFacts(sheets[..|sheets| - 1], brand, p);
    }
  }

  /** Every extracted record has a positive GGR and carries the brand name
      of a file that was kept. */
  lemma {:induction false} ExtractedRecords(files: seq<ReportFile>, p: Parsers)
    ensures forall rec :: rec in AllRecords(KeptFiles(files), p) ==>
              rec.ggr > 0.0 && exists f :: f in files && !IsTemporary(f.name) && rec.brand == BrandName(f.name)
  {
    var kept := KeptFiles(files);
    AllRecordsFacts(kept, p);
  }

  lemma {:induction false} AllRecordsFacts(files: seq<ReportFile>, p: Parsers)
    ensures forall rec :: rec in AllRecords(files, p) ==>
              rec.ggr > 0.0 && exists f :: f in files && rec.brand == BrandName(f.name)
  {
    if files != [] {
      var front := files[..|files| - 1];
      var last := files[|files| - 1];
      AllRecordsFacts(front, p);
      SheetsRecordsFacts(if last.book.Corrupt? then [] else last.book.sheets, BrandName(last.name), p);
      forall rec | rec in AllRecords(files, p)
        ensures rec.ggr > 0.0 && exists f :: f in files && rec.brand == BrandName(f.name)
      {
        if rec in AllRecords(front, p) {
          var f :| f in front && rec.brand == BrandName(f.name);
          assert f in files;
        } else {
          assert rec.brand == BrandName(last.name);
          assert last in files;
        }
      }
    }
  }

  /** Extracting a list of files in two parts gives the records of the first
      part followed by those of the second. */
  lemma {:induction false} AllRecordsAppend(a: seq<ReportFile>, b: seq<ReportFile>, p: Parsers)
    ensures AllRecords(a + b, p) == AllRecords(a, p) + AllRecords(b, p)
  {
    if b == [] {
      assert a + b == a;
    } else {
      var b0, last := b[..|b| - 1], b[|b| - 1];
      var tail := FileRecords(last.book, BrandName(last.name), p);
      assert (a + b)[..|a + b| - 1] == a + b0 && (a + b)[|a + b| - 1] == last;
      assert AllRecords(a + b, p) == AllRecords(a + b0, p) + tail;
      AllRecordsAppend(a, b0, p);
      AppendAssoc(AllRecords(a, p), AllRecords(b0, p), tail);
    }
  }

  // Output order.

  /** The `sort_values(['Date', 'Brand'])` order: by date, then by brand. */
  predicate RecordLess(a: Record, b: Record)
  {
    a.date < b.date || (a.date == b.date && StrLess(a.brand, b.brand))
  }

  ghost predicate SortedRecords(rs: seq<Record>)
  {
    forall i, j :: 0 <= i < j < |rs| ==> !RecordLess(rs[j], rs[i])
  }

  lemma NotLessTransitive(a: Record, b: Record, c: Record)
    requires !RecordLess(b, a) && !RecordLess(c, b)
    ensures !RecordLess(c, a)
  {
    if a.date == b.date == c.date && StrLess(c.brand, a.brand) {
      StrLessTotal(a.brand, b.brand);
      if StrLess(a.brand, b.brand) {
        StrLessTransitive(c.brand, a.brand, b.brand);
      }
    }
  }

  lemma NotLessTotal(a: Record, b: Record)
    ensures !RecordLess(a, b) || !RecordLess(b, a)
  {
    if a.date == b.date && StrLess(a.brand, b.brand) && StrLess(b.brand, a.brand) {
      StrLessTransitive(a.brand, b.brand, a.brand);
      StrLessIrreflexive(a.brand);
    }
  }

  lemma SortedTail(rs: seq<Record>)
    requires SortedRecords(rs) && rs != []
    ensures SortedRecords(rs[1..])
  {
    forall i, j | 0 <= i < j < |rs[1..]| ensures !RecordLess(rs[1..][j], rs[1..][i]) {
      assert rs[1..][j] == rs[j + 1] && rs[1..][i] == rs[i + 1];
    }
  }

  /** Inserts one record into sorted rows, before the first one that sorts
      above it: after every row with the same (Date, Brand). */
  function InsertRecord(rs: seq<Record>, x: Record): (r: seq<Record>)
    requires SortedRecords(rs)
    ensures SortedRecords(r) && multiset(r) == multiset(rs) + multiset{x}
  {
    if rs == [] then [x]
    else if RecordLess(x, rs[0]) then
      NotLessTotal(x, rs[0]);
      InsertFront(rs, x);
      [x] + rs
    else
      SortedTail(rs);
      var rest := InsertRecord(rs[1..], x);
      InsertBehind(rs, x, rest);
      [rs[0]] + rest
  }

  lemma InsertFront(rs: seq<Record>, x: Record)
    requires SortedRecords(rs) && rs != [] && !RecordLess(rs[0], x)
    ensures SortedRecords([x] + rs)
  {
    forall j | 0 < j < |rs| ensures !RecordLess(rs[j], x) {
      NotLessTransitive(x, rs[0], rs[j]);
    }
    forall i, j | 0 <= i < j < |[x] + rs| ensures !RecordLess(([x] + rs)[j], ([x] + rs)[i]) {
      if i > 0 {
        assert ([x] + rs)[j] == rs[j - 1] && ([x] + rs)[i] == rs[i - 1];
      }
    }
  }

  lemma InsertBehind(rs: seq<Record>, x: Record, rest: seq<Record>)
    requires SortedRecords(rs) && rs != [] && !RecordLess(x, rs[0])
    requires SortedRecords(rest) && multiset(rest) == multiset(rs[1..]) + multiset{x}
    ensures SortedRecords([rs[0]] + rest) && multiset([rs[0]] + rest) == multiset(rs) + multiset{x}
  {
    assert rs == [rs[0]] + rs[1..];
    forall j | 0 <= j < |rest| ensures !RecordLess(rest[j], rs[0]) {
      var y := rest[j];
      assert y in multiset(rest);
      if y != x {
        assert y in multiset(rs[1..]);
        var k :| 0 <= k < |rs[1..]| && rs[1..][k] == y;
        assert rs[k + 1] == y;
      }
    }
    var r := [rs[0]] + rest;
    forall i, j | 0 <= i < j < |r| ensures !RecordLess(r[j], r[i]) {
      if i > 0 {
        assert r[j] == rest[j - 1] && r[i] == rest[i - 1];
      } else {
        assert r[j] == rest[j - 1];
      }
    }
  }

  /** The rows in output order: sorted by (Date, Brand) and a permutation of
      the extracted records. */
  function SortByDateBrand(rs: seq<Record>): (r: seq<Record>)
    ensures SortedRecords(r) && multiset(r) == multiset(rs)
  {
    if rs == [] then []
    else
      assert rs == rs[..|rs| - 1] + [rs[|rs| - 1]];
      InsertRecord(SortByDateBrand(rs[..|rs| - 1]), rs[|rs| - 1])
  }

  /** The records of `rs` with date `d` and brand `b`, in their order. */
  function WithKey(rs: seq<Record>, d: Date, b: string): seq<Record>
  {
    if rs == [] then []
    else (if rs[0].date == d && rs[0].brand == b then [rs[0]] else []) + WithKey(rs[1..], d, b)
  }

  lemma {:induction false} WithKeyAppend(xs: seq<Record>, ys: seq<Record>, d: Date, b: string)
    ensures WithKey(xs + ys, d, b) == WithKey(xs, d, b) + WithKey(ys, d, b)
  {
    if xs == [] {
      assert xs + ys == ys;
    } else {
      var head := if xs[0].date == d && xs[0].brand == b then [xs[0]] else [];
      assert (xs + ys)[0] == xs[0] && (xs + ys)[1..] == xs[1..] + ys;
      assert WithKey(xs + ys, d, b) == head + WithKey(xs[1..] + ys, d, b);
      WithKeyAppend(xs[1..], ys, d, b);
      AppendAssoc(head, WithKey(xs[1..], d, b), WithKey(ys, d, b));
    }
  }

  lemma WithKeyLast(rs: seq<Record>, d: Date, b: string)
    requires rs != []
    ensures var last := rs[|rs| - 1];
            WithKey(rs, d, b)
            == WithKey(rs[..|rs| - 1], d, b) + (if last.date == d && last.brand == b then [last] else [])
  {
    var front, last := rs[..|rs| - 1], rs[|rs| - 1];
    assert rs == front + [last];
    WithKeyAppend(front, [last], d, b);
    assert [last][1..] == [];
    assert WithKey([last], d, b) == (if last.date == d && last.brand == b then [last] else []) + WithKey([], d, b);
  }

  /** No row of sorted rows headed by a row above `x` has the key of `x`. */
  lemma {:induction false} NoKeyAbove(rs: seq<Record>, x: Record)
    requires SortedRecords(rs) && rs != [] && RecordLess(x, rs[0])
    ensures WithKey(rs, x.date, x.brand) == []
  {
    if 1 < |rs| {
      SortedTail(rs);
      assert !RecordLess(rs[1], rs[0]);
      LessBelow(x, rs[0], rs[1]);
      NoKeyAbove(rs[1..], x);
    }
    StrLessIrreflexive(x.brand);
    assert !(rs[0].date == x.date && rs[0].brand == x.brand);
    assert WithKey(rs, x.date, x.brand) == [] + WithKey(rs[1..], x.date, x.brand);
  }

  lemma LessBelow(a: Record, b: Record, c: Record)
    requires RecordLess(a, b) && !RecordLess(c, b)
    ensures RecordLess(a, c)
  {
    if !RecordLess(a, c) {
      NotLessTransitive(b, c, a);
    }
  }

  /** Inserting a record adds it after the rows sharing its key. */
  lemma {:induction false} InsertRecordKeeps(rs: seq<Record>, x: Record, d: Date, b: string)
    requires SortedRecords(rs)
    ensures WithKey(InsertRecord(rs, x), d, b)
            == WithKey(rs, d, b) + (if x.date == d && x.brand == b then [x] else [])
  {
    var own := if x.date == d && x.brand == b then [x] else [];
    if rs == [] {
      assert WithKey([x], d, b) == own + WithKey([], d, b);
    } else if RecordLess(x, rs[0]) {
      assert ([x] + rs)[1..] == rs;
      assert WithKey(InsertRecord(rs, x), d, b) == own + WithKey(rs, d, b);
      if x.date == d && x.brand == b {
        NoKeyAbove(rs, x);
      }
    } else {
      SortedTail(rs);
      var rest := InsertRecord(rs[1..], x);
      var head := if rs[0].date == d && rs[0].brand == b then [rs[0]] else [];
      assert InsertRecord(rs, x) == [rs[0]] + rest;
      assert ([rs[0]] + rest)[1..] == rest;
      assert WithKey(InsertRecord(rs, x), d, b) == head + WithKey(rest, d, b);
      assert WithKey(rs, d, b) == head + WithKey(rs[1..], d, b);
      InsertRecordKeeps(rs[1..], x, d, b);
      AppendAssoc(head, WithKey(rs[1..], d, b), own);
    }
  }

  /** The sort is stable: the rows sharing a (Date, Brand) key keep their
      input order, as pandas' sort on two keys does. */
  lemma {:induction false} SortIsStable(rs: seq<Record>, d: Date, b: string)
    ensures WithKey(SortByDateBrand(rs), d, b) == WithKey(rs, d, b)
  {
    if rs != [] {
      var front, last := rs[..|rs| - 1], rs[|rs| - 1];
      var own := if last.date == d && last.brand == b then [last] else [];
      var sorted := SortByDateBrand(front);
      assert SortByDateBrand(rs) == InsertRecord(sorted, last);
      SortIsStable(front, d, b);
      InsertRecordKeeps(sorted, last, d, b);
      WithKeyLast(rs, d, b);
    }
  }

  /** Two records with the same (Date, Brand) are written in input order. */
  lemma EqualKeysKeepOrder()
    ensures var a, b := Record(5, NoHandle, 1.0, "X"), Record(5, NoHandle, 2.0, "X");
            SortByDateBrand([a, b]) == [a, b]
  {
    var a, b := Record(5, NoHandle, 1.0, "X"), Record(5, NoHandle, 2.0, "X");
    StrLessIrreflexive("X");
    assert [a, b][..1] == [a] && [a][..0] == [];
    assert SortByDateBrand([a]) == [a];
  }

  /** The saved file read back as snapshot rows, with the Handle text read
      as a number by `number`. */
  function AsSnapshot(rs: seq<Record>, number: HandleText -> real): (rows: seq<Snapshot.Row>)
    ensures |rows| == |rs|
    ensures forall i :: 0 <= i < |rs| ==>
              rows[i] == Snapshot.Row(rs[i].date, rs[i].brand, number(rs[i].handle), rs[i].ggr)
  {
    seq(|rs|, i requires 0 <= i < |rs| => Snapshot.Row(rs[i].date, rs[i].brand, number(rs[i].handle), rs[i].ggr))
  }

  /** The saved rows are in date order, so the monitor's per-brand GGR and
      Handle come from a row of the brand's latest date. */
  lemma SavedRowsAreInDateOrder(rs: seq<Record>, number: HandleText -> real)
    requires SortedRecords(rs)
    ensures Snapshot.SortedByDate(AsSnapshot(rs, number))
  {
    var rows := AsSnapshot(rs, number);
    forall i, j | 0 <= i < j < |rows| ensures rows[i].date <= rows[j].date {
      assert !RecordLess(rs[j], rs[i]);
    }
  }

  // The extractor object.

  class Extractor {
    /** pandas' parsing of text cells. */
    const parsers: Parsers
    /** Every record extracted so far. */
    var allData: seq<Record>

    constructor (parsers: Parsers)
      ensures this.parsers == parsers && allData == []
    {
      this.parsers := parsers;
      allData := [];
    }

    /** The header scan: the first row whose first cell holds `Week-Ending`. */
    method FindHeaderRow(rows: SheetRows) returns (header: Option<nat>)
      ensures header == FirstHeader(rows)
    {
      header := None;
      var idx := 0;
      while idx < |rows|
        invariant 0 <= idx <= |rows|
        invariant forall k :: 0 <= k < idx ==> !IsHeaderRow(rows[k])
      {
        if IsHeaderRow(rows[idx]) {
          header := Some(idx);
          break;
        }
        idx := idx + 1;
      }
    }

    /** The records of one sheet: the header scan, then the non-empty rows
        below the header converted one by one. */
    method ExtractSheet(rows: SheetRows, brand: string) returns (sheetData: seq<Record>)
      ensures sheetData == SheetRecords(rows, brand, parsers)
    {
      sheetData := [];
      var header := FindHeaderRow(rows);
      if header.None? {
        return;
      }
      var data := DropBlankRows(rows[header.value + 1..]);
      var i := 0;
      while i < |data|
        invariant 0 <= i <= |data|
        invariant sheetData == RowsRecords(data[..i], brand, parsers)
      {
        assert data[..i + 1][..i] == data[..i];
        var rec := ConvertRow(data[i], brand, parsers);
        if rec.Some? {
          sheetData := sheetData + [rec.value];
        }
        i := i + 1;
      }
      assert data[..i] == data;
    }

    /** `extract_data_from_file`: the records of every sheet in turn; an
        unreadable workbook or sheet gives no records at all. */
    method ExtractDataFromFile(file: ReportFile) returns (fileData: seq<Record>)
      ensures fileData == FileRecords(file.book, BrandName(file.name), parsers)
    {
      var brand := BrandName(file.name);
      if file.book.Corrupt? {
        return [];
      }
      var sheets := file.book.sheets;
      fileData := [];
      var s := 0;
      while s < |sheets|
        invariant 0 <= s <= |sheets|
        invariant AllReadable(sheets[..s])
        invariant fileData == ReadableSheetsRecords(sheets[..s], brand, parsers)
      {
        assert sheets[..s + 1][..s] == sheets[..s];
        if sheets[s].Unreadable? {
          assert !AllReadable(sheets);
          return [];
        }
        var sheetData := ExtractSheet(sheets[s].rows, brand);
        fileData := fileData + sheetData;
        s := s + 1;
        assert AllReadable(sheets[..s]) by {
          forall k | 0 <= k < s ensures sheets[..s][k].Sheet? {
            if k < s - 1 {
              assert sheets[..s][k] == sheets[..s - 1][k];
            }
          }
        }
      }
      assert sheets[..s] == sheets;
    }

    /** `extract_all_data`: skips `~$` lock files and extends the collected
        records with each remaining file's records, in file order. */
    method ExtractAllData(files: seq<ReportFile>) returns (data: seq<Record>)
      modifies this
      ensures allData == old(allData) + AllRecords(KeptFiles(files), parsers)
      ensures data == allData
    {
      var excelFiles := KeptFiles(files);
      ghost var start := allData;
      var n := 0;
      while n < |excelFiles|
        invariant 0 <= n <= |excelFiles|
        invariant allData == start + AllRecords(excelFiles[..n], parsers)
      {
        var file := excelFiles[n];
        AllRecordsStep(excelFiles, n, parsers);
        var fileData := ExtractDataFromFile(file);
        AppendAssoc(start, AllRecords(excelFiles[..n], parsers), fileData);
        allData := allData + fileData;
        n := n + 1;
      }
      assert excelFiles[..n] == excelFiles;
      data := allData;
    }

    /** `save_to_csv`: nothing when no record was extracted, otherwise the
        rows that would be written, in (Date, Brand) order. */
    method SaveToCsv() returns (written: Option<seq<Record>>)
      ensures written.None? <==> allData == []
      ensures written.Some? ==> SortedRecords(written.value) && multiset(written.value) == multiset(allData)
      ensures written.Some? ==> forall d, b :: WithKey(written.value, d, b) == WithKey(allData, d, b)
    {
      if allData == [] {
        return None;
      }
      written := Some(SortByDateBrand(allData));
      forall d, b ensures WithKey(written.value, d, b) == WithKey(allData, d, b) {
        SortIsStable(allData, d, b);
      }
    }
  }
}
