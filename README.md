# NY sports-betting data monitor, modelled in Dafny

This project models two parts of the New York sports-betting data pipeline.

- **The extractor** (`NYGamingDataExtractorV2`). It turns an operator's weekly spreadsheets into `(Date, Handle, GGR, Brand)` records.
  - It finds the `Week-Ending` header row of each sheet.
  - It keeps the dated rows with a positive GGR.
  - It names the records after the operator.
  - It skips Excel lock files.
  - It accumulates records across files and writes them sorted by date and brand.
- **The monitor** (`NYGamingDataMonitor`). It compares the current snapshot of records with the previous one and produces a list of typed change events. It also builds the analysis workbook:
  - the Handle and GGR pivots with their Statewide column;
  - the Hold ratio sheet;
  - the year-over-year sheets, matched within ±7 days of 364 days earlier.

  It keeps a change log of at most 100 entries, and it chooses the section of the notification message.

Dates are day numbers. Amounts are `real`. Brands are strings.

Modules:

- `Basics`: shared values and helpers:
  - `Option`;
  - sums;
  - string order;
  - sorted insertion.
- `Snapshot`: a snapshot of rows, with:
  - its brand set;
  - its date range;
  - each brand's latest summary, with date by `max` and GGR and Handle by `last`.
- `Compare`: `compare_data`. Its events come from value-level summaries (`View`). The method that appends per-brand events visits the shared brands in an arbitrary order. A ghost `order` records that order, as Python's set iteration does.
- `Report`: the pivots, the Statewide column, Hold and `calculate_yoy`. Sheets are column-major tables.
- `History`: `save_changes_log`, as a `ChangeLog` class over a sequence of entries.
- `Email`: the section structure of `create_email_body`.
- `Extract`: `extract_to_csv_v2.py`.
  - Spreadsheet cells are `Blank | Text | Number | Stamp`.
  - pandas' string parsing is an abstract `Parsers` value.
  - The `Extractor` class holds `allData`.

## Model

| member | source | states |
|---|---|---|
| Snapshot.InBrands | compare_data.py:111-112 | A brand is in a snapshot's brand set iff some row carries it. |
| Snapshot.MinDate | compare_data.py:86-87 | The earliest date of a non-empty snapshot is the date of some row and no row is earlier. |
| Snapshot.MaxDate | compare_data.py:86-87 | The latest date of a non-empty snapshot is the date of some row and no row is later. |
| Snapshot.DateRange | compare_data.py:86-87 | The `(min, max)` date pair of a snapshot, with no value for an empty snapshot. |
| Snapshot.LatestDate | compare_data.py:98-102 | A brand's `max` date is that of one of its rows and bounds all of them. |
| Snapshot.LastIndex | compare_data.py:98-102 | The `last` aggregation reads the brand's last row in input order; no later row has the brand. |
| Snapshot.Latest | compare_data.py:98-108 | A brand's summary: the `max` date over its rows, and the GGR and Handle of its last row in input order. |
| Snapshot.LatestOfSortedRows | compare_data.py:98-108 | On date-ordered rows the brand's last row carries its latest date, so GGR and Handle match the date. |
| Snapshot.LatestMixesRows | compare_data.py:98-108 | Witness that in file order the summary can combine the latest date with another row's GGR and Handle. |
| Compare.Summaries | compare_data.py:98-108 | The per-brand table has exactly the snapshot's brands as keys, each mapped to its latest summary. |
| Compare.HeaderEvents | compare_data.py:72-129 | The whole-snapshot events in append order: record count if the counts differ, date range if the pairs differ, new brands if some brand is only current, removed brands if some brand is only previous. |
| Compare.BrandEvents | compare_data.py:136-160 | One shared brand's turn: new weekly data if its latest date moved, then a significant GGR change if the previous GGR is positive and the percent change exceeds 20 in size. |
| Compare.Changes | compare_data.py:72-160 | All events: the whole-snapshot events followed by the per-brand turns in the given brand order. |
| Compare.CompareData | compare_data.py:60-168 | Without a previous snapshot: new data, no events, row count, date range and brand count of the current one. Otherwise the events are the header events, then one turn per shared brand in the iteration order. |
| Compare.DetectChanges | compare_data.py:72-160 | The appended events are exactly `Changes` of the two summaries for an order that enumerates the shared brands. |
| Compare.AppendBrandTurns | compare_data.py:132-160 | The loop over the shared brands visits each exactly once and appends exactly each visited brand's turn. |
| Compare.PerBrandEvents | compare_data.py:132-160 | Per-brand turns yield only new-weekly-data and significant-GGR events, about visited brands. |
| Compare.BrandTurn | compare_data.py:138-160 | One loop turn appends exactly the brand's events: new weekly data when the date moved, then a significant change when the previous GGR is positive and the move exceeds 20 percent. |
| Compare.PerBrandStep | compare_data.py:132-160 | Visiting one more shared brand appends that brand's events. |
| Compare.HeaderMember | compare_data.py:72-129 | An event belongs to the whole-snapshot part exactly when its kind's condition holds (counts differ, ranges differ, brands added, brands removed), and it carries the compared values. |
| Compare.HeaderRanks | compare_data.py:72-129 | The whole-snapshot events come in strictly increasing kind order and precede every per-brand kind. |
| Compare.EventOrder | compare_data.py:72-160 | Events are ordered: record count, date range, new brands, removed brands, then per-brand. Each of the first four kinds occurs at most once. Per-brand events concern brands in both snapshots. |
| Compare.RecordCountEvent | compare_data.py:75-83 | A record-count event exists iff the row counts differ. It carries both counts and is then first. |
| Compare.DateRangeEvent | compare_data.py:86-95 | A date-range event exists iff the (min, max) pairs differ. It carries both pairs and follows only a record-count event. |
| Compare.AddedBrandsEvent | compare_data.py:111-122 | A new-brands event exists iff some brand is present only in the current snapshot. The event is unique and carries all such brands. |
| Compare.RemovedBrandsEvent | compare_data.py:111-129 | A removed-brands event exists iff some brand is present only in the previous snapshot. The event is unique and carries all such brands. |
| Compare.EventsAboutMembers | compare_data.py:132-160 | The events about a brand are exactly the listed events that name it. |
| Compare.EventsAboutAppend | compare_data.py:132-160 | Selecting one brand's events distributes over concatenation. |
| Compare.EventsAboutNone | compare_data.py:132-160 | A list with no event about a brand selects to nothing. |
| Compare.TurnAbout | compare_data.py:132-160 | A brand's turn is about that brand only. |
| Compare.PerBrandEventsAbout | compare_data.py:132-160 | With each brand visited once, one brand's events among all turns are exactly its own turn. |
| Compare.LastTurnAbout | compare_data.py:132-160 | After the last brand's turn, the events about a brand are its own turn if it was the last one visited or was visited before, and nothing otherwise. |
| Compare.HeaderNotAbout | compare_data.py:72-129 | No whole-snapshot event names a single brand. |
| Compare.EventsOfBrand | compare_data.py:132-160 | The events about a brand are its turn when it is in both snapshots, and there are none otherwise. |
| Compare.NewWeeklyDataEvent | compare_data.py:138-145 | A brand's turn reports new weekly data iff its latest date moved. The event carries both dates. |
| Compare.SignificantGgrEvent | compare_data.py:147-160 | A brand's turn reports a significant GGR change iff the previous GGR is positive and the move exceeds 20 percent. The event carries the percentage and both amounts, and it ends the turn. |
| Compare.IsSignificant | compare_data.py:150-152 | A significant change needs a positive previous GGR and a different current GGR. Doubling or halving a positive GGR is always significant. |
| Compare.SignificantMeansMoreThanAFifth | compare_data.py:151-153 | The threshold equals: previous GGR positive and the difference strictly larger than a fifth of it. No division by zero occurs. |
| Compare.ThresholdIsStrict | compare_data.py:151-153 | Exactly +20 % does not fire. 20.01 % does. A zero or negative previous GGR never does. |
| Compare.SelfComparisonIsQuiet | compare_data.py:72-160 | Comparing a snapshot with itself yields no event, whatever the iteration order. |
| Report.ReportDates | compare_data.py:256-263 | The row headings are exactly the snapshot's dates, strictly descending. |
| Report.ReportBrands | compare_data.py:262-275 | The brand columns are exactly the snapshot's brands, strictly ascending. |
| Report.CellSum | compare_data.py:269-275 | A pivot cell: the metric summed over the rows of that date and brand, 0 when there are none (`fill_value=0`). |
| Report.RowCells | compare_data.py:269-276 | A pivot row's brand cells are the per-(date, brand) sums, in column order. |
| Report.Pivot | compare_data.py:269-290 | The pivot is shaped by the report dates and the brands plus Statewide. Each brand cell is the sum of that brand's amounts on that date, 0 where there is none. Statewide is the row sum. |
| Report.CellSumStep | compare_data.py:269-275 | One more row adds its amount to the cell of its own date and brand only. |
| Report.DateTotalStep | compare_data.py:269-277 | One more row adds its amount to its own date's total only. |
| Report.CellSumWithoutRows | compare_data.py:274 | A (date, brand) cell without rows is 0 (`fill_value=0`). |
| Report.RowCellsWithoutRows | compare_data.py:274-277 | Without rows, a pivot row sums to 0. |
| Report.RowCellsStep | compare_data.py:277 | With distinct brand columns, one more row raises the row sum of its date by its amount, when its brand is a column. |
| Report.BrandPartition | compare_data.py:277 | With distinct brand columns covering all rows, the row sum of a date is the date's total over all rows. |
| Report.StatewideIsDateTotal | compare_data.py:277 | Every Statewide cell is the total of its date over all rows: no row is lost or counted twice. |
| Report.DateTotals | compare_data.py:276-277 | The Statewide cells, date by date. |
| Report.DateTotalsWithoutRows | compare_data.py:276-277 | Without rows every Statewide cell is 0. |
| Report.DateTotalsStep | compare_data.py:276-277 | With distinct dates, one more row raises the Statewide total by its amount when its date is listed. |
| Report.DatePartition | compare_data.py:276-277 | With distinct dates covering all rows, the date totals add up to the grand total. |
| Report.StatewideColumnTotal | compare_data.py:269-290 | The Statewide column adds up to the metric's total over the snapshot. |
| Report.Ratio | compare_data.py:293-294 | A Hold cell is blank iff the Handle is 0, and otherwise multiplies back to the GGR. |
| Report.Hold | compare_data.py:292-294 | The Hold sheet has the shape of the pivots; each cell is the GGR cell over the Handle cell, blank where the Handle is 0. |
| Report.HoldOfSnapshot | compare_data.py:269-294 | On a snapshot's pivots, a Hold cell is blank exactly where the Handle sum is 0. |
| Report.ClosestPrior | compare_data.py:344-351 | None iff no grid date is within 7 days of the target. Otherwise the chosen row is in the window, no candidate is closer, and no earlier row in grid order is as close. |
| Report.YoYValue | compare_data.py:344-356 | One YoY cell: blank without a grid date within 7 days of 364 days earlier, or when the closest such date has value 0; otherwise current over prior, minus 1. |
| Report.SeriesYoY | compare_data.py:341-356 | The loop over the grid's dates appends exactly the year-over-year value of each row. |
| Report.CalculateYoY | compare_data.py:337-362 | Every column, Statewide included, is replaced by its own year-over-year series. The shape is kept. |
| Report.YoYBlankWithoutCandidate | compare_data.py:347-349 | Without a grid date within 7 days of 364 days earlier, the cell is blank. |
| Report.YoYExactYear | compare_data.py:344-356 | When the grid holds the date exactly 364 days earlier, that row is chosen. The cell is current/prior − 1, or blank for a zero prior. |
| Report.TieBreakPrefersLaterDate | compare_data.py:351 | On a most-recent-first grid, a tie in distance goes to the later date. |
| Report.TieExample | compare_data.py:351 | Witness: targets 3 days after one candidate and 3 days before another; the later date is chosen. |
| History.Trimmed | compare_data.py:382-383 | The `[-100:]` cut keeps the newest min(n, 100) entries, in order. |
| History.ChangeLog.Save | compare_data.py:366-383 | The new state is the old log plus the new entry, trimmed. At most 100 entries remain, with the new one last. |
| History.SaveKeepsNewest | compare_data.py:379-383 | After a save the new entry is last, at most 100 remain, and kept entries shift by one common offset. |
| History.SurvivesSave | compare_data.py:379-383 | An entry survives a save iff fewer than 100 entries (the new one included) are newer than it, and it then keeps its relative place. |
| History.TrimEachSave | compare_data.py:379-383 | Trimming at every save keeps what one trim of the whole history would keep. |
| Email.SpacedAt | compare_data.py:244 | `replace('_', ' ')` position by position: an underscore becomes a space, any other character is kept. |
| Email.TitleAt | compare_data.py:244 | `title()` on ASCII position by position: a letter after a letter is lowered, any other letter raised, non-letters kept. |
| Email.Heading | compare_data.py:244 | An item's heading: the event's type name with underscores turned into spaces, in title case. |
| Email.SectionOf | compare_data.py:239-247 | Exactly one section: new data iff the result is new; changes iff not new and the list is non-empty; the no-changes note otherwise. |
| Email.ChangesSectionLists | compare_data.py:241-245 | The changes section has one item per event, in order, each under its event's heading. |
| Email.ListItems | compare_data.py:243-244 | The item loop yields each change's item, in order. |
| Email.CreateEmailBody | compare_data.py:225-250 | The summary fields come from the result. The item loop builds exactly the section `SectionOf` chooses. |
| Email.FirstRunAnnouncesNewData | compare_data.py:62-70 | A first-run result yields the new-data section. |
| Email.UnchangedDataIsQuiet | compare_data.py:239-247 | Rerunning on an unchanged snapshot yields the no-changes note. |
| Extract.LastDot | extract_to_csv_v2.py:57 | The last dot of a name, or −1 when there is none. |
| Extract.Stem | extract_to_csv_v2.py:57 | `Path.stem`: the name without its last suffix, a suffix being a final dot neither first nor last in the name. |
| Extract.BrandName | extract_to_csv_v2.py:57 | The display name from the fixed mapping of the nine report file names, the stem for any other file. |
| Extract.XlsxStem | extract_to_csv_v2.py:57 | The stem of `<base>.xlsx` is `<base>`. |
| Extract.BrandNaming | extract_to_csv_v2.py:43-57 | A file named in the brand table takes its display name. Any other `<base>.xlsx` takes `<base>`. |
| Extract.IsHeaderRow | extract_to_csv_v2.py:73 | A header row has a text first cell containing `Week-Ending`. |
| Extract.FirstHeader | extract_to_csv_v2.py:71-79 | The header is the first row whose first cell is text containing `Week-Ending`. It is None iff no row qualifies. |
| Extract.Extractor.FindHeaderRow | extract_to_csv_v2.py:71-75 | The scan loop with `break` finds exactly `FirstHeader`. |
| Extract.DropBlankRows | extract_to_csv_v2.py:85 | `dropna(how='all')` keeps exactly the rows with a non-empty cell. |
| Extract.Trunc | extract_to_csv_v2.py:111 | `int()` truncates toward zero: the largest integer not above a non-negative value, the smallest not below a negative one. |
| Extract.TruncTowardZero | extract_to_csv_v2.py:111 | Examples: 2.5 gives 2, 0.5 and -0.5 give 0, -2.5 gives -2, whole numbers are kept. |
| Extract.DateOf | extract_to_csv_v2.py:99-100 | A date cell gives a date iff it is a timestamp, which is kept, or text that parses as a date. |
| Extract.NumberOf | extract_to_csv_v2.py:103 | A cell gives a number iff it is a number, which is kept, or text that parses as a number. |
| Extract.HandleOf | extract_to_csv_v2.py:106-113 | The Handle text is empty iff the cell is empty. It is a whole number iff the cell converts to a number, and then it is that number truncated toward zero. Otherwise it is the cell's own text. |
| Extract.ConvertRow | extract_to_csv_v2.py:91-125 | A row yields a record iff date and GGR cells are present, the date converts, GGR converts and GGR > 0. The record carries that date, GGR, Handle text and brand. Every other row is skipped. |
| Extract.RowsRecords | extract_to_csv_v2.py:91-125 | Every record of a sheet has a positive GGR and the file's brand. There is at most one per row. |
| Extract.RowsRecordsAppend | extract_to_csv_v2.py:91-122 | Records of consecutive row blocks concatenate. |
| Extract.BlankRowsYieldNothing | extract_to_csv_v2.py:85-97 | Dropping empty rows changes no record. |
| Extract.RecordsFollowHeader | extract_to_csv_v2.py:71-85 | A sheet without a header yields nothing. Otherwise its records are those of all rows after the first header row. |
| Extract.SheetRecords | extract_to_csv_v2.py:68-125 | A sheet's records: nothing without a header row, otherwise the converted non-blank rows after the first header. |
| Extract.Extractor.ExtractSheet | extract_to_csv_v2.py:71-125 | The header scan and the row loop of one sheet append exactly `SheetRecords`. |
| Extract.FileRecords | extract_to_csv_v2.py:55-133 | A file's records: its sheets' records in sheet order, or nothing when the workbook or any sheet cannot be read. |
| Extract.Extractor.ExtractDataFromFile | extract_to_csv_v2.py:55-133 | A file's records are its sheets' records in order. An error opening the workbook or reading any sheet yields none. |
| Extract.KeptFiles | extract_to_csv_v2.py:141 | Exactly the files not named `~$…` are kept, in order. |
| Extract.KeptFilesAppend | extract_to_csv_v2.py:141 | Filtering a concatenation is concatenating the filtered parts, so the kept files keep their order. |
| Extract.NoLockFilesKeepsAll | extract_to_csv_v2.py:141 | With no `~$…` file, every file is kept, in the same order. |
| Extract.AllRecords | extract_to_csv_v2.py:144-146 | The records of a file list, file after file, each file named by its brand name. |
| Extract.AllRecordsAppend | extract_to_csv_v2.py:144-146 | Extracting files in two parts concatenates the two parts' records. |
| Extract.AllRecordsFacts | extract_to_csv_v2.py:144-146 | Every accumulated record has a positive GGR and the brand name of one of the files. |
| Extract.ExtractedRecords | extract_to_csv_v2.py:139-146 | Every extracted record has a positive GGR and the brand name of a kept, non-`~$` file. |
| Extract.Extractor.ExtractAllData | extract_to_csv_v2.py:135-150 | `allData` grows by the records of the kept files, file after file. The old records stay in front, and the result is the new `allData`. |
| Extract.NotLessTransitive | extract_to_csv_v2.py:160 | The (Date, Brand) order is transitive. |
| Extract.NotLessTotal | extract_to_csv_v2.py:160 | The (Date, Brand) order is total. |
| Extract.InsertRecord | extract_to_csv_v2.py:160 | Inserting into sorted rows keeps them sorted and adds exactly the record. The record goes after every row with the same (Date, Brand). |
| Extract.WithKey | extract_to_csv_v2.py:160 | The rows with a given (Date, Brand), in their order. Each one has that date and brand. |
| Extract.InsertRecordKeeps | extract_to_csv_v2.py:160 | After an insertion, the rows with any one (Date, Brand) are those of before plus the new record if it has that key, at the end. |
| Extract.SortByDateBrand | extract_to_csv_v2.py:158-160 | The output rows are sorted by (Date, Brand) and are a permutation of the records. |
| Extract.SortIsStable | extract_to_csv_v2.py:160 | The sort is stable: the rows with any one (Date, Brand) keep their input order. |
| Extract.EqualKeysKeepOrder | extract_to_csv_v2.py:160 | Two rows with the same date and brand come out in the order they went in. |
| Extract.Extractor.SaveToCsv | extract_to_csv_v2.py:152-160 | Nothing is written iff no record was extracted. Otherwise the written rows are the records, sorted by (Date, Brand), with rows of equal (Date, Brand) in extraction order. |
| Extract.AsSnapshot | extract_to_csv_v2.py:158-163 | Reading the saved rows back gives one snapshot row per record, with the same date, brand and GGR. |
| Extract.SavedRowsAreInDateOrder | extract_to_csv_v2.py:160 | The saved rows are in date order. The monitor's per-brand summary therefore reads GGR and Handle from a row of the brand's latest date. |

## Left out

- File and network I/O is not modelled:
  - reading the CSV snapshots and the JSON log;
  - writing the CSV, the workbook and the log;
  - copying the baseline;
  - the directory glob;
  - opening workbooks.

  Instead, snapshots, workbooks, the list of globbed files and the existing log arrive as values. `SaveToCsv` returns the rows it would write, not a path.
- `download_reports.py` is not part of this model. It does asynchronous HTTP downloads.
- `send_notification` is not part of this model. It covers SMTP, MIME and attachments.
- Excel output formatting is not part of this model: number formats, percentage cells and column widths.
- Timestamps come from the clock. They are passed in as opaque strings.
- Logging is not modelled.
- Event description texts and number and date formatting (`:,.0f`, `str(Timestamp)`) are not modelled. Events carry their values instead.
- The message's HTML markup and fixed texts are not modelled. The model keeps the chosen section and its (heading, event) items.
- The per-event fields `new_date` and `previous_date` are carried as day numbers, not as text.
- Floating-point behaviour is not modelled: NaN, infinities and rounding.
  - Amounts are exact reals.
  - A NaN GGR or Handle in a snapshot cannot be expressed. pandas' `last` would skip it.
  - In the extractor, text that parses to NaN or infinity for the Handle (`str(handle_val)` fallback after `int()` raises) falls under the parser abstraction.
- Email.Heading: `title()` is modelled for ASCII letters only. Per-event heading strings are not evaluated.
- pandas' `to_datetime` and `float` on text are not reproduced. They are the abstract `Parsers` functions.
- Extract.IsHeaderRow: a number or timestamp in the first cell is never a header. Their text form cannot contain `Week-Ending`, so only text cells are examined.
- A sheet with zero columns, where `row.iloc[0]` would raise, is treated as having empty cells.
- Compare.CompareData: the brand-iteration order of Python's set is arbitrary. The contract holds for the order it exposes as a ghost value, and it does not fix one.
- Compare.DetectChanges and Compare.AppendBrandTurns: for the same reason, their events are stated against the brand order they expose as a ghost value.

## Modelling notes

- **Latest value per brand.** The per-brand summary aggregates `Date` by `max` but `GGR` and `Handle` by `last` in input order (compare_data.py:98-108). These reductions are independent, so the summary can pair one row's date with another row's amounts (`Snapshot.LatestMixesRows`). On date-ordered input they agree (`Snapshot.LatestOfSortedRows`), and the extractor writes its rows in date order (`Extract.SavedRowsAreInDateOrder`).
- **Year-over-year ties.** `min(window, key=...)` keeps the first date at the smallest distance, in the grid's most-recent-first order (compare_data.py:351). Two candidates at equal distance therefore resolve to the later date (`Report.TieBreakPrefersLaterDate`, `Report.TieExample`).
- **Empty current snapshot.** Comparing an empty current snapshot raises nothing: the record count is 0 and the date range has no value (`Snapshot.DateRange` is `None`).
- **No row validation in the monitor.** The monitor checks no snapshot row. Rows without a date or a positive GGR never reach a snapshot, because the extractor drops them (`Extract.ConvertRow`).
