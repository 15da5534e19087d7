/** Change detection: `NYGamingDataMonitor.compare_data` diffs the current
    snapshot against the previous one and lists typed change events. */
module Compare {
  import opened Basics
  import opened Snapshot

  /** The six kinds of change event. Their human-readable descriptions are
      text formatting of these fields and are not modelled. */
  datatype ChangeEvent =
    | RecordCount(previous: nat, current: nat)
    | DateRangeChanged(previousRange: Option<(Date, Date)>, currentRange: Option<(Date, Date)>)
    | NewBrands(added: set<string>)
    | RemovedBrands(removed: set<string>)
    | NewWeeklyData(brand: string, newDate: Date, previousDate: Date)
    | SignificantGgrChange(brand: string, changePercent: real, previousGgr: real, currentGgr: real)

  /** The event's `'type'` string. */
  function TypeName(e: ChangeEvent): string
  {
    match e
    case RecordCount(_, _) => "record_count"
    case DateRangeChanged(_, _) => "date_range"
    case NewBrands(_) => "new_brands"
    case RemovedBrands(_) => "removed_brands"
    case NewWeeklyData(_, _, _) => "new_weekly_data"
    case SignificantGgrChange(_, _, _, _) => "significant_ggr_change"
  }

  datatype ComparisonResult = ComparisonResult(
    isNewData: bool,
    totalRecords: nat,
    dateRange: Option<(Date, Date)>,
    brands: nat,
    changes: seq<ChangeEvent>)

  /** What the comparison reads off one snapshot: its row count, its date
      range and the per-brand summary table, whose keys are its brands. */
  datatype View = View(records: nat, range: Option<(Date, Date)>, latest: map<string, BrandSummary>)

  /** `groupby('Brand').agg({'Date': 'max', 'GGR': 'last', 'Handle': 'last'})`. */
  function Summaries(rows: seq<Row>): (m: map<string, BrandSummary>)
    ensures m.Keys == Brands(rows)
    ensures forall b :: b in m ==> m[b] == Latest(rows, b)
  {
    map b | b in Brands(rows) :: Latest(rows, b)
  }

  function ViewOf(rows: seq<Row>): View
  {
    View(|rows|, DateRange(rows), Summaries(rows))
  }

  /** A GGR move counts as significant beyond 20 percent, either way. */
  const ThresholdPercent: real := 20.0

  function PercentChange(previous: real, current: real): real
    requires previous != 0.0
  {
    (current - previous) / previous * 100.0
  }

  /** The GGR test of one brand; a non-positive previous GGR is never tested. */
  predicate IsSignificant(previous: real, current: real): (r: bool)
    ensures r ==> previous > 0.0 && current != previous
    ensures previous > 0.0 && (current >= previous * 2.0 || current <= previous / 2.0) ==> r
  {
    previous > 0.0 && Abs(PercentChange(previous, current)) > ThresholdPercent
  }

  /** The events about the snapshots as a whole, in the order they are
      appended: record count, date range, new brands, removed brands. */
  function HeaderEvents(cur: View, prev: View): seq<ChangeEvent>
  {
    var added := cur.latest.Keys - prev.latest.Keys;
    var removed := prev.latest.Keys - cur.latest.Keys;
    (if cur.records != prev.records then [RecordCount(prev.records, cur.records)] else [])
    + (if cur.range != prev.range then [DateRangeChanged(prev.range, cur.range)] else [])
    + (if added != {} then [NewBrands(added)] else [])
    + (if removed != {} then [RemovedBrands(removed)] else [])
  }

  /** The events about one brand present in both snapshots, from the brand's
      current summary `c` and previous summary `p`. */
  function BrandEvents(b: string, c: BrandSummary, p: BrandSummary): seq<ChangeEvent>
  {
    (if c.date != p.date then [NewWeeklyData(b, c.date, p.date)] else [])
    + (if IsSignificant(p.ggr, c.ggr)
       then [SignificantGgrChange(b, PercentChange(p.ggr, c.ggr), p.ggr, c.ggr)] else [])
  }

  ghost predicate Shared(order: seq<string>, cur: View, prev: View)
  {
    forall b :: b in order ==> b in cur.latest && b in prev.latest
  }

  /** The per-brand events, brand by brand in the given iteration order. */
  function PerBrandEvents(cur: View, prev: View, order: seq<string>): (r: seq<ChangeEvent>)
    requires Shared(order, cur, prev)
    ensures forall e :: e in r ==> (e.NewWeeklyData? || e.SignificantGgrChange?) && e.brand in order
  {
    if order == [] then []
    else
      var front := PerBrandEvents(cur, prev, order[..|order| - 1]);
      var b := order[|order| - 1];
      assert forall e :: e in front ==> e.brand in order;
      front + BrandEvents(b, cur.latest[b], prev.latest[b])
  }

  /** `order` lists every element of `s` exactly once (Python's iteration
      order over a set is not specified, so every such order is allowed). */
  ghost predicate Enumerates(order: seq<string>, s: set<string>)
  {
    && Distinct(order)
    && (forall b :: b in order <==> b in s)
  }

  function Changes(cur: View, prev: View, order: seq<string>): seq<ChangeEvent>
    requires Shared(order, cur, prev)
  {
    HeaderEvents(cur, prev) + PerBrandEvents(cur, prev, order)
  }

  /** Compares two snapshots. Without a previous snapshot the data is new and
      no events are produced; otherwise each snapshot is summarised (row
      count, date range, per-brand table) and the events are those of
      `DetectChanges` on the two summaries. */
  method CompareData(current: seq<Row>, previous: Option<seq<Row>>)
    returns (r: ComparisonResult, ghost order: seq<string>)
    ensures r.totalRecords == |current| && r.dateRange == DateRange(current)
    ensures r.brands == |Brands(current)|
    ensures previous.None? ==> r.isNewData && r.changes == []
    ensures previous.Some? ==>
              && !r.isNewData
              && Enumerates(order, Brands(current) * Brands(previous.value))
              && Shared(order, ViewOf(current), ViewOf(previous.value))
              && r.changes == Changes(ViewOf(current), ViewOf(previous.value), order)
  {
    var cv := View(|current|, DateRange(current), Summaries(current));
    if previous.None? {
      return ComparisonResult(true, cv.records, cv.range, |cv.latest.Keys|, []), [];
    }
    var pv := View(|previous.value|, DateRange(previous.value), Summaries(previous.value));
    var changes;
    changes, order := DetectChanges(cv, pv);
    r := ComparisonResult(false, cv.records, cv.range, |cv.latest.Keys|, changes);
  }

  /** The event-collecting part of the comparison: whole-snapshot checks in
      their fixed order, then one turn per brand present in both snapshots,
      visiting them in whatever order the set iteration yields. */
  method DetectChanges(cur: View, prev: View) returns (changes: seq<ChangeEvent>, ghost order: seq<string>)
    ensures Enumerates(order, cur.latest.Keys * prev.latest.Keys)
    ensures Shared(order, cur, prev)
    ensures changes == Changes(cur, prev, order)
  {
    changes := [];
    if cur.records != prev.records {
      changes := changes + [RecordCount(prev.records, cur.records)];
    }
    if cur.range != prev.range {
      changes := changes + [DateRangeChanged(prev.range, cur.range)];
    }
    var currentBrands, previousBrands := cur.latest.Keys, prev.latest.Keys;
    var newBrands := currentBrands - previousBrands;
    var removedBrands := previousBrands - currentBrands;
    if newBrands != {} {
      changes := changes + [NewBrands(newBrands)];
    }
    if removedBrands != {} {
      changes := changes + [RemovedBrands(removedBrands)];
    }
    assert changes == HeaderEvents(cur, prev);
    changes, order := AppendBrandTurns(cur, prev, changes);
  }

  /** The loop over the brands present in both snapshots: each turn appends
      the brand's new-weekly-data event, then its significant-GGR event. */
  method AppendBrandTurns(cur: View, prev: View, header: seq<ChangeEvent>)
    returns (changes: seq<ChangeEvent>, ghost order: seq<string>)
    ensures Enumerates(order, cur.latest.Keys * prev.latest.Keys)
    ensures Shared(order, cur, prev)
    ensures changes == header + PerBrandEvents(cur, prev, order)
  {
    changes := header;
    assert changes == header + PerBrandEvents(cur, prev, []);
    var shared := cur.latest.Keys * prev.latest.Keys;
    var remaining := shared;
    order := [];
    while remaining != {}
      invariant remaining <= shared
      invariant forall b :: b in order <==> b in shared && b !in remaining
      invariant Distinct(order)
      invariant Shared(order, cur, prev)
      invariant changes == header + PerBrandEvents(cur, prev, order)
      decreases remaining
    {
      var b :| b in remaining;
      var c := cur.latest[b];
      var p := prev.latest[b];
      changes := BrandTurn(b, c, p, changes);
      PerBrandStep(cur, prev, order, b);
      AppendAssoc(header, PerBrandEvents(cur, prev, order), BrandEvents(b, c, p));
      DistinctAppend(order, b);
      remaining := remaining - {b};
      order := order + [b];
    }
  }

  /** One turn of the loop over shared brands: the new-weekly-data check,
      then the GGR check, each appending its event. */
  method BrandTurn(b: string, c: BrandSummary, p: BrandSummary, changes: seq<ChangeEvent>)
    returns (after: seq<ChangeEvent>)
    ensures after == changes + BrandEvents(b, c, p)
  {
    after := changes;
    if c.date != p.date {
      after := after + [NewWeeklyData(b, c.date, p.date)];
    }
    if p.ggr > 0.0 {
      var pct := PercentChange(p.ggr, c.ggr);
      if Abs(pct) > ThresholdPercent {
        after := after + [SignificantGgrChange(b, pct, p.ggr, c.ggr)];
      }
    }
  }

  /** One more brand turn appends that brand's events. */
  lemma PerBrandStep(cur: View, prev: View, order: seq<string>, b: string)
    requires Shared(order, cur, prev) && b in cur.latest && b in prev.latest
    ensures Shared(order + [b], cur, prev)
    ensures PerBrandEvents(cur, prev, order + [b])
            == PerBrandEvents(cur, prev, order) + BrandEvents(b, cur.latest[b], prev.latest[b])
  {
    assert (order + [b])[..|order|] == order;
  }

  /** Position of an event kind in the emission order; all per-brand events
      share the last position. */
  function Rank(e: ChangeEvent): nat
  {
    match e
    case RecordCount(_, _) => 0
    case DateRangeChanged(_, _) => 1
    case NewBrands(_) => 2
    case RemovedBrands(_) => 3
    case _ => 4
  }

  /** The whole-snapshot events, one by one: each kind is present exactly
      when its condition holds, and carries the values compared. */
  lemma HeaderMember(cur: View, prev: View, e: ChangeEvent)
    ensures var added, removed := cur.latest.Keys - prev.latest.Keys, prev.latest.Keys - cur.latest.Keys;
            e in HeaderEvents(cur, prev) <==>
              || (cur.records != prev.records && e == RecordCount(prev.records, cur.records))
              || (cur.range != prev.range && e == DateRangeChanged(prev.range, cur.range))
              || (added != {} && e == NewBrands(added))
              || (removed != {} && e == RemovedBrands(removed))
  {
  }

  /** Every event is a whole-snapshot event or a per-brand event of rank 4. */
  lemma ChangeMember(cur: View, prev: View, order: seq<string>, e: ChangeEvent)
    requires Shared(order, cur, prev)
    ensures e in Changes(cur, prev, order) <==>
              e in HeaderEvents(cur, prev) || e in PerBrandEvents(cur, prev, order)
    ensures e in PerBrandEvents(cur, prev, order) ==> Rank(e) == 4
  {
  }

  /** The whole-snapshot events have strictly increasing ranks below 4. */
  lemma HeaderRanks(cur: View, prev: View)
    ensures var h := HeaderEvents(cur, prev);
            forall i, j :: 0 <= i < j < |h| ==> Rank(h[i]) < Rank(h[j])
    ensures var h := HeaderEvents(cur, prev);
            forall i :: 0 <= i < |h| ==> Rank(h[i]) < 4
  {
    var h := HeaderEvents(cur, prev);
    forall i | 0 <= i < |h| ensures Rank(h[i]) < 4 {
      HeaderMember(cur, prev, h[i]);
    }
  }

  /** Events come in the fixed order record count, date range, new brands,
      removed brands, then per-brand events; each of the first four kinds
      occurs at most once, and per-brand events concern shared brands only. */
  lemma EventOrder(cur: View, prev: View, order: seq<string>)
    requires Shared(order, cur, prev)
    ensures var ch := Changes(cur, prev, order);
            forall i, j :: 0 <= i < j < |ch| ==>
              Rank(ch[i]) <= Rank(ch[j]) && (Rank(ch[i]) < 4 ==> Rank(ch[i]) < Rank(ch[j]))
    ensures forall e :: e in Changes(cur, prev, order) && Rank(e) == 4 ==>
              e.brand in cur.latest && e.brand in prev.latest
  {
    var h := HeaderEvents(cur, prev);
    var p := PerBrandEvents(cur, prev, order);
    var ch := Changes(cur, prev, order);
    HeaderRanks(cur, prev);
    forall i | 0 <= i < |p| ensures Rank(p[i]) == 4 {
      assert p[i] in p;
    }
    forall i, j | 0 <= i < j < |ch|
      ensures Rank(ch[i]) <= Rank(ch[j]) && (Rank(ch[i]) < 4 ==> Rank(ch[i]) < Rank(ch[j]))
    {
      if j < |h| {
        assert ch[i] == h[i] && ch[j] == h[j];
      } else if i < |h| {
        assert ch[i] == h[i] && ch[j] == p[j - |h|];
      } else {
        assert ch[i] == p[i - |h|] && ch[j] == p[j - |h|];
      }
    }
  }

  /** A record-count event is present iff the row counts differ; it is then
      the first event and carries both counts. */
  lemma RecordCountEvent(cur: View, prev: View, order: seq<string>)
    requires Shared(order, cur, prev)
    ensures var ch := Changes(cur, prev, order);
            && ((exists e :: e in ch && e.RecordCount?) <==> cur.records != prev.records)
            && (cur.records != prev.records ==> ch[0] == RecordCount(prev.records, cur.records))
            && (forall e :: e in ch && e.RecordCount? ==> e == RecordCount(prev.records, cur.records))
  {
    var ch := Changes(cur, prev, order);
    forall e | e in ch && e.RecordCount? ensures e == RecordCount(prev.records, cur.records) {
      ChangeMember(cur, prev, order, e);
      HeaderMember(cur, prev, e);
    }
    if cur.records != prev.records {
      assert ch[0] in ch;
    }
  }

  /** A date-range event is present iff the (min, max) pairs differ; it
      carries both pairs and is preceded by nothing but a record-count event. */
  lemma DateRangeEvent(cur: View, prev: View, order: seq<string>)
    requires Shared(order, cur, prev)
    ensures var ch := Changes(cur, prev, order);
            var k := if cur.records != prev.records then 1 else 0;
            && ((exists e :: e in ch && e.DateRangeChanged?) <==> cur.range != prev.range)
            && (forall e :: e in ch && e.DateRangeChanged? ==> e == DateRangeChanged(prev.range, cur.range))
            && (cur.range != prev.range ==> ch[k] == DateRangeChanged(prev.range, cur.range))
  {
    var ch := Changes(cur, prev, order);
    var k := if cur.records != prev.records then 1 else 0;
    forall e | e in ch && e.DateRangeChanged? ensures e == DateRangeChanged(prev.range, cur.range) {
      ChangeMember(cur, prev, order, e);
      HeaderMember(cur, prev, e);
    }
    if cur.range != prev.range {
      assert ch[k] in ch;
    }
  }

  /** A new-brands event is present iff some brand is only in the current
      snapshot, and then carries all such brands. */
  lemma AddedBrandsEvent(cur: View, prev: View, order: seq<string>)
    requires Shared(order, cur, prev)
    ensures var ch := Changes(cur, prev, order);
            var added := cur.latest.Keys - prev.latest.Keys;
            && ((exists e :: e in ch && e.NewBrands?) <==> added != {})
            && (forall e :: e in ch && e.NewBrands? ==> e == NewBrands(added))
  {
    var added := cur.latest.Keys - prev.latest.Keys;
    var ch := Changes(cur, prev, order);
    forall e | e in ch && e.NewBrands? ensures e == NewBrands(added) {
      ChangeMember(cur, prev, order, e);
      HeaderMember(cur, prev, e);
    }
    if added != {} {
      HeaderMember(cur, prev, NewBrands(added));
      ChangeMember(cur, prev, order, NewBrands(added));
    }
  }

  /** A removed-brands event is present iff some brand is only in the
      previous snapshot, and then carries all such brands. */
  lemma RemovedBrandsEvent(cur: View, prev: View, order: seq<string>)
    requires Shared(order, cur, prev)
    ensures var ch := Changes(cur, prev, order);
            var removed := prev.latest.Keys - cur.latest.Keys;
            && ((exists e :: e in ch && e.RemovedBrands?) <==> removed != {})
            && (forall e :: e in ch && e.RemovedBrands? ==> e == RemovedBrands(removed))
  {
    var removed := prev.latest.Keys - cur.latest.Keys;
    var ch := Changes(cur, prev, order);
    forall e | e in ch && e.RemovedBrands? ensures e == RemovedBrands(removed) {
      ChangeMember(cur, prev, order, e);
      HeaderMember(cur, prev, e);
    }
    if removed != {} {
      HeaderMember(cur, prev, RemovedBrands(removed));
      ChangeMember(cur, prev, order, RemovedBrands(removed));
    }
  }

  predicate AboutBrand(e: ChangeEvent, b: string)
  {
    (e.NewWeeklyData? || e.SignificantGgrChange?) && e.brand == b
  }

  /** The events of `s` about brand `b`, in order. */
  function EventsAbout(s: seq<ChangeEvent>, b: string): seq<ChangeEvent>
  {
    if s == [] then []
    else
      var last := s[|s| - 1];
      EventsAbout(s[..|s| - 1], b) + (if AboutBrand(last, b) then [last] else [])
  }

  lemma {:induction false} EventsAboutMembers(s: seq<ChangeEvent>, b: string)
    ensures forall e :: e in EventsAbout(s, b) <==> e in s && AboutBrand(e, b)
  {
    if s != [] {
      EventsAboutMembers(s[..|s| - 1], b);
      assert s == s[..|s| - 1] + [s[|s| - 1]];
    }
  }

  lemma {:induction false} EventsAboutAppend(s: seq<ChangeEvent>, t: seq<ChangeEvent>, b: string)
    ensures EventsAbout(s + t, b) == EventsAbout(s, b) + EventsAbout(t, b)
  {
    if t != [] {
      var t0 := t[..|t| - 1];
      assert (s + t)[..|s + t| - 1] == s + t0;
      EventsAboutAppend(s, t0, b);
    } else {
      assert s + t == s;
    }
  }

  lemma EventsAboutNone(s: seq<ChangeEvent>, b: string)
    requires forall e :: e in s ==> !AboutBrand(e, b)
    ensures EventsAbout(s, b) == []
  {
    EventsAboutMembers(s, b);
    if EventsAbout(s, b) != [] {
      assert EventsAbout(s, b)[0] in EventsAbout(s, b);
    }
  }

  /** A list whose events all concern brand `c` selects to itself for `c`
      and to nothing for any other brand. */
  lemma {:induction false} AllAboutOne(t: seq<ChangeEvent>, c: string, b: string)
    requires forall e :: e in t ==> AboutBrand(e, c)
    ensures EventsAbout(t, b) == if b == c then t else []
  {
    if t != [] {
      var t0 := t[..|t| - 1];
      assert forall e :: e in t0 ==> e in t;
      AllAboutOne(t0, c, b);
      assert t[|t| - 1] in t;
      assert t == t0 + [t[|t| - 1]];
    }
  }

  /** The turn of brand `c` yields all of its own events and nothing about
      any other brand. */
  lemma TurnAbout(c: string, cs: BrandSummary, ps: BrandSummary, b: string)
    ensures EventsAbout(BrandEvents(c, cs, ps), b) == if b == c then BrandEvents(c, cs, ps) else []
  {
    var t := BrandEvents(c, cs, ps);
    assert forall e :: e in t ==> AboutBrand(e, c);
    AllAboutOne(t, c, b);
  }

  /** With every brand visited once, the per-brand part holds exactly the
      events of `b`'s own turn about `b`, and none if `b` was not visited. */
  lemma {:induction false} PerBrandEventsAbout(cur: View, prev: View, order: seq<string>, b: string)
    requires Shared(order, cur, prev) && Distinct(order)
    ensures EventsAbout(PerBrandEvents(cur, prev, order), b)
            == if b in order then BrandEvents(b, cur.latest[b], prev.latest[b]) else []
  {
    if order != [] {
      var front := order[..|order| - 1];
      var last := order[|order| - 1];
      DistinctSplit(order);
      assert Shared(front, cur, prev);
      PerBrandEventsAbout(cur, prev, front, b);
      LastTurnAbout(cur, prev, order, b);
    }
  }

  /** The step of `PerBrandEventsAbout`: the events about `b` after the last
      turn, from those before it. */
  lemma LastTurnAbout(cur: View, prev: View, order: seq<string>, b: string)
    requires Shared(order, cur, prev) && order != []
    requires order[|order| - 1] !in order[..|order| - 1]
    requires Shared(order[..|order| - 1], cur, prev)
    requires var front := order[..|order| - 1];
             EventsAbout(PerBrandEvents(cur, prev, front), b)
             == if b in front then BrandEvents(b, cur.latest[b], prev.latest[b]) else []
    ensures EventsAbout(PerBrandEvents(cur, prev, order), b)
            == if b in order then BrandEvents(b, cur.latest[b], prev.latest[b]) else []
  {
    var front := order[..|order| - 1];
    var last := order[|order| - 1];
    var t := BrandEvents(last, cur.latest[last], prev.latest[last]);
    var f := PerBrandEvents(cur, prev, front);
    assert PerBrandEvents(cur, prev, order) == f + t;
    EventsAboutAppend(f, t, b);
    TurnAbout(last, cur.latest[last], prev.latest[last], b);
    InFrontOrLast(order, b);
    if b == last {
      assert EventsAbout(f, b) == [];
      assert EventsAbout(t, b) == t;
      assert [] + t == t;
    } else {
      assert b in order <==> b in front;
      assert EventsAbout(t, b) == [];
      assert EventsAbout(f, b) + [] == EventsAbout(f, b);
    }
  }

  lemma HeaderNotAbout(cur: View, prev: View, b: string)
    ensures forall e :: e in HeaderEvents(cur, prev) ==> !AboutBrand(e, b)
  {
  }

  /** The events about a brand are exactly that brand's turn when it is in
      both snapshots, and there are none otherwise: a brand only in one
      snapshot is reported through the brand-set events alone. */
  lemma EventsOfBrand(cur: View, prev: View, order: seq<string>, b: string)
    requires Enumerates(order, cur.latest.Keys * prev.latest.Keys)
    ensures Shared(order, cur, prev)
    ensures EventsAbout(Changes(cur, prev, order), b)
            == if b in cur.latest && b in prev.latest
               then BrandEvents(b, cur.latest[b], prev.latest[b]) else []
  {
    var h := HeaderEvents(cur, prev);
    HeaderNotAbout(cur, prev, b);
    EventsAboutNone(h, b);
    EventsAboutAppend(h, PerBrandEvents(cur, prev, order), b);
    PerBrandEventsAbout(cur, prev, order, b);
  }

  /** A brand's turn reports new weekly data iff its latest date moved, and
      the event carries the current and the previous latest date. */
  lemma NewWeeklyDataEvent(b: string, c: BrandSummary, p: BrandSummary)
    ensures (exists e :: e in BrandEvents(b, c, p) && e.NewWeeklyData?) <==> c.date != p.date
    ensures forall e :: e in BrandEvents(b, c, p) && e.NewWeeklyData? ==> e == NewWeeklyData(b, c.date, p.date)
  {
    if c.date != p.date {
      assert BrandEvents(b, c, p)[0] == NewWeeklyData(b, c.date, p.date);
    }
  }

  /** A brand's turn reports a significant GGR change iff its previous GGR is
      positive and the move exceeds 20 percent either way; the event carries
      the percentage and both amounts, and comes after any new-weekly-data
      event of the same turn. */
  lemma SignificantGgrEvent(b: string, c: BrandSummary, p: BrandSummary)
    ensures var t := BrandEvents(b, c, p);
            (exists e :: e in t && e.SignificantGgrChange?) <==> IsSignificant(p.ggr, c.ggr)
    ensures forall e :: e in BrandEvents(b, c, p) && e.SignificantGgrChange? ==>
              e == SignificantGgrChange(b, PercentChange(p.ggr, c.ggr), p.ggr, c.ggr)
    ensures var t := BrandEvents(b, c, p);
            IsSignificant(p.ggr, c.ggr) ==> t[|t| - 1].SignificantGgrChange?
  {
    var t := BrandEvents(b, c, p);
    if IsSignificant(p.ggr, c.ggr) {
      assert t[|t| - 1] in t;
    }
  }

  /** The threshold in plain terms: the previous GGR is positive and the
      current one differs from it by strictly more than a fifth of it. */
  lemma SignificantMeansMoreThanAFifth(previous: real, current: real)
    ensures IsSignificant(previous, current) <==> previous > 0.0 && Abs(current - previous) * 5.0 > previous
  {
    if previous > 0.0 {
      var d := current - previous;
      var q := d / previous;
      assert PercentChange(previous, current) == q * 100.0;
      calc {
        IsSignificant(previous, current);
      ==
        Abs(q * 100.0) > 20.0;
      == { PercentOverTwenty(q); }
        Abs(q) * 5.0 > 1.0;
      == { QuotientTimesDivisor(d, previous); AbsOfProduct(q, previous, d);
           ScaleCompare(Abs(q), previous, Abs(d)); }
        Abs(d) * 5.0 > previous;
      }
    }
  }

  lemma QuotientTimesDivisor(d: real, p: real)
    requires p != 0.0
    ensures (d / p) * p == d
  {
  }

  /** A fraction `q` is more than 20 percent either way iff five times its
      size exceeds 1. */
  lemma PercentOverTwenty(q: real)
    ensures Abs(q * 100.0) > 20.0 <==> Abs(q) * 5.0 > 1.0
  {
  }

  lemma AbsOfProduct(q: real, p: real, d: real)
    requires p > 0.0 && q * p == d
    ensures Abs(d) == Abs(q) * p
  {
    if q < 0.0 {
      assert d == -(Abs(q) * p);
    }
  }

  /** Five times `y = x * p` exceeds a positive `p` iff five times `x` exceeds 1. */
  lemma ScaleCompare(x: real, p: real, y: real)
    requires p > 0.0 && y == x * p
    ensures y * 5.0 > p <==> x * 5.0 > 1.0
  {
    assert y * 5.0 - p == (x * 5.0 - 1.0) * p;
    if x * 5.0 > 1.0 {
      assert (x * 5.0 - 1.0) * p > 0.0;
    } else {
      assert (1.0 - x * 5.0) * p >= 0.0;
    }
  }

  /** A rise of exactly 20 percent is not significant; 20.01 percent is; a
      zero or negative previous GGR never is. */
  lemma ThresholdIsStrict()
    ensures !IsSignificant(100.0, 120.0)
    ensures IsSignificant(100.0, 120.01)
    ensures !IsSignificant(0.0, 1000.0) && !IsSignificant(-5.0, 1000.0)
  {
    SignificantMeansMoreThanAFifth(100.0, 120.0);
    SignificantMeansMoreThanAFifth(100.0, 120.01);
  }

  /** Comparing a snapshot with itself yields no event, whatever the
      iteration order over its brands. */
  lemma {:induction false} SelfComparisonIsQuiet(v: View, order: seq<string>)
    requires Shared(order, v, v)
    ensures Changes(v, v, order) == []
  {
    if order != [] {
      var b := order[|order| - 1];
      SelfComparisonIsQuiet(v, order[..|order| - 1]);
      var g := v.latest[b].ggr;
      if g > 0.0 {
        assert PercentChange(g, g) == 0.0;
      }
      assert BrandEvents(b, v.latest[b], v.latest[b]) == [];
    }
  }
}
