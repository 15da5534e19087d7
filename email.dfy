/** The notification text of `create_email_body`: a data summary followed by
    exactly one of three sections. HTML markup and the event descriptions are
    presentation and are not modelled; what is kept is which section is
    chosen and which items it lists, under which headings. */
module Email {
  import opened Basics
  import opened Compare

  /** One list item of the changes section: the heading shown in bold and
      the event it describes. */
  datatype Item = Item(heading: string, change: ChangeEvent)

  datatype Section = NewDataSection | ChangesSection(items: seq<Item>) | NoChangesSection

  datatype EmailBody = EmailBody(
    timestamp: string,
    totalRecords: nat,
    dateRange: Option<(Date, Date)>,
    brands: nat,
    section: Section)

  predicate IsCased(c: char)
  {
    'a' <= c <= 'z' || 'A' <= c <= 'Z'
  }

  function Upper(c: char): char
  {
    if 'a' <= c <= 'z' then (c as int - 32) as char else c
  }

  function Lower(c: char): char
  {
    if 'A' <= c <= 'Z' then (c as int + 32) as char else c
  }

  /** `replace('_', ' ')`. */
  function Spaced(s: string): (r: string)
    ensures |r| == |s|
  {
    if s == [] then [] else [if s[0] == '_' then ' ' else s[0]] + Spaced(s[1..])
  }

  /** The case `title()` gives a character, by whether the one before it is
      a letter. */
  function TitleChar(c: char, afterLetter: bool): char
  {
    if !IsCased(c) then c else if afterLetter then Lower(c) else Upper(c)
  }

  /** `title()` on ASCII text, continuing after a letter or not. */
  function TitleFrom(s: string, afterLetter: bool): (r: string)
    ensures |r| == |s|
  {
    if s == [] then []
    else
      var rest := TitleFrom(s[1..], IsCased(s[0]));
      [TitleChar(s[0], afterLetter)] + rest
  }

  /** Position `i` of `replace('_', ' ')`: an underscore becomes a space and
      every other character is kept. */
  lemma {:induction false} SpacedAt(s: string, i: nat)
    requires i < |s|
    ensures Spaced(s)[i] == if s[i] == '_' then ' ' else s[i]
  {
    if 0 < i {
      SpacedAt(s[1..], i - 1);
    }
  }

  /** Position `i` of `title()`: a letter is raised at the start of a word and
      lowered after another letter; other characters are kept. */
  lemma {:induction false} TitleAt(s: string, afterLetter: bool, i: nat)
    requires i < |s|
    ensures TitleFrom(s, afterLetter)[i] == TitleChar(s[i], if i == 0 then afterLetter else IsCased(s[i - 1]))
  {
    if 0 < i {
      TitleAt(s[1..], IsCased(s[0]), i - 1);
      if 1 < i {
        assert s[1..][i - 2] == s[i - 1];
      }
    }
  }

  /** The item heading of an event: its type name with underscores turned
      into spaces, in title case. */
  function Heading(e: ChangeEvent): string
  {
    TitleFrom(Spaced(TypeName(e)), false)
  }

  /** The list item of one change. */
  function ItemOf(e: ChangeEvent): Item
  {
    Item(Heading(e), e)
  }

  /** The changes section lists every change once, in order, each under its
      own heading. */
  lemma ChangesSectionLists(result: ComparisonResult)
    requires SectionOf(result).ChangesSection?
    ensures var items := SectionOf(result).items;
            && |items| == |result.changes|
            && forall k :: 0 <= k < |items| ==> items[k] == Item(Heading(result.changes[k]), result.changes[k])
  {
    forall k | 0 <= k < |result.changes|
      ensures Map(ItemOf, result.changes)[k] == Item(Heading(result.changes[k]), result.changes[k])
    {
      MapAt(ItemOf, result.changes, k);
    }
  }

  /** Which section the message carries: new data first, then changes if the
      list is non-empty, otherwise the no-changes note. */
  function SectionOf(result: ComparisonResult): (s: Section)
    ensures s.NewDataSection? <==> result.isNewData
    ensures s.ChangesSection? <==> !result.isNewData && result.changes != []
    ensures s.NoChangesSection? <==> !result.isNewData && result.changes == []
  {
    if result.isNewData then NewDataSection
    else if result.changes != [] then ChangesSection(Map(ItemOf, result.changes))
    else NoChangesSection
  }

  /** The list items, appended change by change. */
  method ListItems(changes: seq<ChangeEvent>) returns (items: seq<Item>)
    ensures items == Map(ItemOf, changes)
  {
    items := [];
    var i := 0;
    while i < |changes|
      invariant 0 <= i <= |changes| && items == Map(ItemOf, changes[..i])
    {
      MapPrefix(ItemOf, changes, i);
      items, i := items + [ItemOf(changes[i])], i + 1;
    }
    MapWhole(ItemOf, changes);
  }

  /** Builds the message. The timestamp is the formatted run time, passed in. */
  method CreateEmailBody(result: ComparisonResult, timestamp: string) returns (body: EmailBody)
    ensures body.timestamp == timestamp
    ensures body.totalRecords == result.totalRecords && body.dateRange == result.dateRange
    ensures body.brands == result.brands
    ensures body.section == SectionOf(result)
  {
    var section: Section;
    if result.isNewData {
      section := NewDataSection;
    } else if result.changes != [] {
      var items := ListItems(result.changes);
      section := ChangesSection(items);
    } else {
      section := NoChangesSection;
    }
    body := EmailBody(timestamp, result.totalRecords, result.dateRange, result.brands, section);
  }

  /** The first run, with no previous snapshot, announces new data. */
  lemma FirstRunAnnouncesNewData(result: ComparisonResult)
    requires result.isNewData
    ensures SectionOf(result) == NewDataSection
  {
  }

  /** Rerunning on unchanged data reports no changes. */
  lemma UnchangedDataIsQuiet(v: View, order: seq<string>, records: nat, range: Option<(Date, Date)>, brands: nat)
    requires Shared(order, v, v)
    ensures SectionOf(ComparisonResult(false, records, range, brands, Changes(v, v, order))) == NoChangesSection
  {
    SelfComparisonIsQuiet(v, order);
  }
}
