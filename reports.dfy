/** The admin report table: the records of one status tab, sorted on a column
    in either direction, shown ten to a page, and exported as CSV text. */
module Reports {
  import opened Wrappers
  import opened Text
  import Seqs
  import Dates

  datatype Status = Completed | Rejected | Rescheduled

  /** One row of the report. `reason` is set on rejected records, `originalDate`
      and `newDate` on rescheduled ones; any of them may be missing. */
  datatype ReportRecord = ReportRecord(
    id: string,
    date: string,
    customerName: string,
    service: string,
    acType: string,
    reason: Option<string>,
    originalDate: Option<string>,
    newDate: Option<string>,
    status: Status)

  datatype SortField = Date | CustomerName | Service | AcType
  datatype SortDirection = Asc | Desc

  const ItemsPerPage: nat := 10

  // ---------------------------------------------------------------------------
  // the status tab

  function StatusIs(tab: Status): ReportRecord -> bool {
    (r: ReportRecord) => r.status == tab
  }

  /** The records shown under a tab: those whose status is the tab's, in their
      original order. */
  function FilterByStatus(records: seq<ReportRecord>, tab: Status): (r: seq<ReportRecord>)
    ensures forall x :: x in r <==> x in records && x.status == tab
    ensures forall i :: 0 <= i < |r| ==> r[i].status == tab
  {
    Seqs.Filter(records, StatusIs(tab))
  }

  /** The tab filter distributes over concatenation, so it keeps the original order. */
  lemma FilterByStatusAppend(a: seq<ReportRecord>, b: seq<ReportRecord>, tab: Status)
    ensures FilterByStatus(a + b, tab) == FilterByStatus(a, tab) + FilterByStatus(b, tab)
  {
    Seqs.FilterAppend(a, b, StatusIs(tab));
  }

  /** The count shown on a tab's label. */
  function TabCount(records: seq<ReportRecord>, tab: Status): nat {
    |FilterByStatus(records, tab)|
  }

  /** Every record has one of the three statuses, so the tab counts add up to
      the number of records. */
  lemma {:induction false} TabCountsSum(records: seq<ReportRecord>)
    ensures TabCount(records, Completed) + TabCount(records, Rejected) + TabCount(records, Rescheduled)
            == |records|
  {
    if records != [] {
      TabCountsSum(records[1..]);
    }
  }

  // ---------------------------------------------------------------------------
  // sorting

  /** The column a sort field reads. Dates are compared as their strings; see
      SortedByDateIsChronological for why this is calendar order. */
  function Key(r: ReportRecord, field: SortField): string {
    match field
    case Date => r.date
    case CustomerName => r.customerName
    case Service => r.service
    case AcType => r.acType
  }

  /** The comparator handed to `sort`: zero exactly on equal keys, and
      negative exactly when `a`'s key comes first in the chosen direction. */
  function Compare(a: ReportRecord, b: ReportRecord, field: SortField, dir: SortDirection): (c: int)
    ensures -1 <= c <= 1
    ensures c == 0 <==> Key(a, field) == Key(b, field)
    ensures dir == Asc ==> (c < 0 <==> LexLess(Key(a, field), Key(b, field)))
    ensures dir == Desc ==> (c < 0 <==> LexLess(Key(b, field), Key(a, field)))
  {
    var ka, kb := Key(a, field), Key(b, field);
    LexTrichotomy(ka, kb);
    if LexLess(ka, kb) then (if dir == Asc then -1 else 1)
    else if LexLess(kb, ka) then (if dir == Asc then 1 else -1)
    else 0
  }

  /** The comparator allows `a` before `b` exactly when their keys are in the
      direction's order: non-decreasing for Asc, non-increasing for Desc. */
  lemma CompareMeaning(a: ReportRecord, b: ReportRecord, field: SortField, dir: SortDirection)
    ensures Compare(a, b, field, dir) <= 0 <==> KeysInOrder(Key(a, field), Key(b, field), dir)
  {
    var ka, kb := Key(a, field), Key(b, field);
    if LexLess(ka, kb) {
      LexAsymmetric(ka, kb);
    }
  }

  predicate KeysInOrder(ka: string, kb: string, dir: SortDirection) {
    if dir == Asc then !LexLess(kb, ka) else !LexLess(ka, kb)
  }

  /** Any two keys are in order one way or the other. */
  lemma KeysInOrderTotal(ka: string, kb: string, dir: SortDirection)
    ensures KeysInOrder(ka, kb, dir) || KeysInOrder(kb, ka, dir)
  {
    if LexLess(ka, kb) {
      LexAsymmetric(ka, kb);
    }
  }

  lemma KeysInOrderTransitive(ka: string, kb: string, kc: string, dir: SortDirection)
    requires KeysInOrder(ka, kb, dir) && KeysInOrder(kb, kc, dir)
    ensures KeysInOrder(ka, kc, dir)
  {
    if dir == Asc {
      if LexLess(kc, ka) {
        if ka == kb {
        } else {
          LexTotal(ka, kb);
          LexTransitive(kc, ka, kb);
        }
      }
    } else {
      if LexLess(ka, kc) {
        if ka == kb {
        } else {
          LexTotal(ka, kb);
          LexTransitive(kb, ka, kc);
        }
      }
    }
  }

  /** Every pair of records, earlier then later, is in the direction's order. */
  predicate SortedOn(s: seq<ReportRecord>, field: SortField, dir: SortDirection) {
    forall i, j :: 0 <= i < j < |s| ==> KeysInOrder(Key(s[i], field), Key(s[j], field), dir)
  }

  /** Puts `x` before the first element the comparator does not rank strictly
      before it. */
  function Insert(x: ReportRecord, s: seq<ReportRecord>, field: SortField, dir: SortDirection)
    : (r: seq<ReportRecord>)
    requires SortedOn(s, field, dir)
    ensures multiset(r) == multiset(s) + multiset{x}
    ensures SortedOn(r, field, dir)
  {
    if s == [] then [x]
    else if Compare(x, s[0], field, dir) <= 0 then
      CompareMeaning(x, s[0], field, dir);
      InsertFront(x, s, field, dir);
      [x] + s
    else
      CompareMeaning(x, s[0], field, dir);
      KeysInOrderTotal(Key(x, field), Key(s[0], field), dir);
      assert SortedOn(s[1..], field, dir) by {
        forall i, j | 0 <= i < j < |s[1..]|
          ensures KeysInOrder(Key(s[1..][i], field), Key(s[1..][j], field), dir)
        {
          assert s[1..][i] == s[i + 1] && s[1..][j] == s[j + 1];
        }
      }
      var rest := Insert(x, s[1..], field, dir);
      InsertBehind(s[0], rest, x, s[1..], field, dir);
      assert s == [s[0]] + s[1..];
      [s[0]] + rest
  }

  lemma InsertFront(x: ReportRecord, s: seq<ReportRecord>, field: SortField, dir: SortDirection)
    requires s != [] && SortedOn(s, field, dir)
    requires KeysInOrder(Key(x, field), Key(s[0], field), dir)
    ensures SortedOn([x] + s, field, dir)
  {
    var r := [x] + s;
    forall i, j | 0 <= i < j < |r| ensures KeysInOrder(Key(r[i], field), Key(r[j], field), dir) {
      if i == 0 && j > 1 {
        KeysInOrderTransitive(Key(x, field), Key(s[0], field), Key(s[j - 1], field), dir);
      }
    }
  }

  lemma InsertBehind(y: ReportRecord, rest: seq<ReportRecord>, x: ReportRecord, tail: seq<ReportRecord>,
                     field: SortField, dir: SortDirection)
    requires SortedOn(rest, field, dir)
    requires multiset(rest) == multiset(tail) + multiset{x}
    requires KeysInOrder(Key(y, field), Key(x, field), dir)
    requires forall k :: 0 <= k < |tail| ==> KeysInOrder(Key(y, field), Key(tail[k], field), dir)
    ensures SortedOn([y] + rest, field, dir)
  {
    var r := [y] + rest;
    forall i, j | 0 <= i < j < |r| ensures KeysInOrder(Key(r[i], field), Key(r[j], field), dir) {
      if i == 0 {
        var z := rest[j - 1];
        assert z in multiset(rest);
        if z != x {
          assert z in multiset(tail);
          var k :| 0 <= k < |tail| && tail[k] == z;
        }
      } else {
        assert r[i] == rest[i - 1] && r[j] == rest[j - 1];
      }
    }
  }

  /** `[...filtered].sort(comparator)`: a sorted permutation of the input. It
      works on a copy, so the input is left as it was. */
  function SortRecords(s: seq<ReportRecord>, field: SortField, dir: SortDirection): (r: seq<ReportRecord>)
    ensures multiset(r) == multiset(s) && |r| == |s|
    ensures SortedOn(r, field, dir)
  {
    if s == [] then []
    else
      var rest := SortRecords(s[1..], field, dir);
      assert s == [s[0]] + s[1..];
      Insert(s[0], rest, field, dir)
  }

  predicate AllDatesWellFormed(s: seq<ReportRecord>) {
    forall k :: 0 <= k < |s| ==> Dates.WellFormedDate(s[k].date)
  }

  /** A list sorted on the date column, with well-formed dates, is in calendar
      order: oldest first for Asc, newest first for Desc. */
  lemma SortedOnDateIsChronological(r: seq<ReportRecord>, dir: SortDirection)
    requires SortedOn(r, Date, dir) && AllDatesWellFormed(r)
    ensures forall i, j :: 0 <= i < j < |r| ==>
      if dir == Asc then !Dates.CalendarBefore(r[j].date, r[i].date)
      else !Dates.CalendarBefore(r[i].date, r[j].date)
  {
    forall i, j | 0 <= i < j < |r|
      ensures if dir == Asc then !Dates.CalendarBefore(r[j].date, r[i].date)
              else !Dates.CalendarBefore(r[i].date, r[j].date)
    {
      Dates.StringOrderIsCalendarOrder(r[i].date, r[j].date);
      Dates.StringOrderIsCalendarOrder(r[j].date, r[i].date);
    }
  }

  /** Sorting on the date column lists well-formed dates chronologically. */
  lemma SortedByDateIsChronological(s: seq<ReportRecord>, dir: SortDirection)
    requires AllDatesWellFormed(s)
    ensures AllDatesWellFormed(SortRecords(s, Date, dir))
    ensures var r := SortRecords(s, Date, dir);
      forall i, j :: 0 <= i < j < |r| ==>
        if dir == Asc then !Dates.CalendarBefore(r[j].date, r[i].date)
        else !Dates.CalendarBefore(r[i].date, r[j].date)
  {
    var r := SortRecords(s, Date, dir);
    forall k | 0 <= k < |r| ensures Dates.WellFormedDate(r[k].date) {
      assert r[k] in multiset(s);
    }
    SortedOnDateIsChronological(r, dir);
  }

  // ---------------------------------------------------------------------------
  // pagination

  /** `Math.ceil(n / itemsPerPage)`: the fewest pages of ten that hold `n` rows. */
  function TotalPages(n: nat): (t: nat)
    ensures t * ItemsPerPage >= n
    ensures t == 0 || (t - 1) * ItemsPerPage < n
  {
    (n + ItemsPerPage - 1) / ItemsPerPage
  }

  /** How `slice` reads an index: negative ones count from the end, and every
      index is clamped to the sequence. */
  function ClampIndex(i: int, len: nat): (k: nat)
    ensures k <= len
    ensures 0 <= i <= len ==> k == i
    ensures i > len ==> k == len
    ensures -(len as int) <= i < 0 ==> k as int == len as int + i
    ensures i < -(len as int) ==> k == 0
  {
    if i < 0 then (if len + i < 0 then 0 else len + i)
    else if i > len then len
    else i
  }

  /** `s.slice(start, end)`. */
  function JsSlice<T>(s: seq<T>, start: int, end: int): seq<T> {
    var from, to := ClampIndex(start, |s|), ClampIndex(end, |s|);
    if from < to then s[from..to] else []
  }

  function Min(a: int, b: int): int {
    if a < b then a else b
  }

  function Max(a: int, b: int): int {
    if a < b then b else a
  }

  /** The rows on page `page` (numbered from 1): the next ten after the
      previous pages' rows, fewer on the last page. */
  function PageRows(sorted: seq<ReportRecord>, page: int): (r: seq<ReportRecord>)
    requires page >= 1
    ensures |r| <= ItemsPerPage
    ensures var start := Min((page - 1) * ItemsPerPage, |sorted|);
            r == sorted[start..Min(start + ItemsPerPage, |sorted|)]
  {
    var startIndex := (page - 1) * ItemsPerPage;
    JsSlice(sorted, startIndex, startIndex + ItemsPerPage)
  }

  /** Row `i` of the sorted list is row `i % 10` of page `i / 10 + 1`, and that
      page is within the page count: every row is reachable on exactly one page. */
  lemma {:induction false} RowOnPage(sorted: seq<ReportRecord>, i: nat)
    requires i < |sorted|
    ensures 1 <= i / ItemsPerPage + 1 <= TotalPages(|sorted|)
    ensures |PageRows(sorted, i / ItemsPerPage + 1)| > i % ItemsPerPage
    ensures PageRows(sorted, i / ItemsPerPage + 1)[i % ItemsPerPage] == sorted[i]
  {
    var p := i / ItemsPerPage;
    assert p * ItemsPerPage <= i < p * ItemsPerPage + ItemsPerPage;
  }

  /** The page control's Previous button: one back, never below page 1. */
  function PreviousPage(page: int): (p: int)
    ensures p >= 1
    ensures page > 1 ==> p == page - 1
    ensures page <= 1 ==> p == 1
  {
    Max(1, page - 1)
  }

  /** The page control's Next button: one on, never past the last page. */
  function NextPage(page: int, totalPages: int): (p: int)
    ensures p <= totalPages
    ensures page < totalPages ==> p == page + 1
    ensures page >= totalPages ==> p == totalPages
  {
    Min(totalPages, page + 1)
  }

  /** Both buttons keep a page number in `[1, totalPages]` once there is a page;
      Previous moves back exactly when not on page 1, Next moves on exactly when
      not on the last page. */
  lemma PageButtonsStayInRange(page: int, totalPages: int)
    requires 1 <= page <= totalPages
    ensures 1 <= PreviousPage(page) <= totalPages && 1 <= NextPage(page, totalPages) <= totalPages
    ensures PreviousPage(page) == (if page == 1 then page else page - 1)
    ensures NextPage(page, totalPages) == (if page == totalPages then page else page + 1)
  {
  }

  // ---------------------------------------------------------------------------
  // CSV export

  /** The value a record shows in the column a header names; a missing
      optional field shows as "". */
  function Column(header: string, r: ReportRecord): string {
    if header == "Date" then r.date
    else if header == "Customer" then r.customerName
    else if header == "Service" then r.service
    else if header == "AC Type" then r.acType
    else if header == "Reason" then r.reason.GetOr("")
    else if header == "Original Date" then r.originalDate.GetOr("")
    else if header == "New Date" then r.newDate.GetOr("")
    else ""
  }

  /** The header row of a tab's export: customer, service and AC type on every
      tab, the reason only for rejected records, the original and new dates
      only for rescheduled ones. */
  function Headers(tab: Status): (h: seq<string>)
    ensures |h| == if tab == Completed then 4 else 5
    ensures "Customer" in h && "Service" in h && "AC Type" in h
    ensures "Reason" in h <==> tab == Rejected
    ensures "Original Date" in h <==> tab == Rescheduled
    ensures "New Date" in h <==> tab == Rescheduled
  {
    match tab
    case Completed => ["Date", "Customer", "Service", "AC Type"]
    case Rejected => ["Date", "Customer", "Service", "AC Type", "Reason"]
    case Rescheduled => ["Original Date", "New Date", "Customer", "Service", "AC Type"]
  }

  /** The cells of one record under a tab; a missing optional field is "". */
  function CsvCells(tab: Status, r: ReportRecord): (c: seq<string>)
    ensures |c| == |Headers(tab)|
  {
    match tab
    case Completed => [r.date, r.customerName, r.service, r.acType]
    case Rejected => [r.date, r.customerName, r.service, r.acType, r.reason.GetOr("")]
    case Rescheduled => [r.originalDate.GetOr(""), r.newDate.GetOr(""), r.customerName, r.service, r.acType]
  }

  /** Every cell sits under its header: the cell in a column is the record's
      value for the field the header names. */
  lemma CellsUnderHeaders(tab: Status, r: ReportRecord)
    ensures forall i :: 0 <= i < |CsvCells(tab, r)| ==> CsvCells(tab, r)[i] == Column(Headers(tab)[i], r)
  {
  }

  /** The lines of the export: the header line, then one line per sorted record. */
  function CsvLines(tab: Status, sorted: seq<ReportRecord>): (lines: seq<string>)
    ensures |lines| == |sorted| + 1
    ensures lines[0] == Join(Headers(tab), ',')
    ensures forall k :: 0 <= k < |sorted| ==> lines[k + 1] == Join(CsvCells(tab, sorted[k]), ',')
  {
    [Join(Headers(tab), ',')] + seq(|sorted|, k requires 0 <= k < |sorted| => Join(CsvCells(tab, sorted[k]), ','))
  }

  /** The exported text: the lines joined by newlines, with no quoting. */
  function CsvContent(tab: Status, sorted: seq<ReportRecord>): (text: string)
    ensures |Join(Headers(tab), ',')| <= |text|
    ensures text[..|Join(Headers(tab), ',')|] == Join(Headers(tab), ',')
    ensures sorted == [] ==> text == Join(Headers(tab), ',')
  {
    Join(CsvLines(tab, sorted), '\n')
  }

  /** A header has four columns for completed records and five otherwise, and
      every record's line has as many cells as the header. */
  lemma CsvShape(tab: Status, r: ReportRecord)
    ensures |Headers(tab)| == (if tab == Completed then 4 else 5)
    ensures |CsvCells(tab, r)| == |Headers(tab)|
  {
  }

  /** No cell holds a comma or a line break. */
  predicate PlainCells(cells: seq<string>) {
    forall i :: 0 <= i < |cells| ==> ',' !in cells[i] && '\n' !in cells[i]
  }

  lemma HeadersPlain(tab: Status)
    ensures PlainCells(Headers(tab))
  {
    assert ',' !in "Date" && ',' !in "Customer" && ',' !in "Service" && ',' !in "AC Type";
    assert '\n' !in "Date" && '\n' !in "Customer" && '\n' !in "Service" && '\n' !in "AC Type";
    match tab
    case Completed =>
    case Rejected =>
      assert ',' !in "Reason" && '\n' !in "Reason";
    case Rescheduled =>
      assert ',' !in "Original Date" && '\n' !in "Original Date";
      assert ',' !in "New Date" && '\n' !in "New Date";
  }

  /** A line of plain cells splits back into its cells and has no line break. */
  lemma LineReadsBack(cells: seq<string>)
    requires |cells| >= 1 && PlainCells(cells)
    ensures '\n' !in Join(cells, ',')
    ensures Split(Join(cells, ','), ',') == cells
  {
    JoinAvoids(cells, ',', '\n');
    SplitJoin(cells, ',');
  }

  /** When no cell holds a comma or a line break, the export reads back: its
      lines are the header and the records in sorted order, and each line's
      comma-separated cells are that record's cells. */
  lemma CsvReadsBack(tab: Status, sorted: seq<ReportRecord>)
    requires forall k :: 0 <= k < |sorted| ==> PlainCells(CsvCells(tab, sorted[k]))
    ensures Split(CsvContent(tab, sorted), '\n') == CsvLines(tab, sorted)
    ensures Split(CsvLines(tab, sorted)[0], ',') == Headers(tab)
    ensures forall k :: 0 <= k < |sorted| ==>
      Split(CsvLines(tab, sorted)[k + 1], ',') == CsvCells(tab, sorted[k])
  {
    var lines := CsvLines(tab, sorted);
    HeadersPlain(tab);
    LineReadsBack(Headers(tab));
    forall k | 0 <= k < |sorted|
      ensures '\n' !in lines[k + 1]
      ensures Split(lines[k + 1], ',') == CsvCells(tab, sorted[k])
    {
      CsvShape(tab, sorted[k]);
      HeadersPlain(tab);
      LineReadsBack(CsvCells(tab, sorted[k]));
    }
    forall i | 0 <= i < |lines| ensures '\n' !in lines[i] {
      if i > 0 {
        assert lines[i] == lines[(i - 1) + 1];
      }
    }
    SplitJoin(lines, '\n');
  }

  /** Without quoting, a comma inside a field adds a column: a rejected record
      whose reason is "late, again" exports a line of six cells under a header
      of five. */
  lemma CommaInReasonAddsColumn()
    ensures var r := ReportRecord("4", "2025-08-18", "Alice Brown", "AC Maintenance", "Split",
                                  Some("late, again"), None, None, Rejected);
            |Split(CsvLines(Rejected, [r])[1], ',')| == 6 && |Headers(Rejected)| == 5
  {
    var r := ReportRecord("4", "2025-08-18", "Alice Brown", "AC Maintenance", "Split",
                          Some("late, again"), None, None, Rejected);
    var a, b, c, d := "2025-08-18", "Alice Brown", "AC Maintenance", "Split";
    var five := [a, b, c, d, "late, again"];
    var six := [a, b, c, d, "late", " again"];
    assert CsvCells(Rejected, r) == five;
    assert "late, again" == "late" + [','] + " again";
    assert Join(five[4..], ',') == Join(six[4..], ',');
    assert Join(five[3..], ',') == Join(six[3..], ',');
    assert Join(five[2..], ',') == Join(six[2..], ',');
    assert Join(five[1..], ',') == Join(six[1..], ',');
    assert Join(five, ',') == Join(six, ',');
    assert forall i :: 0 <= i < |six| ==> ',' !in six[i];
    SplitJoin(six, ',');
  }

  // ---------------------------------------------------------------------------
  // the page's state

  /** The report page: the records it was given, the active tab, the page shown
      and the sort column and direction. */
  class ReportsView {
    const allRecords: seq<ReportRecord>
    var activeTab: Status
    var currentPage: int
    var sortField: SortField
    var sortDirection: SortDirection

    /** The active tab's records, sorted as the column headers say. */
    function SortedRecords(): seq<ReportRecord>
      reads this
    {
      SortRecords(FilterByStatus(allRecords, activeTab), sortField, sortDirection)
    }

    function PageCount(): nat
      reads this
    {
      TotalPages(|SortedRecords()|)
    }

    /** The page shown is a real page, or page 1 when there are no rows. */
    ghost predicate Valid()
      reads this
    {
      1 <= currentPage <= Max(1, PageCount())
    }

    /** The rows of the table. */
    function PaginatedRecords(): (rows: seq<ReportRecord>)
      reads this
      requires Valid()
      ensures |rows| <= ItemsPerPage
      ensures forall x :: x in rows ==> x in allRecords && x.status == activeTab
    {
      var rows := PageRows(SortedRecords(), currentPage);
      assert forall x :: x in rows ==> x in multiset(SortedRecords());
      rows
    }

    /** The text the Export CSV button downloads. */
    function ExportedCsv(): string
      reads this
    {
      CsvContent(activeTab, SortedRecords())
    }

    constructor (records: seq<ReportRecord>)
      ensures allRecords == records
      ensures activeTab == Completed && currentPage == 1
      ensures sortField == Date && sortDirection == Desc
      ensures Valid()
    {
      allRecords := records;
      activeTab := Completed;
      currentPage := 1;
      sortField := Date;
      sortDirection := Desc;
    }

    /** A click on a sortable column header: the same column flips the
        direction, another column sorts ascending on it; either way back to page 1. */
    method HandleSort(field: SortField)
      requires Valid()
      modifies this
      ensures Valid()
      ensures old(sortField) == field ==>
        sortField == field && sortDirection == (if old(sortDirection) == Asc then Desc else Asc)
      ensures old(sortField) != field ==> sortField == field && sortDirection == Asc
      ensures currentPage == 1 && activeTab == old(activeTab)
    {
      if sortField == field {
        sortDirection := if sortDirection == Asc then Desc else Asc;
      } else {
        sortField := field;
        sortDirection := Asc;
      }
      currentPage := 1;
    }

    /** A click on a status tab: show it from page 1. */
    method SelectTab(tab: Status)
      requires Valid()
      modifies this
      ensures Valid()
      ensures activeTab == tab && currentPage == 1
      ensures sortField == old(sortField) && sortDirection == old(sortDirection)
    {
      activeTab := tab;
      currentPage := 1;
    }

    /** The Previous button; the page control is shown only with more than one page. */
    method GoToPreviousPage()
      requires Valid() && PageCount() > 1
      modifies this`currentPage
      ensures Valid()
      ensures currentPage == PreviousPage(old(currentPage))
    {
      currentPage := PreviousPage(currentPage);
    }

    /** The Next button; the page control is shown only with more than one page. */
    method GoToNextPage()
      requires Valid() && PageCount() > 1
      modifies this`currentPage
      ensures Valid()
      ensures currentPage == NextPage(old(currentPage), PageCount())
    {
      currentPage := NextPage(currentPage, PageCount());
    }

    /** A numbered page button; buttons are drawn for the first five pages only. */
    method GoToPage(page: int)
      requires Valid() && PageCount() > 1
      requires 1 <= page <= Min(5, PageCount())
      modifies this`currentPage
      ensures Valid() && currentPage == page
    {
      currentPage := page;
    }
  }
}
