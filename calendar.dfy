/** The admin calendar: a month grid of day cells, the events of each day,
    and a list of dates the admin has marked unavailable, toggled by clicking
    a day. Days are identified by the key `YYYY-MM-DD` built from the month
    shown and the day number. */
module Calendar {
  import opened Text
  import opened Wrappers
  import opened Seqs
  import Dates

  datatype EventStatus = Pending | Accepted | Completed

  datatype CalendarEvent = CalendarEvent(
    id: string, date: string, customerName: string, service: string,
    acType: string, time: string, status: EventStatus)

  // ---------------------------------------------------------------------------
  // toggling a day's availability

  /** `toggleDayAvailability`: a listed date is removed (every occurrence), an
      unlisted one appended. */
  function ToggleDay(dates: seq<string>, d: string): (r: seq<string>)
    ensures d in r <==> d !in dates
    ensures forall x :: x != d ==> (x in r <==> x in dates)
  {
    if d in dates then RemoveAll(dates, d) else dates + [d]
  }

  /** Apart from `d`, the list is untouched: removing `d` from the old and the
      new list gives the same sequence, so every other date keeps its place
      and its number of occurrences. An unlisted date goes to the end. */
  lemma ToggleKeepsOthersInOrder(dates: seq<string>, d: string)
    ensures RemoveAll(ToggleDay(dates, d), d) == RemoveAll(dates, d)
    ensures d !in dates ==> ToggleDay(dates, d) == dates + [d]
  {
    if d in dates {
      RemoveAllAbsent(RemoveAll(dates, d), d);
    } else {
      RemoveAllAfterAppend(dates, d);
      RemoveAllAbsent(dates, d);
    }
  }

  /** Marking an available day unavailable and then available again restores
      the list exactly. */
  lemma ToggleTwice(dates: seq<string>, d: string)
    requires d !in dates
    ensures ToggleDay(ToggleDay(dates, d), d) == dates
  {
    RemoveAllAfterAppend(dates, d);
  }

  /** A list that toggling alone has built never holds a date twice. */
  lemma ToggleNoDuplicates(dates: seq<string>, d: string)
    requires NoDuplicates(dates)
    ensures NoDuplicates(ToggleDay(dates, d))
  {
    if d in dates {
      FilterNoDuplicates(dates, NotEqual(d));
    } else {
      var r := dates + [d];
      forall i, j | 0 <= i < j < |r| ensures r[i] != r[j] {
        if j == |dates| {
          assert r[i] == dates[i];
        } else {
          assert r[i] == dates[i] && r[j] == dates[j];
        }
      }
    }
  }

  // ---------------------------------------------------------------------------
  // the month grid

  /** A grid cell: a blank before the 1st, or a day number. */
  datatype Cell = Blank | DayCell(day: nat)

  /** `getDaysInMonth` after it has asked the date library for the weekday of the
      1st (`startingDayOfWeek`) and the length of the month (`daysInMonth`):
      that many blanks, then the days 1 to `daysInMonth` in order. */
  method MonthGrid(startingDayOfWeek: nat, daysInMonth: nat) returns (days: seq<Cell>)
    ensures |days| == startingDayOfWeek + daysInMonth
    ensures forall i :: 0 <= i < startingDayOfWeek ==> days[i] == Blank
    ensures forall d :: 1 <= d <= daysInMonth ==> days[startingDayOfWeek + d - 1] == DayCell(d)
  {
    days := [];
    var i := 0;
    while i < startingDayOfWeek
      invariant 0 <= i <= startingDayOfWeek
      invariant |days| == i
      invariant forall k :: 0 <= k < i ==> days[k] == Blank
    {
      days := days + [Blank];
      i := i + 1;
    }
    var day := 1;
    while day <= daysInMonth
      invariant 1 <= day <= daysInMonth + 1
      invariant |days| == startingDayOfWeek + day - 1
      invariant forall k :: 0 <= k < startingDayOfWeek ==> days[k] == Blank
      invariant forall d :: 1 <= d < day ==> days[startingDayOfWeek + d - 1] == DayCell(d)
    {
      days := days + [DayCell(day)];
      day := day + 1;
    }
  }

  // ---------------------------------------------------------------------------
  // date keys

  /** The key of a day: the year, then the month counted from 1 and the day,
      each padded to two digits, joined by '-'. `month` is the library's month
      index, 0 for January. */
  function DateKey(year: int, month: nat, day: nat): string
    requires month < 12
  {
    IntToString(year) + "-" + TwoDigits(month + 1) + "-" + TwoDigits(day)
  }

  /** A key splits back into its pieces, since the last two pieces have two
      characters each. */
  lemma KeyPieces(y1: string, m1: string, d1: string, y2: string, m2: string, d2: string)
    requires |m1| == |d1| == |m2| == |d2| == 2
    requires y1 + "-" + m1 + "-" + d1 == y2 + "-" + m2 + "-" + d2
    ensures y1 == y2 && m1 == m2 && d1 == d2
  {
    var k := y1 + "-" + m1 + "-" + d1;
    var n := |k| - 6;
    assert y1 == k[..n] == y2;
    assert m1 == k[n + 1..n + 3] == m2;
    assert d1 == k[n + 4..] == d2;
  }

  /** Different days have different keys, whatever the year. */
  lemma DateKeyInjective(y1: int, m1: nat, d1: nat, y2: int, m2: nat, d2: nat)
    requires m1 < 12 && m2 < 12 && d1 < 100 && d2 < 100
    requires DateKey(y1, m1, d1) == DateKey(y2, m2, d2)
    ensures y1 == y2 && m1 == m2 && d1 == d2
  {
    TwoDigitsValue(m1 + 1);
    TwoDigitsValue(m2 + 1);
    TwoDigitsValue(d1);
    TwoDigitsValue(d2);
    KeyPieces(IntToString(y1), TwoDigits(m1 + 1), TwoDigits(d1),
              IntToString(y2), TwoDigits(m2 + 1), TwoDigits(d2));
    IntToStringInjective(y1, y2);
  }

  /** A four-digit number prints as four characters. */
  lemma FourDigits(y: nat)
    requires 1000 <= y <= 9999
    ensures |NatToString(y)| == 4
  {
    assert |NatToString(y / 1000)| == 1;
    assert NatToString(y / 100) == NatToString(y / 1000) + [DigitChar(y / 100 % 10)];
    assert NatToString(y / 10) == NatToString(y / 100) + [DigitChar(y / 10 % 10)];
  }

  /** Four digits, two digits and two digits joined by '-' make a well-formed
      date string whose fields are those pieces. */
  lemma JoinedDatePieces(y: string, m: string, d: string)
    requires |y| == 4 && |m| == 2 && |d| == 2 && AllDigits(y) && AllDigits(m) && AllDigits(d)
    ensures var k := y + "-" + m + "-" + d;
      Dates.WellFormedDate(k) && k[0..4] == y && k[5..7] == m && k[8..10] == d
  {
    var k := y + "-" + m + "-" + d;
    assert k[0..4] == y && k[4] == '-';
    assert k[5..7] == m && k[7] == '-';
    assert k[8..10] == d;
  }

  /** For a four-digit year the key is a well-formed date string which names the
      year, the month counted from 1 and the day it was built from. */
  lemma DateKeyWellFormed(year: int, month: nat, day: nat)
    requires 1000 <= year <= 9999 && month < 12 && day < 100
    ensures var k := DateKey(year, month, day);
      && Dates.WellFormedDate(k)
      && Dates.Year(k) == year && Dates.Month(k) == month + 1 && Dates.Day(k) == day
  {
    FourDigits(year);
    TwoDigitsValue(month + 1);
    TwoDigitsValue(day);
    ParseNatToString(year);
    var y, m, d := NatToString(year), TwoDigits(month + 1), TwoDigits(day);
    assert DateKey(year, month, day) == y + "-" + m + "-" + d;
    JoinedDatePieces(y, m, d);
  }

  // ---------------------------------------------------------------------------
  // events of a day

  /** The predicate "the event is on date `key`". */
  function OnDate(key: string): CalendarEvent -> bool {
    (e: CalendarEvent) => e.date == key
  }

  /** `getEventsForDate(day)` for the month `month` of `year`. */
  function EventsForDate(events: seq<CalendarEvent>, year: int, month: nat, day: nat): (r: seq<CalendarEvent>)
    requires month < 12
    ensures forall e :: e in r <==> e in events && e.date == DateKey(year, month, day)
    ensures forall i :: 0 <= i < |r| ==> r[i].date == DateKey(year, month, day)
  {
    Filter(events, OnDate(DateKey(year, month, day)))
  }

  /** An event with a well-formed date is listed in a day's cell exactly when its
      date names that day. */
  lemma EventInItsDayCell(events: seq<CalendarEvent>, e: CalendarEvent, year: int, month: nat, day: nat)
    requires e in events && Dates.WellFormedDate(e.date)
    requires 1000 <= year <= 9999 && month < 12 && day < 100
    ensures e in EventsForDate(events, year, month, day) <==>
      Dates.Year(e.date) == year && Dates.Month(e.date) == month + 1 && Dates.Day(e.date) == day
  {
    var k := DateKey(year, month, day);
    DateKeyWellFormed(year, month, day);
    Dates.StringOrderIsCalendarOrder(e.date, k);
  }

  /** `dayEvents.slice(0, 3)`: the events drawn in the cell. */
  function ShownEvents(dayEvents: seq<CalendarEvent>): (r: seq<CalendarEvent>)
    ensures |r| == if |dayEvents| < 3 then |dayEvents| else 3
    ensures r == dayEvents[..|r|]
  {
    if |dayEvents| < 3 then dayEvents else dayEvents[..3]
  }

  /** The "+k more" line under the drawn events, when there is one. */
  function MoreLabel(dayEvents: seq<CalendarEvent>): Option<string>
  {
    if |dayEvents| > 3 then Some("+" + NatToString(|dayEvents| - 3) + " more") else None
  }

  /** A cell accounts for every event of its day: the drawn ones, and the
      number the "more" line states, which appears exactly when more than
      three events fall on the day. */
  lemma CellAccountsForAllEvents(dayEvents: seq<CalendarEvent>)
    ensures MoreLabel(dayEvents).Some? <==> |dayEvents| > 3
    ensures MoreLabel(dayEvents).None? ==> ShownEvents(dayEvents) == dayEvents
    ensures MoreLabel(dayEvents).Some? ==>
      var line := MoreLabel(dayEvents).value;
      && line[..1] == "+" && line[|line| - 5..] == " more"
      && AllDigits(line[1..|line| - 5])
      && |ShownEvents(dayEvents)| + ParseDigits(line[1..|line| - 5]) == |dayEvents|
  {
    if |dayEvents| > 3 {
      var line := MoreLabel(dayEvents).value;
      var digits := NatToString(|dayEvents| - 3);
      assert line[1..|line| - 5] == digits;
      ParseNatToString(|dayEvents| - 3);
    }
  }

  // ---------------------------------------------------------------------------
  // the page state

  /** `s` is a well-formed date string naming day `day` of month index `month`
      (0 for January) of `year`. */
  predicate NamesDay(s: string, year: int, month: nat, day: nat) {
    Dates.WellFormedDate(s) && Dates.Year(s) == year && Dates.Month(s) == month + 1 && Dates.Day(s) == day
  }

  /** For a four-digit year, the key of a day is the only well-formed date
      string naming that day. */
  lemma KeyIsOnlyNameOfDay(year: int, month: nat, day: nat)
    requires month < 12
    ensures 1000 <= year <= 9999 && day < 100 ==>
      forall k :: NamesDay(k, year, month, day) <==> k == DateKey(year, month, day)
  {
    if 1000 <= year <= 9999 && day < 100 {
      var key := DateKey(year, month, day);
      DateKeyWellFormed(year, month, day);
      forall k | NamesDay(k, year, month, day) ensures k == key {
        Dates.StringOrderIsCalendarOrder(k, key);
      }
    }
  }

  /** `isDateUnavailable(day)` for the month shown. */
  predicate IsDateUnavailable(unavailableDates: seq<string>, year: int, month: nat, day: nat)
    requires month < 12
  {
    DateKey(year, month, day) in unavailableDates
  }

  /** For a four-digit year, a day is marked unavailable exactly when the list
      holds a date string naming that day. */
  lemma UnavailableExactlyWhenListed(unavailableDates: seq<string>, year: int, month: nat, day: nat)
    requires 1000 <= year <= 9999 && month < 12 && day < 100
    ensures IsDateUnavailable(unavailableDates, year, month, day) <==>
      exists k :: k in unavailableDates && NamesDay(k, year, month, day)
  {
    KeyIsOnlyNameOfDay(year, month, day);
    DateKeyWellFormed(year, month, day);
  }

  /** Clicking a day flips whether that day shows as unavailable and leaves every
      other day of every month as it was. */
  lemma ClickFlipsOnlyThatDay(dates: seq<string>, year: int, month: nat, day: nat,
                              y: int, m: nat, d: nat)
    requires month < 12 && day < 100 && m < 12 && d < 100
    ensures var after := ToggleDay(dates, DateKey(year, month, day));
      if y == year && m == month && d == day
      then IsDateUnavailable(after, y, m, d) == !IsDateUnavailable(dates, y, m, d)
      else IsDateUnavailable(after, y, m, d) == IsDateUnavailable(dates, y, m, d)
  {
    if DateKey(y, m, d) == DateKey(year, month, day) {
      DateKeyInjective(y, m, d, year, month, day);
    }
  }

  /** The calendar page: the month shown and the unavailable dates. */
  class CalendarView {
    const events: seq<CalendarEvent>
    var year: int
    var month: nat
    var unavailableDates: seq<string>

    /** The month index is one the date library produces. */
    ghost predicate Valid()
      reads this
    {
      month < 12
    }

    /** The page opens on the month of `today` with no date marked. */
    constructor (events: seq<CalendarEvent>, year: int, month: nat)
      requires month < 12
      ensures this.events == events && this.year == year && this.month == month
      ensures unavailableDates == []
      ensures Valid()
    {
      this.events := events;
      this.year := year;
      this.month := month;
      unavailableDates := [];
    }

    /** `getEventsForDate(day)`: the events of `day` in the month shown. */
    function GetEventsForDate(day: nat): (r: seq<CalendarEvent>)
      requires Valid()
      reads this
      ensures forall e :: e in r <==> e in events && e.date == DateKey(year, month, day)
    {
      EventsForDate(events, year, month, day)
    }

    /** `toggleDayAvailability(dateString)`. */
    method ToggleDayAvailability(dateString: string)
      modifies this`unavailableDates
      ensures unavailableDates == ToggleDay(old(unavailableDates), dateString)
    {
      if dateString in unavailableDates {
        unavailableDates := RemoveAll(unavailableDates, dateString);
      } else {
        unavailableDates := unavailableDates + [dateString];
      }
    }

    /** The click handler of the cell of `day`: the key it toggles is the one
        `isDateUnavailable` reads, so the cell's state flips. */
    method ClickDay(day: nat)
      requires Valid() && day < 100
      modifies this`unavailableDates
      ensures unavailableDates == ToggleDay(old(unavailableDates), DateKey(year, month, day))
      ensures IsDateUnavailable(unavailableDates, year, month, day)
        == !IsDateUnavailable(old(unavailableDates), year, month, day)
    {
      var dateString := DateKey(year, month, day);
      ToggleDayAvailability(dateString);
    }
  }
}
