/** Dates written as `YYYY-MM-DD`, the form every date string of the pages
    takes, and the fact that lets the report table compare them as strings: on
    strings of that shape, string order is the order of (year, month, day)
    read as numbers. The shape does not check that the month or the day
    exists. */
module Dates {
  import opened Text

  /** Ten characters: four digits, '-', two digits, '-', two digits. */
  predicate WellFormedDate(s: string) {
    && |s| == 10
    && AllDigits(s[0..4]) && s[4] == '-'
    && AllDigits(s[5..7]) && s[7] == '-'
    && AllDigits(s[8..10])
  }

  function Year(s: string): nat
    requires WellFormedDate(s)
  {
    ParseDigits(s[0..4])
  }

  function Month(s: string): nat
    requires WellFormedDate(s)
  {
    ParseDigits(s[5..7])
  }

  function Day(s: string): nat
    requires WellFormedDate(s)
  {
    ParseDigits(s[8..10])
  }

  /** `a` comes before `b` by year, then month, then day. */
  predicate CalendarBefore(a: string, b: string)
    requires WellFormedDate(a) && WellFormedDate(b)
  {
    || Year(a) < Year(b)
    || (Year(a) == Year(b) && Month(a) < Month(b))
    || (Year(a) == Year(b) && Month(a) == Month(b) && Day(a) < Day(b))
  }

  /** String comparison of two well-formed date strings is comparison by year,
      month and day, and two such strings are equal exactly when their three
      numbers are. */
  lemma StringOrderIsCalendarOrder(a: string, b: string)
    requires WellFormedDate(a) && WellFormedDate(b)
    ensures LexLess(a, b) <==> CalendarBefore(a, b)
    ensures a == b <==> (Year(a) == Year(b) && Month(a) == Month(b) && Day(a) == Day(b))
  {
    var ya, yb := a[0..4], b[0..4];
    var ma, mb := a[5..7], b[5..7];
    var da, db := a[8..10], b[8..10];
    LexDigits(ya, yb);
    LexDigits(ma, mb);
    LexDigits(da, db);
    assert a == ya + ([a[4]] + (ma + ([a[7]] + da)));
    assert b == yb + ([b[4]] + (mb + ([b[7]] + db)));
    LexConcat(ya, [a[4]] + (ma + ([a[7]] + da)), yb, [b[4]] + (mb + ([b[7]] + db)));
    LexConcat([a[4]], ma + ([a[7]] + da), [b[4]], mb + ([b[7]] + db));
    LexIrreflexive([a[4]]);
    LexConcat(ma, [a[7]] + da, mb, [b[7]] + db);
    LexConcat([a[7]], da, [b[7]], db);
    LexIrreflexive([a[7]]);
  }
}
