/** Years, months and days as periods: the period of a date, the next period, calendar bounds, and the
enumeration of all periods that overlap a range. */
module Periods {
  import opened Wrappers
  import opened Calendar

  datatype Granularity = Year | Month | Day

  datatype Period = Period(granularity: Granularity, year: int, month: int, day: int)

  datatype Range = Range(start: Date, end: Date)

  /** What query validation accepts: unused fields are zero. */
  predicate ValidPeriod(p: Period) {
    && 1 <= p.year <= LAST_YEAR
    && match p.granularity
       case Year => p.month == 0 && p.day == 0
       case Month => 1 <= p.month <= 12 && p.day == 0
       case Day => Valid(Date(p.year, p.month, p.day))
  }

  predicate ValidRange(r: Range) {
    Valid(r.start) && Valid(r.end)
  }

  predicate Contains(r: Range, d: Date) {
    AtMost(r.start, d) && AtMost(d, r.end)
  }

  function PeriodForDate(d: Date, g: Granularity): Period {
    match g
    case Year => Period(Year, d.year, 0, 0)
    case Month => Period(Month, d.year, d.month, 0)
    case Day => Period(Day, d.year, d.month, d.day)
  }

  /** A drill-down compares a date with a period field by field. */
  predicate MatchesPeriod(d: Date, p: Period) {
    && d.year == p.year
    && (p.granularity == Year || (d.month == p.month && (p.granularity == Month || d.day == p.day)))
  }

  function ComparePeriods(a: Period, b: Period): int {
    if a.year != b.year then (if a.year < b.year then -1 else 1)
    else if a.month != b.month then (if a.month < b.month then -1 else 1)
    else if a.day != b.day then (if a.day < b.day then -1 else 1)
    else 0
  }

  function NextPeriod(p: Period): Option<Period> {
    match p.granularity
    case Year => if p.year == LAST_YEAR then None else Some(p.(year := p.year + 1))
    case Month =>
      if NewDate(p.year, p.month, 1).None? then None
      else if p.month < 12 then Some(Period(Month, p.year, p.month + 1, 0))
      else if p.year + 1 > LAST_YEAR then None
      else Some(Period(Month, p.year + 1, 1, 0))
    case Day =>
      var date := NewDate(p.year, p.month, p.day);
      if date.None? then None
      else
        var next := AddDays(date.value, 1);
        if next.None? then None else Some(PeriodForDate(next.value, Day))
  }

  function Bounds(p: Period): Option<Range> {
    var start := NewDate(p.year, if p.month > 1 then p.month else 1, if p.day > 1 then p.day else 1);
    if start.None? then None
    else
      match p.granularity
      case Year => Some(Range(YearStart(start.value), YearEnd(start.value)))
      case Month => Some(Range(start.value, MonthEnd(start.value)))
      case Day => Some(Range(start.value, start.value))
  }

  // One period -------------------------------------------------------------------------------------------

  lemma ValidBounds(p: Period)
    requires ValidPeriod(p)
    ensures Bounds(p).Some? && ValidRange(Bounds(p).value) && AtMost(Bounds(p).value.start, Bounds(p).value.end)
    ensures PeriodForDate(Bounds(p).value.start, p.granularity) == p
    ensures PeriodForDate(Bounds(p).value.end, p.granularity) == p
  {
  }

  /** A date matches a period field by field exactly when it lies within the period's bounds. */
  lemma MatchingIsContainment(d: Date, p: Period)
    requires Valid(d) && ValidPeriod(p)
    ensures Bounds(p).Some?
    ensures MatchesPeriod(d, p) <==> Contains(Bounds(p).value, d)
  {
    ValidBounds(p);
    var r := Bounds(p).value;
    OrdinalCompares(d, r.start);
    OrdinalCompares(r.end, d);
    hide Ordinal;
    assert Before(d, r.start) <==> !AtMost(r.start, d) by { hide *; OrdinalTotal(d, r.start); }
    assert Before(r.end, d) <==> !AtMost(d, r.end) by { hide *; OrdinalTotal(r.end, d); }
    hide Before, AtMost;
  }

  lemma OrdinalTotal(a: Date, b: Date)
    ensures Before(a, b) <==> !AtMost(b, a)
  {
  }

  lemma PeriodOfDate(d: Date, p: Period)
    requires Valid(d) && ValidPeriod(p)
    ensures ValidPeriod(PeriodForDate(d, p.granularity))
    ensures MatchesPeriod(d, p) <==> PeriodForDate(d, p.granularity) == p
  {
  }

  /** The day after a period's last day is the first day of the next period. */
  lemma NextPeriodFollows(p: Period)
    requires ValidPeriod(p)
    ensures NextPeriod(p).None? <==> Bounds(p).value.end == LAST_DAY
    ensures NextPeriod(p).Some? ==>
              && ValidPeriod(NextPeriod(p).value) && NextPeriod(p).value.granularity == p.granularity
              && NextDay(Bounds(p).value.end) == Some(Bounds(NextPeriod(p).value).value.start)
  {
    hide AddDays;
    ValidBounds(p);
    match p.granularity
    case Year => assert Bounds(p).value.end == Date(p.year, 12, 31);
    case Month => NextMonthFollows(p);
    case Day => NextDayFollows(p);
  }

  lemma NextMonthFollows(p: Period)
    requires ValidPeriod(p) && p.granularity == Month
    ensures NextPeriod(p).None? <==> Bounds(p).value.end == LAST_DAY
    ensures NextPeriod(p).Some? ==>
              && ValidPeriod(NextPeriod(p).value) && NextPeriod(p).value.granularity == Month
              && NextDay(Bounds(p).value.end) == Some(Bounds(NextPeriod(p).value).value.start)
  {
    hide AddDays;
    assert Bounds(p).value.end == Date(p.year, p.month, DaysInMonth(p.year, p.month));
  }

  lemma NextDayFollows(p: Period)
    requires ValidPeriod(p) && p.granularity == Day
    ensures NextPeriod(p).None? <==> Bounds(p).value.end == LAST_DAY
    ensures NextPeriod(p).Some? ==>
              && ValidPeriod(NextPeriod(p).value) && NextPeriod(p).value.granularity == Day
              && NextDay(Bounds(p).value.end) == Some(Bounds(NextPeriod(p).value).value.start)
  {
    hide AddDays, NextDay, DayNumber;
    var d := Date(p.year, p.month, p.day);
    NextDayNumber(d);
    OneDay(d);
    assert Bounds(p).value == Range(d, d);
    assert NextDay(d).Some? ==>
        Bounds(PeriodForDate(NextDay(d).value, Day)) == Some(Range(NextDay(d).value, NextDay(d).value));
  }

  lemma OneDay(d: Date)
    ensures AddDays(d, 1) == NextDay(d)
  {
    if NextDay(d).Some? {
      assert AddDays(NextDay(d).value, 0) == Some(NextDay(d).value);
    }
  }

  /** Counts periods of one granularity. */
  function Index(p: Period): int {
    match p.granularity
    case Year => p.year
    case Month => p.year * 12 + p.month
    case Day => DayNumber(Date(p.year, p.month, p.day))
  }

  lemma IndexOrders(a: Period, b: Period)
    requires ValidPeriod(a) && ValidPeriod(b) && a.granularity == b.granularity
    ensures ComparePeriods(a, b) < 0 <==> Index(a) < Index(b)
    ensures ComparePeriods(a, b) == 0 <==> a == b
    ensures Index(a) == Index(b) ==> a == b
  {
    if a.granularity == Day {
      var x, y := Date(a.year, a.month, a.day), Date(b.year, b.month, b.day);
      DayNumberOrders(x, y);
      OrdinalCompares(x, y);
      hide DayNumber;
    }
  }

  lemma NextIndex(p: Period)
    requires ValidPeriod(p) && NextPeriod(p).Some?
    ensures Index(NextPeriod(p).value) == Index(p) + 1
  {
    NextPeriodFollows(p);
    if p.granularity == Day {
      NextDayNumber(Date(p.year, p.month, p.day));
      hide DayNumber;
    }
  }

  lemma IndexOfDate(a: Date, b: Date, g: Granularity)
    requires Valid(a) && Valid(b) && AtMost(a, b)
    ensures Index(PeriodForDate(a, g)) <= Index(PeriodForDate(b, g))
    ensures ComparePeriods(PeriodForDate(a, g), PeriodForDate(b, g)) <= 0
  {
    OrdinalCompares(a, b);
    OrdinalCompares(b, a);
    DayNumberOrders(b, a);
    hide DayNumber;
  }

  // Enumeration ---------------------------------------------------------------------------------------------

  /** `periods` are the consecutive periods from that of `lo` to that of `hi`. */
  ghost predicate Enumerates(periods: seq<Period>, lo: Date, hi: Date, g: Granularity) {
    var first, last := PeriodForDate(lo, g), PeriodForDate(hi, g);
    if ComparePeriods(first, last) > 0 then periods == []
    else
      && |periods| == Index(last) - Index(first) + 1 > 0
      && periods[0] == first && periods[|periods| - 1] == last
      && (forall i :: 0 <= i < |periods| ==>
            ValidPeriod(periods[i]) && periods[i].granularity == g && Index(periods[i]) == Index(first) + i)
      && (forall i :: 0 <= i < |periods| - 1 ==> NextPeriod(periods[i]) == Some(periods[i + 1]))
  }

  /** Lists every period from that of `minimum` to that of `maximum`; it never fails on valid dates. */
  method PeriodsBetween(minimum: Date, maximum: Date, g: Granularity) returns (r: Option<seq<Period>>)
    requires Valid(minimum) && Valid(maximum)
    ensures r.Some? && Enumerates(r.value, minimum, maximum, g)
  {
    hide Index, Bounds, NextPeriod;
    var current, end := PeriodForDate(minimum, g), PeriodForDate(maximum, g);
    ghost var start := current;
    assert ValidPeriod(start) && ValidPeriod(end);
    var periods := [];
    while ComparePeriods(current, end) <= 0
      invariant ValidPeriod(current) && current.granularity == g
      invariant |periods| > 0 ==> NextPeriod(periods[|periods| - 1]) == Some(current) && periods[0] == start
      invariant |periods| == 0 ==> current == start
      invariant Index(current) == Index(start) + |periods|
      invariant forall i :: 0 <= i < |periods| ==>
        ValidPeriod(periods[i]) && periods[i].granularity == g && Index(periods[i]) == Index(start) + i
      invariant forall i :: 0 <= i < |periods| - 1 ==> NextPeriod(periods[i]) == Some(periods[i + 1])
      invariant |periods| > 0 ==> ComparePeriods(current, end) <= 0
      decreases Index(end) - Index(current)
    {
      IndexOrders(current, end);
      periods := periods + [current];
      if ComparePeriods(current, end) == 0 {
        IndexOrders(start, end);
        return Some(periods);
      }
      var next := NextPeriod(current);
      NotLastPeriod(current, end);
      NextIndex(current);
      NextPeriodFollows(current);
      IndexOrders(next.value, end);
      current := next.value;
    }
    return Some(periods);
  }

  lemma NotLastPeriod(p: Period, end: Period)
    requires ValidPeriod(p) && ValidPeriod(end) && p.granularity == end.granularity && Index(p) < Index(end)
    ensures NextPeriod(p).Some?
  {
    if NextPeriod(p).None? {
      NextPeriodFollows(p);
      LastIsLast(p, end);
    }
  }

  lemma LastIsLast(p: Period, end: Period)
    requires ValidPeriod(p) && ValidPeriod(end) && p.granularity == end.granularity && Bounds(p).value.end == LAST_DAY
    ensures Index(end) <= Index(p)
  {
    hide DayNumber;
    if p.granularity == Day {
      DayNumberRange(Date(end.year, end.month, end.day));
      assert Date(p.year, p.month, p.day) == LAST_DAY;
    } else if p.granularity == Month {
      assert p.month == 12 && p.year == LAST_YEAR;
    }
  }
}
