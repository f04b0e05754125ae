/** Calendar dates of the proleptic Gregorian calendar (section 3.2.1 of ISO 8601:2004), years 1 to 9999.

Dates compare by an ordinal that only orders them; day numbers count days and carry the arithmetic. */
module Calendar {
  import opened Wrappers

  datatype Date = Date(year: int, month: int, day: int)

  const LAST_YEAR := 9999

  predicate Leap(year: int) {
    year % 4 == 0 && (year % 100 != 0 || year % 400 == 0)
  }

  function DaysInMonth(year: int, month: int): (n: int)
    ensures 28 <= n <= 31
  {
    if month == 2 then (if Leap(year) then 29 else 28)
    else if month == 4 || month == 6 || month == 9 || month == 11 then 30
    else 31
  }

  predicate Valid(d: Date) {
    1 <= d.year <= LAST_YEAR && 1 <= d.month <= 12 && 1 <= d.day <= DaysInMonth(d.year, d.month)
  }

  function NewDate(year: int, month: int, day: int): Option<Date> {
    if Valid(Date(year, month, day)) then Some(Date(year, month, day)) else None
  }

  // Order -----------------------------------------------------------------------------------------------

  function Ordinal(d: Date): int {
    d.year * 10000 + d.month * 100 + d.day
  }

  predicate Before(a: Date, b: Date) {
    Ordinal(a) < Ordinal(b)
  }

  predicate AtMost(a: Date, b: Date) {
    Ordinal(a) <= Ordinal(b)
  }

  function Later(a: Date, b: Date): Date {
    if AtMost(b, a) then a else b
  }

  function Earlier(a: Date, b: Date): Date {
    if AtMost(a, b) then a else b
  }

  function MonthStart(d: Date): Date {
    Date(d.year, d.month, 1)
  }

  function MonthEnd(d: Date): Date {
    Date(d.year, d.month, DaysInMonth(d.year, d.month))
  }

  function YearStart(d: Date): Date {
    Date(d.year, 1, 1)
  }

  function YearEnd(d: Date): Date {
    Date(d.year, 12, 31)
  }

  // Day numbers -------------------------------------------------------------------------------------------

  /** Days before the year, counted from January 1 of year 1. */
  function DaysBeforeYear(year: int): int {
    var y := year - 1;
    365 * y + y / 4 - y / 100 + y / 400
  }

  function DaysBeforeMonth(year: int, month: int): int
    decreases month
  {
    if month <= 1 then 0 else DaysBeforeMonth(year, month - 1) + DaysInMonth(year, month - 1)
  }

  function DayNumber(d: Date): int {
    DaysBeforeYear(d.year) + DaysBeforeMonth(d.year, d.month) + d.day
  }

  function DaysBetween(start: Date, end: Date): int {
    DayNumber(end) - DayNumber(start)
  }

  function DaysInYear(year: int): int {
    if Leap(year) then 366 else 365
  }

  lemma MonthTable(year: int)
    ensures DaysBeforeMonth(year, 1) == 0
    ensures DaysBeforeMonth(year, 12) + 31 == DaysInYear(year)
  {
    assert DaysBeforeMonth(year, 4) == DaysInYear(year) - 275;
    assert DaysBeforeMonth(year, 8) == DaysInYear(year) - 153;
    assert DaysBeforeMonth(year, 12) == DaysInYear(year) - 31;
  }

  lemma NextYear(year: int)
    requires year >= 1
    ensures DaysBeforeYear(year + 1) == DaysBeforeYear(year) + DaysInYear(year)
  {
    var y := year - 1;
    assert (y + 1) / 4 == y / 4 + (if year % 4 == 0 then 1 else 0);
    assert (y + 1) / 100 == y / 100 + (if year % 100 == 0 then 1 else 0);
    assert (y + 1) / 400 == y / 400 + (if year % 400 == 0 then 1 else 0);
  }

  function NextDay(d: Date): Option<Date> {
    if d.day < DaysInMonth(d.year, d.month) then Some(Date(d.year, d.month, d.day + 1))
    else if d.month < 12 then Some(Date(d.year, d.month + 1, 1))
    else if d.year < LAST_YEAR then Some(Date(d.year + 1, 1, 1))
    else None
  }

  function PreviousDay(d: Date): Option<Date> {
    if d.day > 1 then Some(Date(d.year, d.month, d.day - 1))
    else if d.month > 1 then Some(Date(d.year, d.month - 1, DaysInMonth(d.year, d.month - 1)))
    else if d.year > 1 then Some(Date(d.year - 1, 12, 31))
    else None
  }

  /** Adds calendar days without leaving the supported years. */
  function AddDays(d: Date, delta: int): Option<Date>
    decreases if delta < 0 then -delta else delta
  {
    if delta == 0 then Some(d)
    else if delta > 0 then
      var next := NextDay(d);
      if next.None? then None else AddDays(next.value, delta - 1)
    else
      var previous := PreviousDay(d);
      if previous.None? then None else AddDays(previous.value, delta + 1)
  }

  const LAST_DAY := Date(LAST_YEAR, 12, 31)

  lemma NextDayNumber(d: Date)
    requires Valid(d)
    ensures NextDay(d).None? <==> d == LAST_DAY
    ensures NextDay(d).Some? ==> Valid(NextDay(d).value) && DayNumber(NextDay(d).value) == DayNumber(d) + 1
    ensures NextDay(d).Some? ==> Before(d, NextDay(d).value)
  {
    NextDayValid(d);
    hide DaysBeforeYear, DaysInYear, DaysBeforeMonth, DaysInMonth, Leap;
    if d.day < DaysInMonth(d.year, d.month) {
    } else if d.month < 12 {
      NextMonth(d.year, d.month);
    } else {
      NextYear(d.year);
      MonthTable(d.year);
      MonthTable(d.year + 1);
    }
  }

  lemma NextDayValid(d: Date)
    requires Valid(d)
    ensures NextDay(d).None? <==> d == LAST_DAY
    ensures NextDay(d).Some? ==> Valid(NextDay(d).value) && Before(d, NextDay(d).value)
    ensures d.day >= DaysInMonth(d.year, d.month) ==>
        d.day == DaysInMonth(d.year, d.month) && (d.month == 12 ==> d.day == 31)
  {
  }

  lemma NextMonth(year: int, month: int)
    requires month >= 1
    ensures DaysBeforeMonth(year, month + 1) == DaysBeforeMonth(year, month) + DaysInMonth(year, month)
  {
  }

  lemma PreviousDayNumber(d: Date)
    requires Valid(d)
    ensures PreviousDay(d).None? <==> d == Date(1, 1, 1)
    ensures PreviousDay(d).Some? ==> Valid(PreviousDay(d).value) && DayNumber(PreviousDay(d).value) == DayNumber(d) - 1
  {
    if PreviousDay(d).Some? {
      PreviousIsBefore(d);
      NextDayNumber(PreviousDay(d).value);
      hide DayNumber, NextDay;
    }
  }

  lemma PreviousIsBefore(d: Date)
    requires Valid(d) && PreviousDay(d).Some?
    ensures Valid(PreviousDay(d).value) && NextDay(PreviousDay(d).value) == Some(d)
  {
  }

  lemma {:induction false} MonthsGrow(year: int, a: int, b: int)
    requires 1 <= a <= b <= 12
    ensures DaysBeforeMonth(year, a) + (if a < b then DaysInMonth(year, a) else 0) <= DaysBeforeMonth(year, b)
    decreases b
  {
    if a < b {
      MonthsGrow(year, a, b - 1);
    }
  }

  lemma {:induction false} YearsGrow(a: int, b: int)
    requires 1 <= a <= b
    ensures DaysBeforeYear(a) + (if a < b then DaysInYear(a) else 0) <= DaysBeforeYear(b)
    decreases b
  {
    if a < b {
      YearsGrow(a, b - 1);
      NextYear(b - 1);
    }
  }

  lemma WithinYear(d: Date)
    requires Valid(d)
    ensures 1 <= DayNumber(d) - DaysBeforeYear(d.year) <= DaysInYear(d.year)
  {
    MonthsGrow(d.year, 1, d.month);
    MonthsGrow(d.year, d.month, 12);
    MonthTable(d.year);
  }

  lemma OrdinalCompares(a: Date, b: Date)
    requires Valid(a) && Valid(b)
    ensures Before(a, b) <==>
            a.year < b.year || (a.year == b.year && (a.month < b.month || (a.month == b.month && a.day < b.day)))
    ensures Ordinal(a) == Ordinal(b) ==> a == b
  {
  }

  /** The ordinal orders dates as their day numbers do, so equal day numbers mean equal dates. */
  lemma DayNumberOrders(a: Date, b: Date)
    requires Valid(a) && Valid(b)
    ensures Before(a, b) <==> DayNumber(a) < DayNumber(b)
    ensures DayNumber(a) == DayNumber(b) ==> a == b
  {
    OrdinalCompares(a, b);
    OrdinalCompares(b, a);
    if Before(a, b) {
      DayNumberGrows(a, b);
    } else if Before(b, a) {
      DayNumberGrows(b, a);
    }
  }

  lemma DayNumberGrows(a: Date, b: Date)
    requires Valid(a) && Valid(b) && Before(a, b)
    ensures DayNumber(a) < DayNumber(b)
  {
    OrdinalCompares(a, b);
    WithinYear(a);
    WithinYear(b);
    if a.year < b.year {
      YearsGrow(a.year, b.year);
    } else if a.month < b.month {
      MonthsGrow(a.year, a.month, b.month);
    }
  }

  /** Adding days is exact, and fails only when the result would leave years 1 to 9999. */
  lemma {:induction false} AddDaysIsExact(d: Date, delta: int)
    requires Valid(d)
    ensures AddDays(d, delta).Some? <==> 1 <= DayNumber(d) + delta <= DayNumber(LAST_DAY)
    ensures AddDays(d, delta).Some? ==>
        Valid(AddDays(d, delta).value) && DayNumber(AddDays(d, delta).value) == DayNumber(d) + delta
    decreases if delta < 0 then -delta else delta
  {
    hide DayNumber;
    DayNumberRange(d);
    if delta > 0 {
      NextDayNumber(d);
      if NextDay(d).Some? {
        AddDaysIsExact(NextDay(d).value, delta - 1);
      }
    } else if delta < 0 {
      PreviousDayNumber(d);
      if PreviousDay(d).Some? {
        AddDaysIsExact(PreviousDay(d).value, delta + 1);
      }
    }
  }

  lemma DayNumberRange(d: Date)
    requires Valid(d)
    ensures 1 <= DayNumber(d) <= DayNumber(LAST_DAY)
    ensures DayNumber(Date(1, 1, 1)) == 1
  {
    DayNumberOrders(Date(1, 1, 1), d);
    OrdinalCompares(Date(1, 1, 1), d);
    DayNumberOrders(d, LAST_DAY);
    OrdinalCompares(d, LAST_DAY);
    OrdinalCompares(LAST_DAY, d);
  }

  /** Moves by whole months and clamps the day to the target month. */
  function AddMonthsClamped(d: Date, delta: int): Option<Date> {
    var months := d.year * 12 + d.month - 1 + delta;
    var year, month := months / 12, months % 12 + 1;
    if months < 0 || year < 1 || year > LAST_YEAR then None
    else Some(Date(year, month, if d.day <= DaysInMonth(year, month) then d.day else DaysInMonth(year, month)))
  }

  function MonthIndex(d: Date): int {
    d.year * 12 + d.month - 1
  }

  /** The result lies in the right month, on the day or the month's last day, and is missing exactly when the
  month lies outside years 1 to 9999. */
  lemma AddMonthsIsExact(d: Date, delta: int)
    requires Valid(d)
    ensures AddMonthsClamped(d, delta).Some? <==> 12 <= MonthIndex(d) + delta < 12 * (LAST_YEAR + 1)
    ensures AddMonthsClamped(d, delta).Some? ==>
              Valid(AddMonthsClamped(d, delta).value)
                  && MonthIndex(AddMonthsClamped(d, delta).value) == MonthIndex(d) + delta
    ensures AddMonthsClamped(d, delta).Some? && d.day == 1 ==> AddMonthsClamped(d, delta).value.day == 1
    ensures AddMonthsClamped(d, delta).Some? ==>
              var r := AddMonthsClamped(d, delta).value;
              r.day == d.day || (r.day < d.day && r == MonthEnd(r))
  {
  }

  lemma MonthBoundsOrdered(d: Date)
    requires Valid(d)
    ensures Valid(MonthStart(d)) && Valid(MonthEnd(d)) && Valid(YearStart(d)) && Valid(YearEnd(d))
    ensures AtMost(MonthStart(d), d) && AtMost(d, MonthEnd(d)) && AtMost(YearStart(d), d) && AtMost(d, YearEnd(d))
  {
  }
}
