/** The ranges of a view in days: what each scope is compared with, which days a heatmap draws, and which columns
a chart, a trend and a Time grouping have. */
module RangeLaws {
  import opened Wrappers
  import opened Calendar
  import opened Periods
  import opened PeriodRanges

  function Days(r: Range): int {
    DayNumber(r.end) - DayNumber(r.start) + 1
  }

  /** The days of exactly one calendar month. */
  predicate WholeMonth(r: Range) {
    r.start == Date(r.start.year, r.start.month, 1)
    && r.end == Date(r.start.year, r.start.month, DaysInMonth(r.start.year, r.start.month))
  }

  predicate WholeYear(r: Range) {
    r.start == Date(r.start.year, 1, 1) && r.end == Date(r.start.year, 12, 31)
  }

  /** The lengths of the months, by the calendar's own table. */
  lemma MonthLengths(year: int)
    ensures forall month :: month in {1, 3, 5, 7, 8, 10, 12} ==> DaysInMonth(year, month) == 31
    ensures forall month :: month in {4, 6, 9, 11} ==> DaysInMonth(year, month) == 30
    ensures DaysInMonth(year, 2) == 28 || (DaysInMonth(year, 2) == 29 && year % 4 == 0)
    ensures year % 4 == 0 && year % 100 != 0 ==> DaysInMonth(year, 2) == 29
    ensures year % 100 == 0 ==> (DaysInMonth(year, 2) == 29 <==> year % 400 == 0)
  {
  }

  /** Scopes are one day, one whole month, one whole year, any other range, or all time. */
  lemma ScopeKinds(scope: Option<Range>)
    requires scope.Some? ==> ValidRange(scope.value)
    ensures
      var kind := ClassifyScope(scope);
      && (kind == AllScope <==> scope.None?)
      && (kind == DayScope <==> scope.Some? && scope.value.start == scope.value.end)
      && (kind == MonthScope <==> scope.Some? && WholeMonth(scope.value))
      && (kind == YearScope <==> scope.Some? && WholeYear(scope.value))
  {
  }

  // Comparison --------------------------------------------------------------------------------------------------

  /** Today lies in the scope, and the scope goes on after today. */
  predicate InProgress(scope: Range, today: Date) {
    DayNumber(scope.start) <= DayNumber(today) < DayNumber(scope.end)
  }

  lemma InProgressInDates(scope: Range, today: Date)
    requires ValidRange(scope) && Valid(today)
    ensures InProgress(scope, today) <==> Contains(scope, today) && today != scope.end
  {
    DayNumberOrders(today, scope.start);
    DayNumberOrders(today, scope.end);
    DayNumberOrders(scope.end, today);
    OrdinalCompares(scope.end, today);
    hide DayNumber, Ordinal;
    OrdinalTotal(today, scope.start);
    OrdinalTotal(scope.end, today);
    hide Before, AtMost;
  }

  lemma NextMonthDay(d: Date)
    requires Valid(d) && d != LAST_DAY && d == MonthEnd(d)
    ensures NextDay(d).Some? && NextDay(d).value.day == 1 && MonthIndex(NextDay(d).value) == MonthIndex(d) + 1
    ensures DayNumber(NextDay(d).value) == DayNumber(d) + 1
  {
    NextDayNumber(d);
    hide DayNumber;
  }

  lemma SameMonthStart(a: Date, b: Date)
    requires Valid(a) && Valid(b) && a.day == 1 && b.day == 1 && MonthIndex(a) == MonthIndex(b)
    ensures a == b
  {
  }

  /** The month before starts on a first, and its last day is the day before. */
  ghost predicate PreviousMonth(start: Date, scope: Range) {
    start.day == 1 && DayNumber(MonthEnd(start)) + 1 == DayNumber(scope.start)
  }

  lemma MonthBefore(d: Date)
    requires Valid(d) && d.day == 1 && AddMonthsClamped(d, -1).Some?
    ensures
      var start := AddMonthsClamped(d, -1).value;
      && Valid(start) && start.day == 1 && DayNumber(MonthEnd(start)) + 1 == DayNumber(d)
      && DayNumber(MonthEnd(start)) == DayNumber(start) + DaysInMonth(start.year, start.month) - 1
  {
    AddMonthsIsExact(d, -1);
    var start := AddMonthsClamped(d, -1).value;
    hide AddMonthsClamped;
    MonthBoundsOrdered(start);
    SameMonthDays(start, DaysInMonth(start.year, start.month));
    hide DayNumber;
    assert MonthEnd(start) != LAST_DAY;
    NextMonthDay(MonthEnd(start));
    NextDayNumber(MonthEnd(start));
    SameMonthStart(NextDay(MonthEnd(start)).value, d);
  }

  function Min(a: int, b: int): int {
    if a < b then a else b
  }

  /** A month is compared with the month before: as long as the month through today, but no longer than the month
  before, while the month is in progress, and the whole month before otherwise. */
  ghost predicate ComparesMonth(scope: Range, today: Date, c: Range) {
    && PreviousMonth(c.start, scope)
    && var length := DaysInMonth(c.start.year, c.start.month);
       if InProgress(scope, today) then Days(c) == Min(Days(Range(scope.start, today)), length)
       else Days(c) == length && c.end == MonthEnd(c.start)
  }

  /** A year is compared with the year before: through the same month and day, or February 28 for February 29,
  while the year is in progress, and the whole year before otherwise. */
  ghost predicate ComparesYear(scope: Range, today: Date, c: Range) {
    && c.start == Date(scope.start.year - 1, 1, 1)
    && if InProgress(scope, today)
       then
         && c.end.year == today.year - 1 == scope.start.year - 1 && c.end.month == today.month
         && c.end.day == if today.month == 2 && today.day == 29 then 28 else today.day
       else c.end == Date(scope.start.year - 1, 12, 31)
  }

  lemma MonthIsComparedWithTheMonthBefore(scope: Range, today: Date)
    requires ValidRange(scope) && Valid(today) && WholeMonth(scope)
    ensures
      var c := MonthComparison(scope, today);
      c.Some? ==> c.value.Some? && ComparesMonth(scope, today, c.value.value)
  {
    hide *;
    InProgressInDates(scope, today);
    if InProgress(scope, today) {
      MonthInProgress(scope, today);
    } else {
      MonthNotInProgress(scope, today);
    }
  }

  lemma MonthNotInProgress(scope: Range, today: Date)
    requires ValidRange(scope) && WholeMonth(scope) && !InProgress(scope, today)
    requires !(Contains(scope, today) && today != scope.end)
    ensures
      var c := MonthComparison(scope, today);
      c.Some? ==> c.value.Some? && ComparesMonth(scope, today, c.value.value)
  {
    if AddMonthsClamped(scope.start, -1).Some? {
      MonthBefore(scope.start);
    }
    hide AddMonthsClamped, InProgress, DayNumber, Valid, Contains, DaysInMonth, AddDays;
  }

  lemma MonthInProgress(scope: Range, today: Date)
    requires ValidRange(scope) && Valid(today) && WholeMonth(scope) && InProgress(scope, today)
    requires Contains(scope, today) && today != scope.end
    ensures
      var c := MonthComparison(scope, today);
      c.Some? ==> c.value.Some? && ComparesMonth(scope, today, c.value.value)
  {
    hide *;
    if MonthComparison(scope, today).Some? {
      var start, last, end := InProgressShape(scope, today);
      MonthStartDay(scope);
      MonthBefore(scope.start);
      DaysThroughToday(scope, today);
      AddDaysIsExact(start, last - 1);
      InProgressCompares(scope, today, start, last, end);
    }
  }

  lemma MonthStartDay(scope: Range)
    requires ValidRange(scope) && WholeMonth(scope)
    ensures Valid(scope.start) && scope.start.day == 1
  {
  }

  lemma InProgressShape(scope: Range, today: Date) returns (start: Date, last: int, end: Date)
    requires Contains(scope, today) && today != scope.end && MonthComparison(scope, today).Some?
    ensures AddMonthsClamped(scope.start, -1) == Some(start) && AddDays(start, last - 1) == Some(end)
    ensures last == Min(today.day, DaysInMonth(start.year, start.month))
    ensures MonthComparison(scope, today) == Some(Some(Range(start, end)))
  {
    hide AddMonthsClamped, AddDays, Contains, DaysInMonth;
    start := AddMonthsClamped(scope.start, -1).value;
    last := if today.day <= MonthEnd(start).day then today.day else MonthEnd(start).day;
    end := AddDays(start, last - 1).value;
  }

  lemma InProgressCompares(scope: Range, today: Date, start: Date, last: int, end: Date)
    requires InProgress(scope, today) && start.day == 1 && DayNumber(MonthEnd(start)) + 1 == DayNumber(scope.start)
    requires last == Min(today.day, DaysInMonth(start.year, start.month))
    requires Days(Range(scope.start, today)) == today.day && DayNumber(end) == DayNumber(start) + last - 1
    ensures ComparesMonth(scope, today, Range(start, end))
  {
    hide DayNumber, InProgress, DaysInMonth;
  }

  lemma DaysThroughToday(scope: Range, today: Date)
    requires ValidRange(scope) && Valid(today) && WholeMonth(scope) && Contains(scope, today)
    ensures Days(Range(scope.start, today)) == today.day
  {
    OrdinalCompares(today, scope.start);
    OrdinalCompares(scope.end, today);
    SameMonthDays(scope.start, today.day);
    hide DayNumber;
  }

  lemma YearIsComparedWithTheYearBefore(scope: Range, today: Date)
    requires ValidRange(scope) && Valid(today) && WholeYear(scope)
    ensures
      var c := YearComparison(scope, today);
      c.Some? ==> c.value.Some? && ComparesYear(scope, today, c.value.value)
  {
    InProgressInDates(scope, today);
    hide InProgress;
    if Contains(scope, today) {
      SameYear(scope.start, today);
    }
    LeapFollowsCommon(today.year);
    hide AtMost;
  }

  lemma LeapFollowsCommon(year: int)
    ensures Leap(year) ==> !Leap(year - 1)
  {
  }

  /** What each scope is compared with: a month and a year as above, a day with the day before, another range with as
  many days right before
  it, and all time with nothing. */
  lemma ComparisonMeans(input: RangeInput)
    requires ValidInput(input) && ComparisonRange(ClassifyScope(input.scope), input).Some?
    ensures
      var kind := ClassifyScope(input.scope);
      var c := ComparisonRange(kind, input).value;
      && (c.None? <==> kind == AllScope)
      && (kind == DayScope ==> Days(c.value) == 1 && DayNumber(c.value.end) + 1 == DayNumber(input.scope.value.start))
      && (kind == CustomScope ==>
            Days(c.value) == Days(input.scope.value)
                && DayNumber(c.value.end) + 1 == DayNumber(input.scope.value.start))
      && (kind == MonthScope ==> ComparesMonth(input.scope.value, input.today, c.value))
      && (kind == YearScope ==> ComparesYear(input.scope.value, input.today, c.value))
  {
    if ClassifyScope(input.scope) == MonthScope {
      MonthIsComparedWithTheMonthBefore(input.scope.value, input.today);
    } else if ClassifyScope(input.scope) == YearScope {
      YearIsComparedWithTheYearBefore(input.scope.value, input.today);
    } else if input.scope.Some? {
      AddDaysIsExact(input.scope.value.start, -1);
      if ClassifyScope(input.scope) == CustomScope {
        AddDaysIsExact(AddDays(input.scope.value.start, -1).value, -DaysBetween(input.scope.value.start,
            input.scope.value.end));
      }
    }
    hide AddDays, DayNumber, Valid, MonthComparison, YearComparison, ComparesMonth, ComparesYear;
  }

  // Heatmap -----------------------------------------------------------------------------------------------------

  /** Whole months from that of one day to that of another. */
  predicate MonthsThrough(r: Range, first: Date, last: Date) {
    r.start == Date(first.year, first.month, 1)
    && r.end == Date(last.year, last.month, DaysInMonth(last.year, last.month))
  }

  /** Fifty-three weeks that end with a day. */
  ghost predicate WeeksThrough(r: Range, last: Date) {
    r.end == last && Days(r) == 53 * 7
  }

  /** The days a heatmap draws: the month of a day or a month, a year itself, the whole months of a range of at
  most 62 days, and 53 weeks that end with a longer range or with the newest transaction; so every heatmap but
  that of a longer range covers its scope. */
  lemma HeatmapMeans(input: RangeInput)
    requires ValidInput(input) && HeatmapRange(ClassifyScope(input.scope), input).Some?
    ensures
      var kind := ClassifyScope(input.scope);
      var h := HeatmapRange(kind, input).value;
      && (h.None? <==> kind == AllScope && input.latest.None?)
      && (h.Some? ==>
            match kind
            case DayScope => MonthsThrough(h.value, input.scope.value.start, input.scope.value.start)
            case MonthScope => h == input.scope
            case YearScope => h == input.scope
            case CustomScope =>
              if Days(input.scope.value) <= 62
              then MonthsThrough(h.value, input.scope.value.start, input.scope.value.end)
              else WeeksThrough(h.value, input.scope.value.end)
            case AllScope => WeeksThrough(h.value, input.latest.value))
      && (h.Some? && input.scope.Some? && (kind != CustomScope || Days(input.scope.value) <= 62) ==>
            Contains(h.value, input.scope.value.start) && Contains(h.value, input.scope.value.end))
  {
    if input.scope.Some? {
      StripMeans(input.scope.value.end);
      MonthBoundsOrdered(input.scope.value.start);
      MonthBoundsOrdered(input.scope.value.end);
      MonthsAtMost(input.scope.value.start, input.scope.value.end);
    }
    if input.latest.Some? {
      StripMeans(input.latest.value);
    }
    hide WeekStrip, DayNumber;
  }

  lemma StripMeans(end: Date)
    requires Valid(end)
    ensures WeekStrip(end).Some? ==> WeekStrip(end).value.Some? && WeeksThrough(WeekStrip(end).value.value, end)
  {
    AddDaysIsExact(end, 1 - HEATMAP_WEEK_DAYS);
    hide AddDays, DayNumber;
  }

  lemma MonthsAtMost(a: Date, b: Date)
    requires Valid(a) && Valid(b) && AtMost(a, b)
    ensures AtMost(MonthStart(a), b) && AtMost(a, MonthEnd(b))
  {
  }

  // Columns ------------------------------------------------------------------------------------------------------

  /** Consecutive periods without gaps, from the period that holds one day to the period that holds another. */
  ghost predicate Columns(periods: seq<PeriodRange>, first: Date, last: Date, g: Granularity) {
    && |periods| > 0
    && periods[0].period == PeriodForDate(first, g) && periods[|periods| - 1].period == PeriodForDate(last, g)
    && (forall i :: 0 <= i < |periods| - 1 ==> DayNumber(periods[i].end) + 1 == DayNumber(periods[i + 1].start))
  }

  lemma EnumeratedColumns(periods: seq<PeriodRange>, bounds: Range, g: Granularity, today: Date)
    requires ValidRange(bounds) && AtMost(bounds.start, bounds.end) && Enumerated(periods, bounds, g, today)
    ensures Columns(periods, bounds.start, bounds.end, g)
    ensures |periods| == Index(PeriodForDate(bounds.end, g)) - Index(PeriodForDate(bounds.start, g)) + 1
  {
    EnumeratedIsFrame(periods, bounds, g, today);
    var ps :| EnumeratedBy(periods, ps, bounds, g, today);
    OrderedBounds(bounds, bounds.start, g);
    hide Index, NextPeriod, Bounds, DayNumber, Frame, NextDay;
    forall i | 0 <= i < |periods| - 1 ensures DayNumber(periods[i].end) + 1 == DayNumber(periods[i + 1].start) {
      NextDayNumber(periods[i].end);
    }
  }

  /** The granularity of a range that is no day, month or year: days up to 62 of them, then months up to 36. */
  function GranularityOf(r: Range): Granularity {
    if Days(r) <= 62 then Day
    else if 12 * r.end.year + r.end.month < 12 * r.start.year + r.start.month + 36 then Month
    else Year
  }

  lemma CustomGranularityMeans(r: Range)
    ensures CustomGranularity(r) == GranularityOf(r)
  {
    hide DayNumber;
  }

  /** Clipped columns: still without gaps, and exactly from the first day to the last. */
  ghost predicate ClippedColumns(periods: seq<PeriodRange>, r: Range, g: Granularity) {
    Columns(periods, r.start, r.end, g) && periods[0].start == r.start && periods[|periods| - 1].end == r.end
  }

  lemma ClippingColumns(whole: seq<PeriodRange>, r: Range, g: Granularity, today: Date)
    requires ValidRange(r) && AtMost(r.start, r.end) && Enumerated(whole, r, g, today)
    ensures ClippedColumns(ClipAll(whole, r), r, g)
  {
    EnumeratedColumns(whole, r, g, today);
    EnumeratedIsFrame(whole, r, g, today);
    EnumeratedOverlaps(whole, r, g, today);
    EndsHoldBounds(whole, r, g, today);
    FirstClips(whole[0], r);
    LastClips(whole[|whole| - 1], r);
    forall i | 0 <= i < |whole| - 1 ensures Before(whole[i].end, whole[i + 1].start) {
    }
    hide Enumerated, DayNumber, NextDay, Valid, Index, ClipAll, Clip, Frame, Before, AtMost, Holds;
    var periods := ClipAll(whole, r);
    forall i | 0 <= i < |whole|
      ensures periods[i].period == whole[i].period
    {
      ClipKeepsPeriod(whole[i], r);
    }
    forall i | 0 <= i < |periods| - 1 ensures DayNumber(periods[i].end) + 1 == DayNumber(periods[i + 1].start) {
      InnerEndsStay(whole[i], whole[i + 1], r);
    }
  }

  lemma ClipKeepsPeriod(p: PeriodRange, r: Range)
    ensures Clip(p, r).period == p.period
  {
  }

  lemma FirstClips(p: PeriodRange, r: Range)
    requires Valid(p.start) && Valid(r.start) && Holds(p, r.start)
    ensures Clip(p, r).start == r.start
  {
    SameDay(p.start, r.start);
  }

  lemma LastClips(p: PeriodRange, r: Range)
    requires Valid(p.end) && Valid(r.end) && Holds(p, r.end)
    ensures Clip(p, r).end == r.end
  {
    SameDay(p.end, r.end);
  }

  lemma SameDay(a: Date, b: Date)
    requires Valid(a) && Valid(b)
    ensures AtMost(a, b) && AtMost(b, a) ==> a == b
  {
    OrdinalCompares(a, b);
  }

  lemma InnerEndsStay(p: PeriodRange, q: PeriodRange, r: Range)
    requires Before(p.end, q.start) && Overlaps(p, r) && Overlaps(q, r)
    ensures Clip(p, r).end == p.end && Clip(q, r).start == q.start
  {
  }

  /** The columns of a chart: the days of a day's month; the thirteen months that end with a month; at most the
  ten years that end with a year, from that of the first transaction; and the clipped columns of another range. */
  ghost predicate ContextColumns(kind: ScopeKind, input: RangeInput, g: Granularity, periods: seq<PeriodRange>)
    requires kind != AllScope && input.scope.Some?
  {
    var scope := input.scope.value;
    match kind
    case DayScope =>
      && g == Day && |periods| == DaysInMonth(scope.start.year, scope.start.month)
      && Columns(periods, MonthStart(scope.start), MonthEnd(scope.start), Day)
    case MonthScope => g == Month && |periods| == 13 && exists first :: Columns(periods, first, scope.end, Month)
    case YearScope =>
      && g == Year && (exists first :: Columns(periods, first, scope.end, Year))
      && |periods| == (if input.first.None? || input.first.value.year >= scope.start.year then 1
                       else Min(10, scope.start.year - input.first.value.year + 1))
    case CustomScope => g == GranularityOf(scope) && ClippedColumns(periods, scope, g)
    case AllScope => true
  }

  lemma ContextMeans(input: RangeInput, g: Granularity, periods: seq<PeriodRange>)
    requires ValidInput(input) && !input.timeGrouping && input.scope.Some?
    requires ContextRight(ClassifyScope(input.scope), input, g, periods)
    ensures ContextColumns(ClassifyScope(input.scope), input, g, periods)
  {
    var kind, scope := ClassifyScope(input.scope), input.scope.value;
    var bounds := ContextBounds(kind, input).value.0;
    var whole :| Enumerated(whole, bounds, g, input.today)
                 && periods == if kind == CustomScope then ClipAll(whole, bounds) else whole;
    hide Enumerated, Columns, DayNumber, ClipAll, ClippedColumns, TimeRowsRight;
    match kind
    case DayScope =>
      MonthBoundsOrdered(scope.start);
      EnumeratedColumns(whole, bounds, Day, input.today);
      DaysOfMonth(scope.start);
    case MonthScope =>
      AddMonthsIsExact(scope.start, 1 - MONTH_CONTEXT_MONTHS);
      EarlierMonth(bounds.start, scope.start);
      EnumeratedColumns(whole, bounds, Month, input.today);
      assert Columns(periods, bounds.start, scope.end, Month);
    case YearScope =>
      EnumeratedColumns(whole, bounds, Year, input.today);
      assert Columns(periods, bounds.start, scope.end, Year);
    case CustomScope =>
      ClippingColumns(whole, scope, g, input.today);
      CustomGranularityMeans(scope);
  }

  lemma DaysOfMonth(d: Date)
    ensures Index(PeriodForDate(MonthEnd(d), Day)) - Index(PeriodForDate(MonthStart(d), Day)) + 1 ==
            DaysInMonth(d.year, d.month)
  {
    SameMonthDays(MonthStart(d), DaysInMonth(d.year, d.month));
    hide DayNumber;
  }

  // Trend and Time rows ------------------------------------------------------------------------------------------

  /** The trend ends with the newest transaction when the scope is all time, with today while the scope is in
  progress, and with the scope otherwise. */
  ghost function LastTrendDay(input: RangeInput): Option<Date> {
    if input.scope.None? then input.latest
    else if InProgress(input.scope.value, input.today) then Some(input.today) else Some(input.scope.value.end)
  }

  /** Twelve months to that of the last day; a month is absent when it ended before the first transaction. */
  lemma TrendMeans(input: RangeInput, periods: seq<PeriodRange>)
    requires ValidInput(input) && TrendRight(input, periods)
    ensures LastTrendDay(input).None? ==> periods == []
    ensures LastTrendDay(input).Some? ==>
      && |periods| == 12 && (exists first :: Columns(periods, first, LastTrendDay(input).value, Month))
      && forall i :: 0 <= i < |periods| ==>
           (periods[i].absent <==> input.first.None? || DayNumber(periods[i].end) < DayNumber(input.first.value))
  {
    if input.scope.Some? {
      InProgressInDates(input.scope.value, input.today);
    }
    var last := TrendLastDay(input);
    assert LastTrendDay(input) == last;
    hide InProgress, DayNumber, AddMonthsClamped;
    if last.Some? {
      var bounds := TrendBounds(last.value).value;
      var whole :| Enumerated(whole, bounds, Month, input.today) && MarkedAll(whole, periods, input.first);
      TrendStart(last.value);
      EnumeratedColumns(whole, bounds, Month, input.today);
      EnumeratedIsFrame(whole, bounds, Month, input.today);
      MarkedMeans(whole, periods, input.first);
      hide Enumerated, Columns, MarkedAll, AtMost, Frame, Valid, NextDay;
      LastMonth(periods, bounds, last.value);
    }
  }

  lemma TrendStart(last: Date)
    requires Valid(last) && TrendBounds(last).Some?
    ensures
      var bounds := TrendBounds(last).value;
      && ValidRange(bounds) && AtMost(bounds.start, bounds.end) && bounds.end == MonthEnd(last)
      && Index(PeriodForDate(bounds.end, Month)) - Index(PeriodForDate(bounds.start, Month)) == 11
  {
    MonthBoundsOrdered(last);
    AddMonthsIsExact(MonthStart(last), 1 - TREND_MONTHS);
    hide AddMonthsClamped;
    EarlierMonth(TrendBounds(last).value.start, MonthEnd(last));
  }

  lemma LastMonth(periods: seq<PeriodRange>, bounds: Range, last: Date)
    requires Columns(periods, bounds.start, bounds.end, Month) && bounds.end == MonthEnd(last)
    ensures exists first :: Columns(periods, first, last, Month)
  {
    hide DayNumber;
    assert Columns(periods, bounds.start, last, Month);
  }

  // Marking absent months changes nothing else.
  lemma MarkedMeans(whole: seq<PeriodRange>, periods: seq<PeriodRange>, first: Option<Date>)
    requires MarkedAll(whole, periods, first) && (first.Some? ==> Valid(first.value))
    requires forall i :: 0 <= i < |whole| ==> Valid(whole[i].end)
    ensures forall start, last :: Columns(whole, start, last, Month) ==> Columns(periods, start, last, Month)
    ensures |periods| == |whole|
    ensures forall i :: 0 <= i < |periods| ==>
      (periods[i].absent <==> first.None? || DayNumber(periods[i].end) < DayNumber(first.value))
  {
    hide DayNumber, Valid;
    forall i | 0 <= i < |periods|
      ensures periods[i].absent <==> first.None? || DayNumber(periods[i].end) < DayNumber(first.value)
    {
      if first.Some? {
        DayNumberOrders(periods[i].end, first.value);
      }
    }
  }

  /** A whole period is partial while it is in progress. */
  lemma PartialWhileInProgress(p: Period, today: Date)
    requires ValidPeriod(p) && Valid(today)
    ensures Bounds(p).Some? && (RangeOf(p, today).partial <==> InProgress(Bounds(p).value, today))
    ensures !RangeOf(p, today).absent
  {
    ValidBounds(p);
    InProgressInDates(Bounds(p).value, today);
    hide Bounds, InProgress;
  }

  /** Clipping marks exactly the periods that it cuts, and what was partial stays so. */
  lemma ClippedArePartial(p: PeriodRange, r: Range)
    requires Valid(p.start) && Valid(p.end) && ValidRange(r) && Overlaps(p, r)
    ensures
      var c := Clip(p, r);
      && c.period == p.period && c.absent == p.absent
      && (c.partial <==> p.partial || c.start != p.start || c.end != p.end)
  {
    OrdinalCompares(p.start, r.start);
    OrdinalCompares(r.end, p.end);
    hide Valid;
  }

  /** The rows of a Time grouping in the scope's own unit: the days of a day or a month and the months of a year,
  through today; the clipped columns of another range; and for all time the months, or for more than sixty
  months the years, from the first to the newest transaction. */
  ghost predicate TimeColumns(kind: ScopeKind, input: RangeInput, g: Granularity, rows: seq<PeriodRange>)
    requires kind != AllScope ==> input.scope.Some?
  {
    match kind
    case CustomScope => g == GranularityOf(input.scope.value) && ClippedColumns(rows, input.scope.value, g)
    case AllScope =>
      if input.first.None? || input.latest.None? then rows == [] && g == Month
      else
        var first, latest := input.first.value, input.latest.value;
        && g == (if 12 * latest.year + latest.month < 12 * first.year + first.month + 60 then Month else Year)
        && (AtMost(first, latest) ==> Columns(rows, first, latest, g))
    case _ =>
      var scope := input.scope.value;
      && g == (if kind == YearScope then Month else Day)
      && Columns(rows, scope.start, if InProgress(scope, input.today) then input.today else scope.end, g)
  }

  lemma TimeRowsMean(input: RangeInput, g: Granularity, rows: seq<PeriodRange>)
    requires ValidInput(input) && input.timeUnit.None?
    requires TimeRowsRight(ClassifyScope(input.scope), input, g, rows)
    ensures TimeColumns(ClassifyScope(input.scope), input, g, rows)
  {
    hide *;
    match ClassifyScope(input.scope)
    case CustomScope => CustomRowsMean(input, g, rows);
    case AllScope => AllRowsMean(input, g, rows);
    case _ => ScopedRowsMean(input, g, rows);
  }

  lemma CustomRowsMean(input: RangeInput, g: Granularity, rows: seq<PeriodRange>)
    requires ValidInput(input) && input.timeUnit.None? && ClassifyScope(input.scope) == CustomScope
    requires TimeRowsRight(CustomScope, input, g, rows)
    ensures TimeColumns(CustomScope, input, g, rows)
  {
    var scope := input.scope.value;
    var whole :| Enumerated(whole, scope, g, input.today) && rows == TimeClipped(whole, scope, true, input);
    CustomGranularityMeans(scope);
    hide Enumerated, Columns, ClipAll, ClippedColumns, CustomGranularity, GranularityOf;
    ClippingColumns(whole, scope, g, input.today);
  }

  lemma AllRowsMean(input: RangeInput, g: Granularity, rows: seq<PeriodRange>)
    requires ValidInput(input) && input.timeUnit.None? && ClassifyScope(input.scope) == AllScope
    requires TimeRowsRight(AllScope, input, g, rows)
    ensures TimeColumns(AllScope, input, g, rows)
  {
    if input.first.Some? && input.latest.Some? {
      var bounds := Range(input.first.value, input.latest.value);
      var whole :| Enumerated(whole, bounds, g, input.today) && rows == TimeClipped(whole, bounds, false, input);
      hide Enumerated, Columns, ClipAll;
      if AtMost(bounds.start, bounds.end) {
        EnumeratedColumns(whole, bounds, g, input.today);
      }
    }
  }

  lemma ScopedRowsMean(input: RangeInput, g: Granularity, rows: seq<PeriodRange>)
    requires ValidInput(input) && input.timeUnit.None?
    requires !ClassifyScope(input.scope).CustomScope? && !ClassifyScope(input.scope).AllScope?
    requires TimeRowsRight(ClassifyScope(input.scope), input, g, rows)
    ensures TimeColumns(ClassifyScope(input.scope), input, g, rows)
  {
    var scope := input.scope.value;
    var bounds := ThroughToday(scope, input.today);
    var whole :| Enumerated(whole, bounds, g, input.today) && rows == TimeClipped(whole, bounds, false, input);
    hide Enumerated, Columns, ClipAll;
    InProgressInDates(scope, input.today);
    ThroughTodayWithin(scope, input.today);
    hide InProgress, DayNumber;
    EnumeratedColumns(whole, bounds, g, input.today);
  }

  /** The ranges that a view resolves to, in days: its comparison, heatmap, chart columns and trend. */
  lemma ResolvedRangesMean(input: RangeInput, r: Ranges)
    requires RangesRight(input, r) && !input.timeGrouping && input.scope.Some?
    ensures r.comparison.Some? && r.heatmap.Some?
    ensures r.kind == MonthScope ==> ComparesMonth(input.scope.value, input.today, r.comparison.value)
    ensures r.kind == YearScope ==> ComparesYear(input.scope.value, input.today, r.comparison.value)
    ensures r.kind == DayScope || r.kind == CustomScope ==>
      Days(r.comparison.value) == Days(input.scope.value)
          && DayNumber(r.comparison.value.end) + 1 == DayNumber(input.scope.value.start)
    ensures ContextColumns(r.kind, input, r.granularity, r.context)
    ensures |r.trend| == 12 && exists first :: Columns(r.trend, first, LastTrendDay(input).value, Month)
  {
    ComparisonMeans(input);
    HeatmapMeans(input);
    ContextMeans(input, r.granularity, r.context);
    TrendMeans(input, r.trend);
    hide DayNumber, ComparisonRange, HeatmapRange, ComparesMonth, ComparesYear, ContextRight, TrendRight, Columns,
         ContextColumns;
  }
}
