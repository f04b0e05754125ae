/** The period ranges of one view: chart context, trend, comparison, scope and calendar days.

A frame is an ordered list of non-overlapping periods, as the cross-tab requires; every range resolved
here is one. */
module PeriodRanges {
  import opened Wrappers
  import opened Calendar
  import opened Periods

  datatype PeriodRange = PeriodRange(period: Period, start: Date, end: Date, partial: bool, absent: bool)

  predicate Holds(p: PeriodRange, d: Date) {
    AtMost(p.start, d) && AtMost(d, p.end)
  }

  /** Ordered periods that do not overlap. */
  ghost predicate Frame(periods: seq<PeriodRange>) {
    && (forall i :: 0 <= i < |periods| ==> AtMost(periods[i].start, periods[i].end))
    && (forall i :: 0 <= i < |periods| - 1 ==> Before(periods[i].end, periods[i + 1].start))
  }

  /** The cross-tab's check of a frame. */
  method ValidatePeriods(periods: seq<PeriodRange>) returns (ok: bool)
    ensures ok <==> Frame(periods)
  {
    for i := 0 to |periods|
      invariant forall k :: 0 <= k < i ==> AtMost(periods[k].start, periods[k].end)
      invariant forall k :: 0 <= k < i - 1 ==> Before(periods[k].end, periods[k + 1].start)
    {
      if !AtMost(periods[i].start, periods[i].end) {
        return false;
      }
      if i > 0 && !Before(periods[i - 1].end, periods[i].start) {
        assert !Before(periods[i - 1].end, periods[i - 1 + 1].start);
        return false;
      }
    }
    return true;
  }

  lemma {:induction false} FrameOrdered(periods: seq<PeriodRange>, i: nat, j: nat)
    requires Frame(periods) && i < j < |periods|
    ensures Before(periods[i].end, periods[j].start)
    decreases j
  {
    if i < j - 1 {
      FrameOrdered(periods, i, j - 1);
    }
    assert Before(periods[j - 1].end, periods[j - 1 + 1].start);
  }

  /** A date lies in at most one period of a frame. */
  lemma FrameIsDisjoint(periods: seq<PeriodRange>, i: nat, j: nat, d: Date)
    requires Frame(periods) && i < |periods| && j < |periods|
    requires Holds(periods[i], d) && Holds(periods[j], d)
    ensures i == j
  {
    if i < j {
      FrameOrdered(periods, i, j);
    } else if j < i {
      FrameOrdered(periods, j, i);
    }
  }

  // Enumerating and clipping ---------------------------------------------------------------------------

  function RangeOf(p: Period, today: Date): PeriodRange
    requires Bounds(p).Some?
  {
    var r := Bounds(p).value;
    PeriodRange(p, r.start, r.end, Contains(r, today) && today != r.end, false)
  }

  function Clip(p: PeriodRange, bounds: Range): PeriodRange {
    if AtMost(bounds.start, p.start) && AtMost(p.end, bounds.end) then p
    else p.(start := Later(p.start, bounds.start), end := Earlier(p.end, bounds.end), partial := true)
  }

  predicate Overlaps(p: PeriodRange, bounds: Range) {
    AtMost(p.start, bounds.end) && AtMost(bounds.start, p.end)
  }

  function ClipAll(periods: seq<PeriodRange>, bounds: Range): (r: seq<PeriodRange>)
    ensures |r| == |periods|
    ensures forall i :: 0 <= i < |periods| ==> r[i] == Clip(periods[i], bounds)
  {
    seq(|periods|, i requires 0 <= i < |periods| => Clip(periods[i], bounds))
  }

  lemma ClipHolds(p: PeriodRange, bounds: Range, d: Date)
    ensures Holds(Clip(p, bounds), d) <==> Holds(p, d) && Contains(bounds, d)
  {
  }

  /** Clipping periods that all overlap the bounds keeps them a frame. */
  lemma ClipKeepsFrame(periods: seq<PeriodRange>, bounds: Range)
    requires Frame(periods) && AtMost(bounds.start, bounds.end)
    requires forall i :: 0 <= i < |periods| ==> Overlaps(periods[i], bounds)
    ensures Frame(ClipAll(periods, bounds))
  {
    hide ClipAll;
    var r := ClipAll(periods, bounds);
    forall i | 0 <= i < |r| - 1 ensures Before(r[i].end, r[i + 1].start) {
      assert Before(periods[i].end, periods[i + 1].start);
    }
  }

  /** Every period of one granularity from that of the first to that of the last day of the bounds. */
  ghost predicate Enumerated(periods: seq<PeriodRange>, bounds: Range, g: Granularity, today: Date) {
    exists ps :: EnumeratedBy(periods, ps, bounds, g, today)
  }

  ghost predicate EnumeratedBy(periods: seq<PeriodRange>, ps: seq<Period>, bounds: Range, g: Granularity, today: Date) {
    && Enumerates(ps, bounds.start, bounds.end, g) && |periods| == |ps|
    && forall i :: 0 <= i < |ps| ==> ValidPeriod(ps[i]) && Bounds(ps[i]).Some? && periods[i] == RangeOf(ps[i], today)
  }

  lemma EnumeratedIsFrame(periods: seq<PeriodRange>, bounds: Range, g: Granularity, today: Date)
    requires ValidRange(bounds) && Enumerated(periods, bounds, g, today)
    ensures Frame(periods)
    ensures forall i :: 0 <= i < |periods| - 1 ==> NextDay(periods[i].end) == Some(periods[i + 1].start)
    ensures forall i :: 0 <= i < |periods| ==> Valid(periods[i].start) && Valid(periods[i].end)
  {
    var ps :| EnumeratedBy(periods, ps, bounds, g, today);
    forall i | 0 <= i < |ps|
      ensures AtMost(periods[i].start, periods[i].end) && Valid(periods[i].start) && Valid(periods[i].end)
    {
      ValidBounds(ps[i]);
    }
    forall i | 0 <= i < |periods| - 1
      ensures NextDay(periods[i].end) == Some(periods[i + 1].start) && Before(periods[i].end, periods[i + 1].start)
    {
      hide *;
      ConsecutivePeriods(periods, ps, bounds, g, today, i);
    }
    hide *;
    assert Frame(periods) by { hide NextDay; }
  }

  lemma ConsecutivePeriods(periods: seq<PeriodRange>, ps: seq<Period>, bounds: Range, g: Granularity, today: Date,
    i: nat)
    requires EnumeratedBy(periods, ps, bounds, g, today) && i < |periods| - 1
    ensures NextDay(periods[i].end) == Some(periods[i + 1].start) && Before(periods[i].end, periods[i + 1].start)
  {
    assert NextPeriod(ps[i]) == Some(ps[i + 1]);
    NextPeriodFollows(ps[i]);
    ValidBounds(ps[i]);
    NextDayValid(periods[i].end);
    hide NextPeriod, NextDay, Before, Bounds, Index;
  }

  // The period that holds a date of the bounds.
  lemma PeriodHolding(periods: seq<PeriodRange>, bounds: Range, g: Granularity, today: Date, d: Date) returns (i: nat)
    requires ValidRange(bounds) && Enumerated(periods, bounds, g, today) && Valid(d) && Contains(bounds, d)
    ensures i < |periods| && Holds(periods[i], d) && periods[i].period == PeriodForDate(d, g)
  {
    var ps :| EnumeratedBy(periods, ps, bounds, g, today);
    var p := PeriodForDate(d, g);
    IndexOfDate(bounds.start, d, g);
    IndexOfDate(d, bounds.end, g);
    hide Index, Bounds, NextPeriod, Before, AtMost;
    OrderedBounds(bounds, d, g);
    i := Index(p) - Index(PeriodForDate(bounds.start, g));
    IndexOrders(ps[i], p);
    MatchingIsContainment(d, p);
    PeriodOfDate(d, p);
  }

  lemma OrderedBounds(bounds: Range, d: Date, g: Granularity)
    requires ValidRange(bounds) && Valid(d) && Contains(bounds, d)
    ensures ComparePeriods(PeriodForDate(bounds.start, g), PeriodForDate(bounds.end, g)) <= 0
  {
    IndexOfDate(bounds.start, bounds.end, g);
  }

  lemma EndsHoldBounds(periods: seq<PeriodRange>, bounds: Range, g: Granularity, today: Date)
    requires ValidRange(bounds) && Enumerated(periods, bounds, g, today) && AtMost(bounds.start, bounds.end)
    ensures |periods| > 0 && Holds(periods[0], bounds.start) && Holds(periods[|periods| - 1], bounds.end)
  {
    var ps :| EnumeratedBy(periods, ps, bounds, g, today);
    OrderedBounds(bounds, bounds.start, g);
    hide Index, NextPeriod;
    MatchingIsContainment(bounds.start, ps[0]);
    PeriodOfDate(bounds.start, ps[0]);
    MatchingIsContainment(bounds.end, ps[|ps| - 1]);
    PeriodOfDate(bounds.end, ps[|ps| - 1]);
    hide Bounds;
  }

  lemma EnumeratedOverlaps(periods: seq<PeriodRange>, bounds: Range, g: Granularity, today: Date)
    requires ValidRange(bounds) && Enumerated(periods, bounds, g, today) && AtMost(bounds.start, bounds.end)
    ensures forall i :: 0 <= i < |periods| ==> Overlaps(periods[i], bounds)
  {
    EnumeratedIsFrame(periods, bounds, g, today);
    EndsHoldBounds(periods, bounds, g, today);
    forall i | 0 <= i < |periods| ensures Overlaps(periods[i], bounds) {
      BetweenEnds(periods, bounds, i);
    }
    hide *;
  }

  lemma BetweenEnds(periods: seq<PeriodRange>, bounds: Range, i: nat)
    requires Frame(periods) && i < |periods| && AtMost(bounds.start, bounds.end)
    requires Holds(periods[0], bounds.start) && Holds(periods[|periods| - 1], bounds.end)
    ensures Overlaps(periods[i], bounds)
  {
    if i > 0 {
      FrameOrdered(periods, 0, i);
    }
    if i < |periods| - 1 {
      FrameOrdered(periods, i, |periods| - 1);
    }
    hide Frame;
  }

  ghost predicate Covered(periods: seq<PeriodRange>, d: Date) {
    exists i :: 0 <= i < |periods| && Holds(periods[i], d)
  }

  /** The enumerated periods partition the days from the first start to the last end: every such day is
  in exactly one period, and no other day is in any. */
  lemma EnumerationPartitions(periods: seq<PeriodRange>, bounds: Range, g: Granularity, today: Date, d: Date)
    requires ValidRange(bounds) && Enumerated(periods, bounds, g, today) && AtMost(bounds.start, bounds.end) && Valid(d)
    ensures |periods| > 0
    ensures Covered(periods, d) <==> AtMost(periods[0].start, d) && AtMost(d, periods[|periods| - 1].end)
    ensures forall i, j :: 0 <= i < |periods| && 0 <= j < |periods| && Holds(periods[i], d) && Holds(periods[j], d) ==>
        i == j
  {
    EnumeratedIsFrame(periods, bounds, g, today);
    EndsHoldBounds(periods, bounds, g, today);
    forall i, j | 0 <= i < |periods| && 0 <= j < |periods| && Holds(periods[i], d) && Holds(periods[j], d)
        ensures i == j
    {
      FrameIsDisjoint(periods, i, j, d);
    }
    if AtMost(periods[0].start, d) && AtMost(d, periods[|periods| - 1].end) {
      if Contains(bounds, d) {
        var i := PeriodHolding(periods, bounds, g, today, d);
      } else if AtMost(d, bounds.end) {
        assert Holds(periods[0], d);
      } else {
        assert Holds(periods[|periods| - 1], d);
      }
    }
    if Covered(periods, d) {
      CoveredIsWithin(periods, d);
    }
    hide *;
  }

  lemma CoveredIsWithin(periods: seq<PeriodRange>, d: Date)
    requires Frame(periods) && Valid(d) && Covered(periods, d)
    ensures AtMost(periods[0].start, d) && AtMost(d, periods[|periods| - 1].end)
  {
    var i :| 0 <= i < |periods| && Holds(periods[i], d);
    if i > 0 {
      FrameOrdered(periods, 0, i);
    }
    if i < |periods| - 1 {
      FrameOrdered(periods, i, |periods| - 1);
    }
  }

  /** Clipped periods partition the bounds exactly. */
  lemma ClippedPartitions(periods: seq<PeriodRange>, bounds: Range, g: Granularity, today: Date, d: Date)
    requires ValidRange(bounds) && Enumerated(periods, bounds, g, today) && AtMost(bounds.start, bounds.end) && Valid(d)
    ensures Frame(ClipAll(periods, bounds))
    ensures Covered(ClipAll(periods, bounds), d) <==> Contains(bounds, d)
  {
    EnumeratedIsFrame(periods, bounds, g, today);
    EnumeratedOverlaps(periods, bounds, g, today);
    ClipKeepsFrame(periods, bounds);
    hide Enumerated, Frame, ClipAll;
    if Contains(bounds, d) {
      var i := PeriodHolding(periods, bounds, g, today, d);
      ClipHolds(periods[i], bounds, d);
    } else if Covered(ClipAll(periods, bounds), d) {
      var i :| 0 <= i < |periods| && Holds(ClipAll(periods, bounds)[i], d);
      ClipHolds(periods[i], bounds, d);
    }
  }

  /** Lists every period that overlaps the bounds, clipped to them on request. */
  method EnumeratePeriods(bounds: Range, g: Granularity, today: Date, clip: bool) returns (r: Option<seq<PeriodRange>>)
    requires ValidRange(bounds)
    ensures r.Some?
    ensures !clip ==> Enumerated(r.value, bounds, g, today)
    ensures clip ==> exists whole :: Enumerated(whole, bounds, g, today) && r.value == ClipAll(whole, bounds)
  {
    hide Enumerates, ValidPeriod;
    var periods := PeriodsBetween(bounds.start, bounds.end, g);
    EnumeratedValid(periods.value, bounds, g);
    var result := [];
    ghost var whole := [];
    for i := 0 to |periods.value|
      invariant |result| == |whole| == i
      invariant forall k :: 0 <= k < i ==>
          Bounds(periods.value[k]).Some? && whole[k] == RangeOf(periods.value[k], today)
      invariant forall k :: 0 <= k < i ==> result[k] == if clip then Clip(whole[k], bounds) else whole[k]
    {
      var period := periods.value[i];
      var ends := Bounds(period);
      ValidBounds(period);
      if ends.None? {
        return None;
      }
      var value := PeriodRange(period, ends.value.start, ends.value.end, Contains(ends.value, today)
          && today != ends.value.end, false);
      whole := whole + [value];
      if clip {
        value := Clip(value, bounds);
      }
      result := result + [value];
    }
    assert EnumeratedBy(whole, periods.value, bounds, g, today);
    assert clip ==> result == ClipAll(whole, bounds);
    assert !clip ==> result == whole;
    return Some(result);
  }

  lemma EnumeratedValid(ps: seq<Period>, bounds: Range, g: Granularity)
    requires Enumerates(ps, bounds.start, bounds.end, g)
    ensures forall i :: 0 <= i < |ps| ==> ValidPeriod(ps[i])
  {
    hide ValidPeriod, Index, NextPeriod;
  }

  // The ranges of a view --------------------------------------------------------------------------------

  datatype ScopeKind = DayScope | MonthScope | YearScope | CustomScope | AllScope

  datatype RangeInput = RangeInput(
    scope: Option<Range>, today: Date, first: Option<Date>, latest: Option<Date>,
    timeGrouping: bool, timeUnit: Option<Granularity>)

  datatype Ranges = Ranges(
    kind: ScopeKind, scope: Option<Range>, granularity: Granularity, context: seq<PeriodRange>,
    trend: seq<PeriodRange>, comparison: Option<Range>, heatmap: Option<Range>)

  const TREND_MONTHS := 12
  const MONTH_CONTEXT_MONTHS := 13
  const YEAR_CONTEXT_YEARS := 10
  const CUSTOM_DAY_LIMIT := 62
  const CUSTOM_MONTH_LIMIT := 36
  const ALL_TIME_MONTH_LIMIT := 60
  const HEATMAP_WEEK_DAYS := 371

  ghost predicate ValidInput(input: RangeInput) {
    && Valid(input.today)
    && (input.scope.Some? ==> ValidRange(input.scope.value) && AtMost(input.scope.value.start, input.scope.value.end))
    && (input.first.Some? ==> Valid(input.first.value)) && (input.latest.Some? ==> Valid(input.latest.value))
  }

  function ClassifyScope(scope: Option<Range>): ScopeKind {
    if scope.None? then AllScope
    else
      var r := scope.value;
      if r.start == r.end then DayScope
      else if r.start == MonthStart(r.start) && r.end == MonthEnd(r.start) then MonthScope
      else if r.start == YearStart(r.start) && r.end == YearEnd(r.start) then YearScope
      else CustomScope
  }

  function ThroughToday(scope: Range, today: Date): Range {
    if Contains(scope, today) then scope.(end := today) else scope
  }

  function MonthsSpanned(r: Range): int {
    (r.end.year - r.start.year) * 12 + r.end.month - r.start.month + 1
  }

  function CustomGranularity(scope: Range): Granularity {
    if DaysBetween(scope.start, scope.end) + 1 <= CUSTOM_DAY_LIMIT then Day
    else if MonthsSpanned(scope) <= CUSTOM_MONTH_LIMIT then Month
    else Year
  }

  /** The dates a Time grouping's rows cover, their unit, and whether crossing periods are clipped. */
  function TimeRowBounds(kind: ScopeKind, input: RangeInput): (Option<Range>, Granularity, bool)
    requires kind != AllScope ==> input.scope.Some?
  {
    match kind
    case DayScope => (Some(ThroughToday(input.scope.value, input.today)), Day, false)
    case MonthScope => (Some(ThroughToday(input.scope.value, input.today)), Day, false)
    case YearScope => (Some(ThroughToday(input.scope.value, input.today)), Month, false)
    case CustomScope => (Some(input.scope.value), CustomGranularity(input.scope.value), true)
    case AllScope =>
      if input.first.None? || input.latest.None? then (None, Month, false)
      else
        var bounds := Range(input.first.value, input.latest.value);
        (Some(bounds), if MonthsSpanned(bounds) > ALL_TIME_MONTH_LIMIT then Year else Month, false)
  }

  predicate Within(inner: Range, outer: Range) {
    AtMost(outer.start, inner.start) && AtMost(inner.end, outer.end)
  }

  lemma ThroughTodayWithin(scope: Range, today: Date)
    requires ValidRange(scope) && AtMost(scope.start, scope.end) && Valid(today)
    ensures
      var r := ThroughToday(scope, today);
      ValidRange(r) && AtMost(r.start, r.end) && Within(r, scope)
  {
  }

  // Periods over part of a scope, clipped or not, can be clipped to the whole scope.
  lemma ClippedOverlaps(p: PeriodRange, bounds: Range, scope: Range)
    requires Overlaps(p, bounds) && AtMost(bounds.start, bounds.end) && Within(bounds, scope)
    ensures Overlaps(p, scope) && Overlaps(Clip(p, bounds), scope)
  {
  }

  lemma ReclippedIsFrame(periods: seq<PeriodRange>, bounds: Range, scope: Range, g: Granularity, today: Date)
    requires ValidRange(bounds) && Enumerated(periods, bounds, g, today)
    requires AtMost(bounds.start, bounds.end) && AtMost(scope.start, scope.end) && Within(bounds, scope)
    ensures Frame(ClipAll(periods, scope)) && Frame(ClipAll(periods, bounds))
        && Frame(ClipAll(ClipAll(periods, bounds), scope))
  {
    hide Enumerated, Frame, ClipAll, Clip, Overlaps, AtMost, Within, ValidRange;
    EnumeratedIsFrame(periods, bounds, g, today);
    EnumeratedOverlaps(periods, bounds, g, today);
    forall i | 0 <= i < |periods|
      ensures Overlaps(periods[i], scope) && Overlaps(ClipAll(periods, bounds)[i], scope)
    {
      ClippedOverlaps(periods[i], bounds, scope);
    }
    ClipKeepsFrame(periods, scope);
    ClipKeepsFrame(periods, bounds);
    ClipKeepsFrame(ClipAll(periods, bounds), scope);
  }

  /** Every day of the range is in some period. */
  ghost predicate CoversAll(periods: seq<PeriodRange>, r: Range) {
    forall d :: Valid(d) && Contains(r, d) ==> Covered(periods, d)
  }

  ghost predicate StaysWithin(periods: seq<PeriodRange>, r: Range) {
    forall i :: 0 <= i < |periods| ==> AtMost(r.start, periods[i].start) && AtMost(periods[i].end, r.end)
  }

  lemma EnumeratedCovers(periods: seq<PeriodRange>, bounds: Range, g: Granularity, today: Date, r: Range)
    requires ValidRange(bounds) && Enumerated(periods, bounds, g, today) && Within(r, bounds)
    ensures CoversAll(periods, r)
  {
    hide Enumerated;
    forall d | Valid(d) && Contains(r, d) ensures Covered(periods, d) {
      var i := PeriodHolding(periods, bounds, g, today, d);
    }
  }

  lemma ClipCovers(periods: seq<PeriodRange>, inner: Range, outer: Range)
    requires CoversAll(periods, inner) && Within(inner, outer)
    ensures CoversAll(ClipAll(periods, outer), inner)
  {
    hide ClipAll;
    forall d | Valid(d) && Contains(inner, d) ensures Covered(ClipAll(periods, outer), d) {
      var i :| 0 <= i < |periods| && Holds(periods[i], d);
      ClipHolds(periods[i], outer, d);
    }
  }

  lemma ClipStaysWithin(periods: seq<PeriodRange>, r: Range)
    ensures StaysWithin(ClipAll(periods, r), r)
  {
    hide ClipAll;
  }

  /** Every period of one granularity that overlaps the bounds, clipped to the bounds if asked for, and to
  the scope when a unit was chosen. */
  function TimeClipped(whole: seq<PeriodRange>, bounds: Range, clip: bool, input: RangeInput): seq<PeriodRange> {
    var own := if clip then ClipAll(whole, bounds) else whole;
    if input.timeUnit.None? || input.scope.None? then own else ClipAll(own, input.scope.value)
  }

  ghost predicate TimeRowsRight(kind: ScopeKind, input: RangeInput, g: Granularity, rows: seq<PeriodRange>)
    requires ValidInput(input) && kind == ClassifyScope(input.scope)
  {
    var (bounds, own, clip) := TimeRowBounds(kind, input);
    && g == (if input.timeUnit.Some? then input.timeUnit.value else own)
    && if bounds.None? then rows == []
       else exists whole ::
           Enumerated(whole, bounds.value, g, input.today) && rows == TimeClipped(whole, bounds.value, clip, input)
  }

  /** The rows of a Time grouping, clipped to the scope when the unit was chosen. */
  method TimeRows(kind: ScopeKind, input: RangeInput) returns (r: Option<(Granularity, seq<PeriodRange>)>)
    requires ValidInput(input) && kind == ClassifyScope(input.scope)
    ensures r.Some? && Frame(r.value.1) && TimeRowsRight(kind, input, r.value.0, r.value.1)
    ensures TimeRowBounds(kind, input).0.Some? ==> CoversAll(r.value.1, TimeRowBounds(kind, input).0.value)
    ensures kind == CustomScope || (input.timeUnit.Some? && input.scope.Some?) ==>
        StaysWithin(r.value.1, input.scope.value)
  {
    hide Frame, Enumerated, CoversAll, StaysWithin;
    var (bounds, granularity, clip) := TimeRowBounds(kind, input);
    if input.timeUnit.Some? {
      granularity := input.timeUnit.value;
    }
    if bounds.None? {
      EmptyFrame();
      return Some((granularity, []));
    }
    if input.scope.Some? {
      ThroughTodayWithin(input.scope.value, input.today);
    }
    var periods := EnumeratePeriods(bounds.value, granularity, input.today, clip);
    if periods.None? {
      return None;
    }
    ghost var whole :| Enumerated(whole, bounds.value, granularity, input.today)
                       && periods.value == if clip then ClipAll(whole, bounds.value) else whole;
    EnumeratedIsFrame(whole, bounds.value, granularity, input.today);
    EnumeratedCovers(whole, bounds.value, granularity, input.today, bounds.value);
    if kind != AllScope {
      ReclippedIsFrame(whole, bounds.value, input.scope.value, granularity, input.today);
      ClipCovers(whole, bounds.value, bounds.value);
      ClipCovers(whole, bounds.value, input.scope.value);
      ClipCovers(ClipAll(whole, bounds.value), bounds.value, input.scope.value);
      ClipStaysWithin(whole, bounds.value);
      ClipStaysWithin(periods.value, input.scope.value);
    }
    assert Enumerated(whole, bounds.value, granularity, input.today);
    if input.timeUnit.None? || input.scope.None? {
      assert periods.value == TimeClipped(whole, bounds.value, clip, input);
      return Some((granularity, periods.value));
    }
    var rows := periods.value;
    for i := 0 to |rows|
      invariant |rows| == |periods.value|
      invariant forall k :: 0 <= k < |rows| ==>
          rows[k] == if k < i then Clip(periods.value[k], input.scope.value) else periods.value[k]
    {
      rows := rows[i := Clip(rows[i], input.scope.value)];
    }
    assert rows == ClipAll(periods.value, input.scope.value);
    assert rows == TimeClipped(whole, bounds.value, clip, input);
    return Some((granularity, rows));
  }

  lemma EmptyFrame()
    ensures Frame([])
  {
  }

  // An unclipped enumeration as a frame.
  method Listed(bounds: Range, g: Granularity, today: Date) returns (r: Option<seq<PeriodRange>>)
    requires ValidRange(bounds)
    ensures r.Some? && Frame(r.value) && Enumerated(r.value, bounds, g, today)
  {
    hide Frame, Enumerated;
    r := EnumeratePeriods(bounds, g, today, false);
    EnumeratedIsFrame(r.value, bounds, g, today);
  }

  /** The first year a year's context lists. */
  function FirstContextYear(input: RangeInput): int
    requires input.scope.Some?
  {
    var year := input.scope.value.start.year;
    if input.first.None? then year
    else
      var earliest := if input.first.value.year < year then input.first.value.year else year;
      if earliest > year - YEAR_CONTEXT_YEARS + 1 then earliest else year - YEAR_CONTEXT_YEARS + 1
  }

  /** The days and the granularity of a chart context other than a Time grouping's and all time's. */
  function ContextBounds(kind: ScopeKind, input: RangeInput): Option<(Range, Granularity)>
    requires kind != AllScope && input.scope.Some?
  {
    var scope := input.scope.value;
    match kind
    case DayScope => Some((Range(MonthStart(scope.start), MonthEnd(scope.start)), Day))
    case MonthScope =>
      var first := AddMonthsClamped(scope.start, 1 - MONTH_CONTEXT_MONTHS);
      if first.None? then None else Some((Range(first.value, scope.end), Month))
    case YearScope =>
      var first := NewDate(FirstContextYear(input), 1, 1);
      if first.None? then None else Some((Range(first.value, scope.end), Year))
    case _ => Some((scope, CustomGranularity(scope)))
  }

  ghost predicate ContextRight(kind: ScopeKind, input: RangeInput, g: Granularity, periods: seq<PeriodRange>)
    requires ValidInput(input) && kind == ClassifyScope(input.scope)
  {
    if input.timeGrouping then TimeRowsRight(kind, input, g, periods)
    else if kind == AllScope then TimeRowsRight(kind, input.(timeUnit := None), g, periods)
    else
      var bounds := ContextBounds(kind, input);
      && bounds.Some? && g == bounds.value.1
      && exists whole :: Enumerated(whole, bounds.value.0, g, input.today)
                         && periods == if kind == CustomScope then ClipAll(whole, bounds.value.0) else whole
  }

  /** The chart columns: they fail only when their first month or year would leave the supported years. */
  method ContextPeriods(kind: ScopeKind, input: RangeInput) returns (r: Option<(Granularity, seq<PeriodRange>)>)
    requires ValidInput(input) && kind == ClassifyScope(input.scope)
    ensures r.None? <==> !input.timeGrouping && kind != AllScope && ContextBounds(kind, input).None?
    ensures r.Some? ==> Frame(r.value.1) && ContextRight(kind, input, r.value.0, r.value.1)
    ensures r.Some? && !input.timeGrouping && kind != AllScope ==> CoversAll(r.value.1, input.scope.value)
    ensures r.Some? && !input.timeGrouping && kind == CustomScope ==> StaysWithin(r.value.1, input.scope.value)
  {
    hide Frame, Enumerated, CoversAll, StaysWithin;
    if input.timeGrouping {
      r := TimeRows(kind, input);
      return;
    }
    match kind
    case DayScope =>
      var start := input.scope.value.start;
      MonthBoundsOrdered(start);
      var periods := Listed(Range(MonthStart(start), MonthEnd(start)), Day, input.today);
      EnumeratedCovers(periods.value, Range(MonthStart(start), MonthEnd(start)), Day, input.today, input.scope.value);
      return Some((Day, periods.value));
    case MonthScope =>
      var first := AddMonthsClamped(input.scope.value.start, 1 - MONTH_CONTEXT_MONTHS);
      if first.None? {
        return None;
      }
      AddMonthsIsExact(input.scope.value.start, 1 - MONTH_CONTEXT_MONTHS);
      var periods := Listed(Range(first.value, input.scope.value.end), Month, input.today);
      EarlierMonth(first.value, input.scope.value.start);
      EnumeratedCovers(periods.value, Range(first.value, input.scope.value.end), Month, input.today, input.scope.value);
      return Some((Month, periods.value));
    case YearScope =>
      var first := NewDate(FirstContextYear(input), 1, 1);
      if first.None? {
        return None;
      }
      var periods := Listed(Range(first.value, input.scope.value.end), Year, input.today);
      EnumeratedCovers(periods.value, Range(first.value, input.scope.value.end), Year, input.today, input.scope.value);
      return Some((Year, periods.value));
    case CustomScope =>
      var granularity := CustomGranularity(input.scope.value);
      var periods := EnumeratePeriods(input.scope.value, granularity, input.today, true);
      ghost var whole :| Enumerated(whole, input.scope.value, granularity, input.today)
                         && periods.value == ClipAll(whole, input.scope.value);
      ReclippedIsFrame(whole, input.scope.value, input.scope.value, granularity, input.today);
      EnumeratedCovers(whole, input.scope.value, granularity, input.today, input.scope.value);
      ClipCovers(whole, input.scope.value, input.scope.value);
      ClipStaysWithin(whole, input.scope.value);
      return Some((granularity, periods.value));
    case AllScope =>
      r := TimeRows(kind, input.(timeUnit := None));
  }

  lemma EarlierMonth(a: Date, b: Date)
    requires Valid(a) && Valid(b) && MonthIndex(a) < MonthIndex(b)
    ensures AtMost(a, b)
  {
    assert a.year < b.year || (a.year == b.year && a.month < b.month);
    assert a.year < b.year ==> a.year * 10000 + 10000 <= b.year * 10000;
  }

  function TrendLastDay(input: RangeInput): Option<Date> {
    if input.scope.None? then input.latest
    else if Contains(input.scope.value, input.today) && input.today != input.scope.value.end then Some(input.today)
    else Some(input.scope.value.end)
  }

  lemma SameDatesSameFrame(periods: seq<PeriodRange>, marked: seq<PeriodRange>)
    requires Frame(periods) && |marked| == |periods|
    requires forall i :: 0 <= i < |periods| ==> marked[i].start == periods[i].start && marked[i].end == periods[i].end
    ensures Frame(marked)
  {
    forall i | 0 <= i < |marked| - 1 ensures Before(marked[i].end, marked[i + 1].start) {
      assert Before(periods[i].end, periods[i + 1].start);
    }
  }

  /** The months that end with the month of the trend's last day. */
  function TrendBounds(last: Date): Option<Range> {
    var first := AddMonthsClamped(MonthStart(last), 1 - TREND_MONTHS);
    if first.None? then None else Some(Range(first.value, MonthEnd(last)))
  }

  ghost predicate TrendRight(input: RangeInput, periods: seq<PeriodRange>) {
    var last := TrendLastDay(input);
    if last.None? then periods == []
    else
      var bounds := TrendBounds(last.value);
      && bounds.Some? && |periods| == TREND_MONTHS
      && exists whole :: Enumerated(whole, bounds.value, Month, input.today) && MarkedAll(whole, periods, input.first)
  }

  predicate MarkedAll(whole: seq<PeriodRange>, periods: seq<PeriodRange>, first: Option<Date>) {
    |periods| == |whole| && forall i :: 0 <= i < |whole| ==> periods[i] == Marked(whole[i], first)
  }

  /** The twelve months that end with the scope; months before the first transaction are absent. */
  method TrendPeriods(input: RangeInput) returns (r: Option<seq<PeriodRange>>)
    requires ValidInput(input)
    ensures r.None? <==> TrendLastDay(input).Some? && TrendBounds(TrendLastDay(input).value).None?
    ensures r.Some? ==> Frame(r.value) && TrendRight(input, r.value)
  {
    hide Frame, Enumerated, Enumerates;
    var last := TrendLastDay(input);
    if last.None? {
      EmptyFrame();
      return Some([]);
    }
    MonthBoundsOrdered(last.value);
    var first := AddMonthsClamped(MonthStart(last.value), 1 - TREND_MONTHS);
    if first.None? {
      return None;
    }
    AddMonthsIsExact(MonthStart(last.value), 1 - TREND_MONTHS);
    var bounds := Range(first.value, MonthEnd(last.value));
    var periods := Listed(bounds, Month, input.today);
    MonthCount(periods.value, bounds, input.today);
    var marked := periods.value;
    for i := 0 to |marked|
      invariant |marked| == |periods.value|
      invariant forall k :: 0 <= k < |marked| ==>
        marked[k] == if k < i then Marked(periods.value[k], input.first) else periods.value[k]
    {
      marked := marked[i := marked[i].(absent := input.first.None? || Before(marked[i].end, input.first.value))];
    }
    SameDatesSameFrame(periods.value, marked);
    assert MarkedAll(periods.value, marked, input.first);
    return Some(marked);
  }

  function Marked(p: PeriodRange, first: Option<Date>): PeriodRange {
    p.(absent := first.None? || Before(p.end, first.value))
  }

  lemma MonthCount(periods: seq<PeriodRange>, bounds: Range, today: Date)
    requires ValidRange(bounds) && Enumerated(periods, bounds, Month, today)
    requires MonthIndex(bounds.end) == MonthIndex(bounds.start) + TREND_MONTHS - 1
    ensures |periods| == TREND_MONTHS
  {
    var ps :| EnumeratedBy(periods, ps, bounds, Month, today);
    hide NextPeriod, Bounds;
  }

  // Comparison, heatmap and calendar ------------------------------------------------------------------

  /** The comparison range: None when it would leave the supported years. */
  function ComparisonRange(kind: ScopeKind, input: RangeInput): Option<Option<Range>>
    requires kind != AllScope ==> input.scope.Some?
  {
    match kind
    case AllScope => Some(None)
    case DayScope =>
      var previous := AddDays(input.scope.value.start, -1);
      if previous.None? then None else Some(Some(Range(previous.value, previous.value)))
    case MonthScope => MonthComparison(input.scope.value, input.today)
    case YearScope => YearComparison(input.scope.value, input.today)
    case CustomScope =>
      var days := DaysBetween(input.scope.value.start, input.scope.value.end) + 1;
      var end := AddDays(input.scope.value.start, -1);
      if end.None? then None
      else
        var start := AddDays(end.value, 1 - days);
        if start.None? then None else Some(Some(Range(start.value, end.value)))
  }

  function MonthComparison(scope: Range, today: Date): Option<Option<Range>> {
    var start := AddMonthsClamped(scope.start, -1);
    if start.None? then None
    else if !Contains(scope, today) || today == scope.end then Some(Some(Range(start.value, MonthEnd(start.value))))
    else
      var lastDay := if today.day <= MonthEnd(start.value).day then today.day else MonthEnd(start.value).day;
      var end := AddDays(start.value, lastDay - 1);
      if end.None? then None else Some(Some(Range(start.value, end.value)))
  }

  function YearComparison(scope: Range, today: Date): Option<Option<Range>> {
    var start := AddMonthsClamped(scope.start, -12);
    if start.None? then None
    else if !Contains(scope, today) || today == scope.end then Some(Some(Range(start.value, YearEnd(start.value))))
    else
      var end := AddMonthsClamped(today, -12);
      if end.None? then None else Some(Some(Range(start.value, end.value)))
  }

  lemma AddDaysOrdered(d: Date, delta: int)
    requires Valid(d) && AddDays(d, delta).Some?
    ensures Valid(AddDays(d, delta).value)
    ensures delta >= 0 ==> AtMost(d, AddDays(d, delta).value)
    ensures delta <= 0 ==> AtMost(AddDays(d, delta).value, d)
  {
    AddDaysIsExact(d, delta);
    DayNumberOrders(d, AddDays(d, delta).value);
    DayNumberOrders(AddDays(d, delta).value, d);
    hide AddDays, DayNumber, Valid;
  }

  lemma NonNegativeDays(scope: Range)
    requires ValidRange(scope) && AtMost(scope.start, scope.end)
    ensures DaysBetween(scope.start, scope.end) >= 0
  {
    DayNumberOrders(scope.end, scope.start);
    hide DayNumber;
  }

  /** A comparison range always starts on or before its last day. */
  lemma ComparisonIsOrdered(input: RangeInput)
    requires ValidInput(input)
    ensures
      var c := ComparisonRange(ClassifyScope(input.scope), input);
      c.Some? && c.value.Some? ==> ValidRange(c.value.value) && AtMost(c.value.value.start, c.value.value.end)
  {
    hide AddDays, DayNumber;
    var kind := ClassifyScope(input.scope);
    var c := ComparisonRange(kind, input);
    if c.Some? && c.value.Some? {
      var scope := input.scope.value;
      match kind
      case DayScope => AddDaysOrdered(scope.start, -1);
      case MonthScope => MonthComparisonIsOrdered(scope, input.today);
      case YearScope => YearComparisonIsOrdered(scope, input.today);
      case CustomScope =>
        NonNegativeDays(scope);
        AddDaysOrdered(scope.start, -1);
        AddDaysOrdered(AddDays(scope.start, -1).value, -DaysBetween(scope.start, scope.end));
      case AllScope =>
    }
  }

  lemma MonthComparisonIsOrdered(scope: Range, today: Date)
    requires ValidRange(scope) && Valid(today) && scope.start.day == 1
    ensures
      var c := MonthComparison(scope, today);
      c.Some? && c.value.Some? ==> ValidRange(c.value.value) && AtMost(c.value.value.start, c.value.value.end)
  {
    hide AddDays;
    AddMonthsIsExact(scope.start, -1);
    var start := AddMonthsClamped(scope.start, -1);
    if start.Some? {
      MonthBoundsOrdered(start.value);
      var lastDay := if today.day <= MonthEnd(start.value).day then today.day else MonthEnd(start.value).day;
      if AddDays(start.value, lastDay - 1).Some? {
        AddDaysOrdered(start.value, lastDay - 1);
      }
    }
  }

  lemma YearComparisonIsOrdered(scope: Range, today: Date)
    requires ValidRange(scope) && Valid(today) && scope.start == YearStart(scope.start)
        && scope.end == YearEnd(scope.start)
    ensures
      var c := YearComparison(scope, today);
      c.Some? && c.value.Some? ==> ValidRange(c.value.value) && AtMost(c.value.value.start, c.value.value.end)
  {
    hide AddMonthsClamped, AtMost, Valid;
    TwelveMonthsEarlier(scope.start);
    TwelveMonthsEarlier(today);
    var start, end := AddMonthsClamped(scope.start, -12), AddMonthsClamped(today, -12);
    if start.Some? {
      MonthBoundsOrdered(start.value);
    }
    if end.Some? {
      MonthBoundsOrdered(end.value);
    }
    if Contains(scope, today) {
      SameYear(scope.start, today);
    }
  }

  lemma TwelveMonthsEarlier(d: Date)
    requires Valid(d)
    ensures AddMonthsClamped(d, -12).Some? ==>
              && Valid(AddMonthsClamped(d, -12).value) && AddMonthsClamped(d, -12).value.year == d.year - 1
              && AddMonthsClamped(d, -12).value.month == d.month
              && (d.day == 1 ==> AddMonthsClamped(d, -12).value.day == 1)
  {
    AddMonthsIsExact(d, -12);
    hide AddMonthsClamped;
  }

  lemma SameYear(a: Date, d: Date)
    requires Valid(a) && Valid(d) && AtMost(YearStart(a), d) && AtMost(d, YearEnd(a))
    ensures d.year == a.year
  {
  }

  lemma DaysBefore(d: Date, delta: int)
    requires Valid(d) && delta < 0 && AddDays(d, delta).Some?
    ensures Before(AddDays(d, delta).value, d) && Valid(AddDays(d, delta).value)
    ensures DayNumber(AddDays(d, delta).value) == DayNumber(d) + delta
  {
    AddDaysIsExact(d, delta);
    DayNumberOrders(AddDays(d, delta).value, d);
    hide AddDays, DayNumber, Valid;
  }

  /** A comparison ends before its scope starts, and a custom scope is compared with as many days. */
  lemma ComparisonPrecedesScope(input: RangeInput)
    requires ValidInput(input)
    ensures
      var c := ComparisonRange(ClassifyScope(input.scope), input);
      c.Some? && c.value.Some? ==>
        && Before(c.value.value.end, input.scope.value.start)
        && (ClassifyScope(input.scope) == CustomScope ==>
              DaysBetween(c.value.value.start, c.value.value.end) ==
                  DaysBetween(input.scope.value.start, input.scope.value.end))
  {
    hide AddDays, DayNumber;
    var kind := ClassifyScope(input.scope);
    var c := ComparisonRange(kind, input);
    if c.Some? && c.value.Some? {
      var scope := input.scope.value;
      match kind
      case DayScope => DaysBefore(scope.start, -1);
      case MonthScope => MonthComparisonPrecedes(scope, input.today);
      case YearScope => YearComparisonPrecedes(scope, input.today);
      case CustomScope =>
        DaysBefore(scope.start, -1);
        AddDaysIsExact(AddDays(scope.start, -1).value, -DaysBetween(scope.start, scope.end));
      case AllScope =>
    }
  }

  lemma MonthComparisonPrecedes(scope: Range, today: Date)
    requires ValidRange(scope) && Valid(today) && scope.start.day == 1
    ensures
      var c := MonthComparison(scope, today);
      c.Some? && c.value.Some? ==> Before(c.value.value.end, scope.start)
  {
    hide AddDays;
    AddMonthsIsExact(scope.start, -1);
    var start := AddMonthsClamped(scope.start, -1);
    if start.Some? {
      MonthBoundsOrdered(start.value);
      EarlierMonthEnds(start.value, scope.start);
      var length := MonthEnd(start.value).day;
      var lastDay := if today.day <= length then today.day else length;
      if AddDays(start.value, lastDay - 1).Some? {
        DaysWithinMonth(start.value, lastDay - 1);
      }
    }
  }

  lemma EarlierMonthEnds(a: Date, b: Date)
    requires Valid(a) && Valid(b) && MonthIndex(a) < MonthIndex(b)
    ensures Before(MonthEnd(a), b)
  {
  }

  // Adding days within a month stays in the month.
  lemma DaysWithinMonth(start: Date, delta: nat)
    requires Valid(start) && start.day == 1 && delta < MonthEnd(start).day && AddDays(start, delta).Some?
    ensures AtMost(AddDays(start, delta).value, MonthEnd(start))
  {
    AddDaysIsExact(start, delta);
    var end := AddDays(start, delta).value;
    assert DayNumber(MonthEnd(start)) == DayNumber(start) + MonthEnd(start).day - 1;
    hide AddDays, DayNumber;
    MonthBoundsOrdered(start);
    DayNumberOrders(MonthEnd(start), end);
  }

  lemma YearComparisonPrecedes(scope: Range, today: Date)
    requires ValidRange(scope) && Valid(today) && scope.start == YearStart(scope.start)
        && scope.end == YearEnd(scope.start)
    ensures
      var c := YearComparison(scope, today);
      c.Some? && c.value.Some? ==> Before(c.value.value.end, scope.start)
  {
    AddMonthsIsExact(scope.start, -12);
    AddMonthsIsExact(today, -12);
    if Contains(scope, today) {
      OrdinalCompares(today, scope.start);
      OrdinalCompares(scope.end, today);
    }
  }

  /** The days a heatmap draws: None when it would leave the supported years. */
  function HeatmapRange(kind: ScopeKind, input: RangeInput): Option<Option<Range>>
    requires kind != AllScope ==> input.scope.Some?
  {
    match kind
    case DayScope => Some(Some(Range(MonthStart(input.scope.value.start), MonthEnd(input.scope.value.start))))
    case MonthScope => Some(Some(Range(MonthStart(input.scope.value.start), MonthEnd(input.scope.value.start))))
    case YearScope => Some(input.scope)
    case CustomScope =>
      if DaysBetween(input.scope.value.start, input.scope.value.end) + 1 <= CUSTOM_DAY_LIMIT then
        Some(Some(Range(MonthStart(input.scope.value.start), MonthEnd(input.scope.value.end))))
      else WeekStrip(input.scope.value.end)
    case AllScope => if input.latest.None? then Some(None) else WeekStrip(input.latest.value)
  }

  function WeekStrip(end: Date): Option<Option<Range>> {
    var start := AddDays(end, 1 - HEATMAP_WEEK_DAYS);
    if start.None? then None else Some(Some(Range(start.value, end)))
  }

  lemma HeatmapIsValid(kind: ScopeKind, input: RangeInput)
    requires ValidInput(input) && (kind != AllScope ==> input.scope.Some?)
    ensures
      var h := HeatmapRange(kind, input);
      h.Some? && h.value.Some? ==> ValidRange(h.value.value)
  {
    hide AddDays, DayNumber;
    if input.scope.Some? {
      MonthBoundsOrdered(input.scope.value.start);
      MonthBoundsOrdered(input.scope.value.end);
      StripIsValid(input.scope.value.end);
    }
    if input.latest.Some? {
      StripIsValid(input.latest.value);
    }
  }

  lemma StripIsValid(end: Date)
    requires Valid(end)
    ensures WeekStrip(end).Some? ==> ValidRange(WeekStrip(end).value.value)
  {
    AddDaysIsExact(end, 1 - HEATMAP_WEEK_DAYS);
    hide AddDays;
  }

  const NO_DATE := Date(0, 0, 0)

  /** The heatmap days of a summary's calendar; a grouped view shows them only for one day's scope. */
  method CalendarDays(heatmap: Option<Range>, grouped: bool, kind: ScopeKind) returns (r: Option<seq<PeriodRange>>)
    requires heatmap.Some? ==> ValidRange(heatmap.value)
    ensures r.Some? && Frame(r.value)
    ensures heatmap.None? || (grouped && kind != DayScope) ==> r.value == []
    ensures heatmap.Some? && (!grouped || kind == DayScope) ==> Enumerated(r.value, heatmap.value, Day, NO_DATE)
  {
    hide Frame, Enumerated;
    if heatmap.None? || (grouped && kind != DayScope) {
      EmptyFrame();
      return Some([]);
    }
    r := Listed(heatmap.value, Day, NO_DATE);
  }

  /** The view has no ranges: its scope is reversed, or some range would leave the supported years. */
  predicate RangesFail(input: RangeInput) {
    var kind := ClassifyScope(input.scope);
    || (input.scope.Some? && Before(input.scope.value.end, input.scope.value.start))
    || (!input.timeGrouping && kind != AllScope && ContextBounds(kind, input).None?)
    || (!input.timeGrouping && TrendLastDay(input).Some? && TrendBounds(TrendLastDay(input).value).None?)
    || ComparisonRange(kind, input).None? || HeatmapRange(kind, input).None?
  }

  /** Too little of the supported years lies before the view: a twelve months' trend needs its last day in
  December of year 1 or later, a heatmap strip its last day on day 371 or later, a custom comparison as many
  days before the scope as in it, and a month's context a month of year 2 or later. */
  predicate TooEarly(input: RangeInput) {
    match input.scope
    case None => input.latest.Some?
        && (ShortTrend(input, input.latest.value) || DayNumber(input.latest.value) < HEATMAP_WEEK_DAYS)
    case Some(scope) =>
      || Before(scope.end, scope.start)
      || (match ClassifyScope(input.scope)
          case DayScope => scope.start == Date(1, 1, 1) || ShortTrend(input, scope.end)
          case MonthScope => scope.start.year == 1 && (!input.timeGrouping || scope.start.month == 1)
          case YearScope => scope.start.year == 1
          case _ =>
            var days := DaysBetween(scope.start, scope.end) + 1;
            || DayNumber(scope.start) <= days
            || ShortTrend(input, if Contains(scope, input.today) then input.today else scope.end)
            || (days > CUSTOM_DAY_LIMIT && DayNumber(scope.end) < HEATMAP_WEEK_DAYS))
  }

  predicate ShortTrend(input: RangeInput, last: Date) {
    !input.timeGrouping && last.year == 1 && last.month < 12
  }

  /** A view has no ranges exactly when its scope is reversed or it lies too early in year 1 or 2; the end of the
  supported years is never a reason. */
  lemma RangesFailByDates(input: RangeInput)
    requires Valid(input.today) && (input.scope.Some? ==> ValidRange(input.scope.value))
    requires (input.first.Some? ==> Valid(input.first.value)) && (input.latest.Some? ==> Valid(input.latest.value))
    ensures RangesFail(input) <==> TooEarly(input)
  {
    hide AddDays, DayNumber, AddMonthsClamped;
    match input.scope
    case None =>
      if input.latest.Some? {
        TrendFails(input.latest.value);
        StripFails(input.latest.value);
      }
    case Some(scope) =>
      if AtMost(scope.start, scope.end) {
        TrendFails(scope.end);
        TrendFails(input.today);
        StripFails(scope.end);
        match ClassifyScope(input.scope)
        case DayScope => DayFails(scope.start);
        case MonthScope => MonthScopeFails(input);
        case YearScope => YearScopeFails(input);
        case CustomScope => CustomComparisonFails(scope);
      }
  }

  lemma TrendFails(last: Date)
    requires Valid(last)
    ensures TrendBounds(last).None? <==> last.year == 1 && last.month < 12
  {
    hide AddMonthsClamped;
    MonthBoundsOrdered(last);
    AddMonthsIsExact(MonthStart(last), 1 - TREND_MONTHS);
  }

  lemma StripFails(end: Date)
    requires Valid(end)
    ensures WeekStrip(end).None? <==> DayNumber(end) < HEATMAP_WEEK_DAYS
  {
    hide AddDays, DayNumber;
    AddDaysIsExact(end, 1 - HEATMAP_WEEK_DAYS);
    DayNumberRange(end);
  }

  lemma DayFails(d: Date)
    requires Valid(d)
    ensures AddDays(d, -1).None? <==> d == Date(1, 1, 1)
  {
    hide AddDays, DayNumber;
    AddDaysIsExact(d, -1);
    DayNumberRange(d);
    DayNumberOrders(d, Date(1, 1, 1));
  }

  lemma CustomComparisonFails(scope: Range)
    requires ValidRange(scope) && AtMost(scope.start, scope.end)
    ensures
      var days, end := DaysBetween(scope.start, scope.end) + 1, AddDays(scope.start, -1);
      DayNumber(scope.start) <= days <==> end.None? || AddDays(end.value, 1 - days).None?
  {
    hide AddDays, DayNumber;
    NonNegativeDays(scope);
    DayNumberRange(scope.start);
    AddDaysIsExact(scope.start, -1);
    var end := AddDays(scope.start, -1);
    if end.Some? {
      AddDaysIsExact(end.value, -DaysBetween(scope.start, scope.end));
      DayNumberRange(end.value);
    }
  }

  lemma MonthScopeFails(input: RangeInput)
    requires ValidInput(input) && ClassifyScope(input.scope) == MonthScope
    ensures RangesFail(input) <==> TooEarly(input)
  {
    var scope := input.scope.value;
    hide AddDays, DayNumber;
    AddMonthsIsExact(scope.start, 1 - MONTH_CONTEXT_MONTHS);
    AddMonthsIsExact(scope.start, -1);
    TrendFails(scope.end);
    TrendFails(input.today);
    SameYear(scope.start, scope.end);
    if AddMonthsClamped(scope.start, -1).Some? {
      MonthComparisonExists(scope, input.today);
    }
  }

  // The comparison's last day lies in the previous month.
  lemma MonthComparisonExists(scope: Range, today: Date)
    requires ValidRange(scope) && Valid(today) && scope.start.day == 1 && AddMonthsClamped(scope.start, -1).Some?
    ensures MonthComparison(scope, today).Some?
  {
    hide AddDays, DayNumber, AddMonthsClamped;
    AddMonthsIsExact(scope.start, -1);
    var start := AddMonthsClamped(scope.start, -1).value;
    MonthBoundsOrdered(start);
    var last := if today.day <= MonthEnd(start).day then today.day else MonthEnd(start).day;
    AddDaysIsExact(start, last - 1);
    SameMonthDays(start, last);
    DayNumberRange(start.(day := last));
    DayNumberRange(start);
  }

  lemma SameMonthDays(start: Date, day: int)
    requires start.day == 1
    ensures DayNumber(start.(day := day)) == DayNumber(start) + day - 1
  {
    hide DaysBeforeYear, DaysBeforeMonth;
  }

  lemma YearScopeFails(input: RangeInput)
    requires ValidInput(input) && ClassifyScope(input.scope) == YearScope
    ensures RangesFail(input) <==> TooEarly(input)
  {
    var scope := input.scope.value;
    hide AddDays, DayNumber;
    AddMonthsIsExact(scope.start, -12);
    AddMonthsIsExact(input.today, -12);
    TrendFails(scope.end);
    TrendFails(input.today);
    assert 1 <= FirstContextYear(input) <= scope.start.year;
    if Contains(scope, input.today) {
      SameYear(scope.start, input.today);
    }
  }

  ghost predicate RangesRight(input: RangeInput, r: Ranges) {
    && ValidInput(input) && r.kind == ClassifyScope(input.scope) && r.scope == input.scope
    && ContextRight(r.kind, input, r.granularity, r.context)
    && (if input.timeGrouping then r.trend == [] else TrendRight(input, r.trend))
    && ComparisonRange(r.kind, input) == Some(r.comparison) && HeatmapRange(r.kind, input) == Some(r.heatmap)
  }

  /** Derives all ranges of a view.  Whatever it returns, every frame built from it passes the
  cross-tab's check. */
  method ResolveRanges(input: RangeInput) returns (r: Option<Ranges>)
    requires Valid(input.today) && (input.scope.Some? ==> ValidRange(input.scope.value))
    requires (input.first.Some? ==> Valid(input.first.value)) && (input.latest.Some? ==> Valid(input.latest.value))
    ensures r.None? <==> RangesFail(input)
    ensures r.Some? ==> RangesRight(input, r.value)
    ensures r.Some? ==> Frame(r.value.context) && Frame(r.value.trend)
    ensures r.Some? && r.value.comparison.Some? ==>
              Frame([PeriodRange(Period(Day, 0, 0, 0), r.value.comparison.value.start, r.value.comparison.value.end,
                  false, false)])
    ensures r.Some? && r.value.scope.Some? ==> AtMost(r.value.scope.value.start, r.value.scope.value.end)
    ensures r.Some? && r.value.heatmap.Some? ==> ValidRange(r.value.heatmap.value)
  {
    hide AddDays, DayNumber, ContextRight, TrendRight;
    if input.scope.Some? && Before(input.scope.value.end, input.scope.value.start) {
      return None;
    }
    var kind := ClassifyScope(input.scope);
    var context := ContextPeriods(kind, input);
    if context.None? {
      return None;
    }
    var trend := Some([]);
    if !input.timeGrouping {
      trend := TrendPeriods(input);
      if trend.None? {
        return None;
      }
    }
    var comparison := ComparisonRange(kind, input);
    if comparison.None? {
      return None;
    }
    ComparisonIsOrdered(input);
    var heatmap := HeatmapRange(kind, input);
    if heatmap.None? {
      return None;
    }
    HeatmapIsValid(kind, input);
    return Some(Ranges(kind, input.scope, context.value.0, context.value.1, trend.value, comparison.value,
        heatmap.value));
  }
}
