/** What a filtered view shows: every filter on its own, drilling into the rows of a table, and the money of a
cell as a sum over its transactions. */
module ViewLaws {
  import opened Wrappers
  import opened Calendar
  import opened Periods
  import opened PeriodRanges
  import opened QueryScope
  import opened CrossTab
  import Totals

  // One filter at a time --------------------------------------------------------------------------------------

  /** The query that asks for nothing. */
  const EVERYTHING := Query(None, "", true, true, None, [], false)

  function Visible(): Transaction -> bool {
    (t: Transaction) => !t.hidden
  }

  function NoTransfer(): Transaction -> bool {
    (t: Transaction) => t.groupName != "Transfers"
  }

  function InCurrency(scope: CurrencyScope): Transaction -> bool {
    (t: Transaction) => t.currency == scope.currency && t.scale == scope.scale
  }

  function Dated(r: Range): Transaction -> bool {
    (t: Transaction) => Contains(r, t.date)
  }

  /** The expression finds the merchant's name or the category's. */
  function Named(search: string, found: Searcher): Transaction -> bool {
    (t: Transaction) => found(search, t.merchantName) || found(search, t.categoryName)
  }

  lemma FilterMore(ts: seq<Transaction>, q: Query, wide: Query, more: Transaction -> bool, found: Searcher)
    requires forall t :: Matches(t, q, found) <==> Matches(t, wide, found) && more(t)
    ensures Filtered(ts, Matching(q, found)) == Filtered(Filtered(ts, Matching(wide, found)), more)
  {
    FilteredTwice(ts, Matching(wide, found), more);
    hide Matches;
    SameFilter(ts, Matching(q, found), Both(Matching(wide, found), more));
  }

  /** An aggregate view without hidden transactions is the view with them, less the hidden ones; a detail view
  shows them either way. */
  lemma HiddenAreLeftOut(ts: seq<Transaction>, q: Query, found: Searcher)
    ensures q.aggregate ==>
      Filtered(ts, Matching(q.(showHidden := false), found)) ==
      Filtered(Filtered(ts, Matching(q.(showHidden := true), found)), Visible())
    ensures !q.aggregate ==>
      Filtered(ts, Matching(q.(showHidden := false), found)) == Filtered(ts, Matching(q.(showHidden := true), found))
  {
    hide MatchesDrilldowns, MatchesCurrency, InScope;
    if q.aggregate {
      FilterMore(ts, q.(showHidden := false), q.(showHidden := true), Visible(), found);
    } else {
      SameFilter(ts, Matching(q.(showHidden := false), found), Matching(q.(showHidden := true), found));
    }
  }

  lemma TransfersAreLeftOut(ts: seq<Transaction>, q: Query, found: Searcher)
    ensures Filtered(ts, Matching(q.(showTransfers := false), found)) ==
            Filtered(Filtered(ts, Matching(q.(showTransfers := true), found)), NoTransfer())
  {
    hide MatchesDrilldowns, MatchesCurrency, InScope;
    FilterMore(ts, q.(showTransfers := false), q.(showTransfers := true), NoTransfer(), found);
  }

  lemma CurrencyNarrows(ts: seq<Transaction>, q: Query, scope: CurrencyScope, found: Searcher)
    ensures Filtered(ts, Matching(q.(currency := Some(scope)), found)) ==
            Filtered(Filtered(ts, Matching(q.(currency := None), found)), InCurrency(scope))
  {
    hide MatchesDrilldowns, InScope;
    FilterMore(ts, q.(currency := Some(scope)), q.(currency := None), InCurrency(scope), found);
  }

  lemma DatesNarrow(ts: seq<Transaction>, q: Query, range: Range, found: Searcher)
    ensures Filtered(ts, Matching(q.(dateRange := Some(range)), found)) ==
            Filtered(Filtered(ts, Matching(q.(dateRange := None), found)), Dated(range))
  {
    hide MatchesDrilldowns, MatchesCurrency, Contains;
    FilterMore(ts, q.(dateRange := Some(range)), q.(dateRange := None), Dated(range), found);
  }

  lemma SearchNarrows(ts: seq<Transaction>, q: Query, search: string, found: Searcher)
    requires search != ""
    ensures Filtered(ts, Matching(q.(search := search), found)) ==
            Filtered(Filtered(ts, Matching(q.(search := ""), found)), Named(search, found))
  {
    hide MatchesDrilldowns, MatchesCurrency, InScope;
    FilterMore(ts, q.(search := search), q.(search := ""), Named(search, found), found);
  }

  lemma {:induction false} EverythingMatches(ts: seq<Transaction>, found: Searcher)
    ensures Filtered(ts, Matching(EVERYTHING, found)) == ts
  {
    if ts != [] {
      EverythingMatches(ts[..|ts| - 1], found);
      assert Matches(ts[|ts| - 1], EVERYTHING, found);
    }
  }

  /** A view is everything, narrowed by each filter of its query in turn. */
  lemma ViewIsNarrowedByItsFilters(ts: seq<Transaction>, q: Query, found: Searcher)
    ensures
      forall t :: Matches(t, q, found) <==>
        && (q.dateRange.Some? ==> Dated(q.dateRange.value)(t))
        && (q.currency.Some? ==> InCurrency(q.currency.value)(t))
        && (q.search != "" ==> Named(q.search, found)(t))
        && (!q.showTransfers ==> NoTransfer()(t))
        && (q.aggregate && !q.showHidden ==> Visible()(t))
        && MatchesDrilldowns(t, q.drilldowns)
  {
    hide MatchesDrilldowns, Contains;
  }

  // Drilling into a row ---------------------------------------------------------------------------------------

  /** The field of a transaction that a dimension groups by. */
  function Field(d: Dimension, t: Transaction): Key
    requires d != Time
  {
    match d
    case Merchant => t.merchant
    case Category => t.category
    case Group => t.group
    case Account => t.account
  }

  /** The transactions a row stands for: one currency and scale, and one key. */
  function InRow(d: Dimension, scope: CurrencyScope, k: Key): Transaction -> bool {
    (t: Transaction) => t.currency == scope.currency && t.scale == scope.scale && KeyOf(d)(t) == k
  }

  function Drilled(q: Query, drill: Drilldown): Query {
    q.(drilldowns := q.drilldowns + [drill])
  }

  /** Drilling into a row keeps exactly the view's transactions that the row stands for. */
  lemma DrillKeepsTheRow(
    ts: seq<Transaction>, q: Query, d: Dimension, scope: CurrencyScope, k: Key, found: Searcher)
    requires d != Time
    ensures Filtered(ts, Matching(Drilled(q, Drilldown(d, scope, k, None)), found)) ==
            Filtered(Filtered(ts, Matching(q, found)), InRow(d, scope, k))
    ensures forall t :: InRow(d, scope, k)(t) <==>
      t.currency == scope.currency && t.scale == scope.scale && Field(d, t) == k
  {
    var drill := Drilldown(d, scope, k, None);
    forall t
      ensures Matches(t, Drilled(q, drill), found) <==> Matches(t, q, found) && InRow(d, scope, k)(t)
      ensures InRow(d, scope, k)(t) <==>
          t.currency == scope.currency && t.scale == scope.scale && Field(d, t) == k
    {
      DrillMatches(t, q, drill, found);
      RowIsField(t, d, scope, k);
      hide Matches, MatchesDrilldown, InRow, Field;
    }
    hide Matches, MatchesDrilldown;
    FilterMore(ts, Drilled(q, drill), q, InRow(d, scope, k), found);
  }

  lemma RowIsField(t: Transaction, d: Dimension, scope: CurrencyScope, k: Key)
    requires d != Time
    ensures InRow(d, scope, k)(t) <==> t.currency == scope.currency && t.scale == scope.scale && Field(d, t) == k
    ensures MatchesDrilldown(t, Drilldown(d, scope, k, None)) <==> InRow(d, scope, k)(t)
  {
    KeyIsField(t, d);
    hide KeyOf;
  }

  lemma KeyIsField(t: Transaction, d: Dimension)
    requires d != Time
    ensures KeyOf(d)(t) == Field(d, t)
  {
    match d
    case Merchant => assert KeyOf(Merchant)(t) == t.merchant;
    case Category => assert KeyOf(Category)(t) == t.category;
    case Group => assert KeyOf(Group)(t) == t.group;
    case Account => assert KeyOf(Account)(t) == t.account;
  }

  lemma DrillMatches(t: Transaction, q: Query, drill: Drilldown, found: Searcher)
    ensures Matches(t, Drilled(q, drill), found) <==> Matches(t, q, found) && MatchesDrilldown(t, drill)
  {
    MatchesLast(t, q.drilldowns, drill);
    hide MatchesDrilldown, MatchesDrilldowns, InScope, MatchesCurrency;
  }

  /** The transactions a time row stands for. */
  function InTimeRow(scope: CurrencyScope, range: Range): Transaction -> bool {
    (t: Transaction) => t.currency == scope.currency && t.scale == scope.scale && Contains(range, t.date)
  }

  /** Drilling into a period keeps exactly the view's transactions between its first and last day. */
  lemma DrillKeepsThePeriod(
    ts: seq<Transaction>, q: Query, scope: CurrencyScope, k: Key, period: Period, found: Searcher)
    requires ValidPeriod(period) && forall t :: t in ts ==> Valid(t.date)
    ensures Bounds(period).Some?
    ensures Filtered(ts, Matching(Drilled(q, Drilldown(Time, scope, k, Some(period))), found)) ==
            Filtered(Filtered(ts, Matching(q, found)), InTimeRow(scope, Bounds(period).value))
  {
    var drill := Drilldown(Time, scope, k, Some(period));
    ValidBounds(period);
    var range := Bounds(period).value;
    FilteredTwice(ts, Matching(q, found), InTimeRow(scope, range));
    forall t | t in ts
      ensures Matching(Drilled(q, drill), found)(t) == Both(Matching(q, found), InTimeRow(scope, range))(t)
    {
      DrillMatches(t, q, drill, found);
      MatchingIsContainment(t.date, period);
      hide Matches, MatchesPeriod, Bounds, Contains;
    }
    hide Matches, Bounds;
    SameFilter(ts, Matching(Drilled(q, drill), found), Both(Matching(q, found), InTimeRow(scope, range)));
  }

  lemma CellEmpty(keep: Transaction -> bool)
    ensures CellSum([], keep) == ZERO && Filtered([], keep) == []
  {
  }

  lemma {:induction false} CellOfFiltered(ts: seq<Transaction>, first: Transaction -> bool, keep: Transaction -> bool)
    ensures CellSum(Filtered(ts, first), keep) == CellSum(ts, Both(first, keep))
  {
    hide CellSum, Filtered, Plus, One;
    CellEmpty(first);
    CellEmpty(keep);
    CellEmpty(Both(first, keep));
    if ts != [] {
      var rest, last := ts[..|ts| - 1], ts[|ts| - 1];
      CellOfFiltered(rest, first, keep);
      assert ts == rest + [last];
      FilteredLast(rest, last, first);
      CellSumStep(Filtered(rest, first), last, keep);
      CellSumStep(rest, last, Both(first, keep));
    }
  }

  lemma {:induction false} SameCell(ts: seq<Transaction>, a: Transaction -> bool, b: Transaction -> bool)
    requires forall t :: t in ts ==> a(t) == b(t)
    ensures CellSum(ts, a) == CellSum(ts, b)
  {
    if ts != [] {
      SameCell(ts[..|ts| - 1], a, b);
    }
  }

  /** A drilled view shows the numbers of its row: in every period, the whole of the drilled view is the row's cell
  in the view it was drilled from. */
  lemma DrilledViewShowsTheRow(
    ts: seq<Transaction>, q: Query, d: Dimension, k: Key, p: PeriodRange, found: Searcher)
    requires d != Time && q.currency.Some?
    ensures CellSum(Filtered(ts, Matching(Drilled(q, Drilldown(d, q.currency.value, k, None)), found)), InPeriod(p)) ==
            CellSum(Filtered(ts, Matching(q, found)), InSeries(p, d, k))
  {
    var scope := q.currency.value;
    var view := Filtered(ts, Matching(q, found));
    DrillKeepsTheRow(ts, q, d, scope, k, found);
    CellOfFiltered(view, InRow(d, scope, k), InPeriod(p));
    forall t | t in view ensures Both(InRow(d, scope, k), InPeriod(p))(t) == InSeries(p, d, k)(t) {
      FilteredKeeps(ts, Matching(q, found), t);
    }
    hide InRow, InPeriod, InSeries, Matches;
    SameCell(view, Both(InRow(d, scope, k), InPeriod(p)), InSeries(p, d, k));
  }

  /** The statistics of a drilled view are the totals of the row that was drilled into. */
  lemma DrilledStatisticsAreTheRow(
    ts: seq<Transaction>, q: Query, d: Dimension, p: Totals.Partition, k: Key, found: Searcher)
    requires d != Time
    ensures
      var drill := Drilldown(d, CurrencyScope(p.currency, p.scale), k, None);
      CellSum(Filtered(ts, Matching(Drilled(q, drill), found)), Totals.InPartition(p)) ==
      CellSum(Filtered(ts, Matching(q, found)), Totals.InBucket(Totals.Bucket(p, k), KeyOf(d)))
  {
    var scope := CurrencyScope(p.currency, p.scale);
    var view := Filtered(ts, Matching(q, found));
    DrillKeepsTheRow(ts, q, d, scope, k, found);
    CellOfFiltered(view, InRow(d, scope, k), Totals.InPartition(p));
    forall t | t in view
      ensures Both(InRow(d, scope, k), Totals.InPartition(p))(t) ==
              Totals.InBucket(Totals.Bucket(p, k), KeyOf(d))(t)
    {
      hide KeyOf;
    }
    hide InRow, Totals.InPartition, Totals.InBucket, Matches;
    SameCell(view, Both(InRow(d, scope, k), Totals.InPartition(p)), Totals.InBucket(Totals.Bucket(p, k), KeyOf(d)));
  }

  lemma {:induction false} FilteredKeeps(ts: seq<Transaction>, keep: Transaction -> bool, t: Transaction)
    ensures t in Filtered(ts, keep) <==> t in ts && keep(t)
  {
    if ts != [] {
      var n := |ts| - 1;
      FilteredKeeps(ts[..n], keep, t);
      assert ts == ts[..n] + [ts[n]];
    }
  }

  // The money of a cell ---------------------------------------------------------------------------------------

  function SumMinor(ts: seq<Transaction>): int {
    if ts == [] then 0 else SumMinor(ts[..|ts| - 1]) + ts[|ts| - 1].minor
  }

  function Hidden(): Transaction -> bool {
    (t: Transaction) => t.hidden
  }

  function Pending(): Transaction -> bool {
    (t: Transaction) => t.pending
  }

  function Received(): Transaction -> bool {
    (t: Transaction) => !t.hidden && t.minor > 0
  }

  function Spent(): Transaction -> bool {
    (t: Transaction) => !t.hidden && t.minor < 0
  }

  lemma FilteredLast(ts: seq<Transaction>, t: Transaction, keep: Transaction -> bool)
    ensures Filtered(ts + [t], keep) == if keep(t) then Filtered(ts, keep) + [t] else Filtered(ts, keep)
  {
    assert (ts + [t])[..|ts|] == ts;
  }

  lemma SumLast(ts: seq<Transaction>, t: Transaction)
    ensures SumMinor(ts + [t]) == SumMinor(ts) + t.minor
  {
    assert (ts + [t])[..|ts|] == ts;
  }

  // What one more transaction adds to the kept ones.
  lemma KeptLast(ts: seq<Transaction>, t: Transaction, keep: Transaction -> bool)
    ensures |Filtered(ts + [t], keep)| == |Filtered(ts, keep)| + if keep(t) then 1 else 0
    ensures SumMinor(Filtered(ts + [t], keep)) == SumMinor(Filtered(ts, keep)) + if keep(t) then t.minor else 0
  {
    FilteredLast(ts, t, keep);
    SumLast(Filtered(ts, keep), t);
    hide Filtered, SumMinor;
  }

  /** A cell counts its transactions, the hidden and the pending ones among them, and adds up the money of the
  visible ones: what was received, what was spent, and in all. */
  ghost predicate AddsVisibleMoney(c: Cell, ts: seq<Transaction>, keep: Transaction -> bool) {
    && c.count == |Filtered(ts, keep)|
    && c.hidden == |Filtered(ts, Both(keep, Hidden()))| && c.pending == |Filtered(ts, Both(keep, Pending()))|
    && c.income == SumMinor(Filtered(ts, Both(keep, Received())))
    && c.spending == SumMinor(Filtered(ts, Both(keep, Spent())))
    && Net(c) == SumMinor(Filtered(ts, Both(keep, Visible())))
  }

  lemma AddsOneMore(c: Cell, ts: seq<Transaction>, t: Transaction, keep: Transaction -> bool)
    requires AddsVisibleMoney(c, ts, keep)
    ensures AddsVisibleMoney(Plus(c, if keep(t) then One(t) else ZERO), ts + [t], keep)
  {
    KeptLast(ts, t, keep);
    KeptLast(ts, t, Both(keep, Hidden()));
    KeptLast(ts, t, Both(keep, Pending()));
    KeptLast(ts, t, Both(keep, Received()));
    KeptLast(ts, t, Both(keep, Spent()));
    KeptLast(ts, t, Both(keep, Visible()));
    hide Filtered, SumMinor;
  }

  lemma NothingAddsUp(keep: Transaction -> bool)
    ensures AddsVisibleMoney(CellSum([], keep), [], keep)
  {
    assert CellSum([], keep) == ZERO;
    hide CellSum, Both, Hidden, Pending, Received, Spent, Visible;
  }

  lemma {:induction false} CellAddsVisibleMoney(ts: seq<Transaction>, keep: Transaction -> bool)
    ensures AddsVisibleMoney(CellSum(ts, keep), ts, keep)
  {
    hide *;
    if ts == [] {
      NothingAddsUp(keep);
    } else {
      var rest, last := ts[..|ts| - 1], ts[|ts| - 1];
      CellAddsVisibleMoney(rest, keep);
      CellSumAppend(rest, last, keep);
      AddsOneMore(CellSum(rest, keep), rest, last, keep);
      assert ts == rest + [last];
    }
  }
}
