/** Filtering by a query, and the rewriting that moves a query's dates into the chart scope. */
module QueryScope {
  import opened Wrappers
  import opened Calendar
  import opened Periods

  type Key = string

  datatype Dimension = Merchant | Category | Group | Account | Time

  datatype Transaction = Transaction(
    id: Key, date: Date, merchant: Key, merchantName: string, category: Key, categoryName: string,
    group: Key, groupName: string, account: Key, hidden: bool, pending: bool, currency: string, scale: nat, minor: int)

  datatype CurrencyScope = CurrencyScope(currency: string, scale: nat)

  datatype Drilldown = Drilldown(dimension: Dimension, scope: CurrencyScope, key: Key, period: Option<Period>)

  datatype Query = Query(
    dateRange: Option<Range>, search: string, showHidden: bool, showTransfers: bool, currency: Option<CurrencyScope>,
    drilldowns: seq<Drilldown>, aggregate: bool)

  /** The compiled search expression applied to a name. */
  type Searcher = (string, string) -> bool

  predicate MatchesCurrency(t: Transaction, scope: Option<CurrencyScope>) {
    scope.Some? ==> t.currency == scope.value.currency && t.scale == scope.value.scale
  }

  predicate MatchesDrilldown(t: Transaction, d: Drilldown) {
    && MatchesCurrency(t, Some(d.scope))
    && match d.dimension
       case Merchant => t.merchant == d.key
       case Category => t.category == d.key
       case Group => t.group == d.key
       case Account => t.account == d.key
       case Time => d.period.Some? && MatchesPeriod(t.date, d.period.value)
  }

  predicate InScope(date: Date, scope: Option<Range>) {
    scope.Some? ==> Contains(scope.value, date)
  }

  predicate MatchesDrilldowns(t: Transaction, ds: seq<Drilldown>) {
    forall i :: 0 <= i < |ds| ==> MatchesDrilldown(t, ds[i])
  }

  predicate Matches(t: Transaction, q: Query, found: Searcher) {
    && InScope(t.date, q.dateRange)
    && MatchesCurrency(t, q.currency)
    && (q.search != "" ==> found(q.search, t.merchantName) || found(q.search, t.categoryName))
    && (q.showTransfers || t.groupName != "Transfers")
    && (q.showHidden || !q.aggregate || !t.hidden)
    && MatchesDrilldowns(t, q.drilldowns)
  }

  /** What query validation guarantees before the scope is computed. */
  ghost predicate ValidQuery(q: Query) {
    && q.currency.Some?
    && (q.dateRange.Some? ==> ValidRange(q.dateRange.value) && AtMost(q.dateRange.value.start, q.dateRange.value.end))
    && forall i :: 0 <= i < |q.drilldowns| ==>
         q.drilldowns[i].scope == q.currency.value
         && (q.drilldowns[i].dimension == Time ==>
            q.drilldowns[i].period.Some? && ValidPeriod(q.drilldowns[i].period.value))
  }

  /** Narrows a scope to a period; a missing scope becomes the period. */
  function Intersect(scope: Option<Range>, period: Range): (Option<Range>, bool) {
    if scope.None? then (Some(period), true)
    else
      var narrowed := Range(Later(scope.value.start, period.start), Earlier(scope.value.end, period.end));
      (Some(narrowed), AtMost(narrowed.start, narrowed.end))
  }

  lemma IntersectionMeans(scope: Option<Range>, period: Range, d: Date)
    ensures Intersect(scope, period).0.Some?
    ensures InScope(d, Intersect(scope, period).0) <==> InScope(d, scope) && Contains(period, d)
    ensures !Intersect(scope, period).1 ==> !(InScope(d, scope) && Contains(period, d))
  {
  }

  /** The drill-downs that stay in the filter. */
  function Kept(ds: seq<Drilldown>): seq<Drilldown> {
    if ds == [] then []
    else
      var last := ds[|ds| - 1];
      if last.dimension == Time then Kept(ds[..|ds| - 1]) else Kept(ds[..|ds| - 1]) + [last]
  }

  // The time drill-downs among the first `n` and the date range allow the date.
  ghost predicate DatesAllow(q: Query, n: nat, d: Date)
    requires n <= |q.drilldowns|
  {
    && InScope(d, q.dateRange)
    && forall i :: 0 <= i < n && q.drilldowns[i].dimension == Time ==>
         q.drilldowns[i].period.Some? && MatchesPeriod(d, q.drilldowns[i].period.value)
  }

  ghost predicate ScopeIsExact(q: Query, n: nat, scope: Option<Range>)
    requires n <= |q.drilldowns|
  {
    forall d :: Valid(d) ==> (InScope(d, scope) <==> DatesAllow(q, n, d))
  }

  lemma {:induction false} DrilldownsSplit(q: Query, n: nat, t: Transaction)
    requires ValidQuery(q) && n <= |q.drilldowns| && MatchesCurrency(t, q.currency) && InScope(t.date, q.dateRange)
    ensures MatchesDrilldowns(t, q.drilldowns[..n]) <==>
        MatchesDrilldowns(t, Kept(q.drilldowns[..n])) && DatesAllow(q, n, t.date)
  {
    var ds := q.drilldowns[..n];
    if n > 0 {
      DrilldownsSplit(q, n - 1, t);
      assert ds[..n - 1] == q.drilldowns[..n - 1];
      var last := q.drilldowns[n - 1];
      MatchesLast(t, q.drilldowns[..n - 1], last);
      MatchesLast(t, Kept(q.drilldowns[..n - 1]), last);
      assert ds == q.drilldowns[..n - 1] + [last];
      assert DatesAllow(q, n, t.date) <==>
             DatesAllow(q, n - 1, t.date) && (last.dimension == Time ==> MatchesDrilldown(t, last)) by {
        hide MatchesPeriod;
      }
    }
  }

  lemma MatchesLast(t: Transaction, ds: seq<Drilldown>, last: Drilldown)
    ensures MatchesDrilldowns(t, ds + [last]) <==> MatchesDrilldowns(t, ds) && MatchesDrilldown(t, last)
  {
    hide MatchesDrilldown;
    assert forall i :: 0 <= i < |ds| ==> (ds + [last])[i] == ds[i];
    assert (ds + [last])[|ds|] == last;
  }

  /** A rewritten query and scope that mean what the query means. */
  ghost predicate SameMeaning(q: Query, base: Query, scope: Option<Range>, found: Searcher) {
    forall t: Transaction :: Valid(t.date) ==>
        (Matches(t, q, found) <==> Matches(t, base, found) && InScope(t.date, scope))
  }

  lemma FoldedMeaning(q: Query, scope: Option<Range>, found: Searcher)
    requires ValidQuery(q) && ScopeIsExact(q, |q.drilldowns|, scope)
    ensures SameMeaning(q, q.(dateRange := None, drilldowns := Kept(q.drilldowns)), scope, found)
  {
    var base := q.(dateRange := None, drilldowns := Kept(q.drilldowns));
    forall t: Transaction | Valid(t.date)
      ensures Matches(t, q, found) <==> Matches(t, base, found) && InScope(t.date, scope)
    {
      assert q.drilldowns[..|q.drilldowns|] == q.drilldowns;
      if InScope(t.date, q.dateRange) && MatchesCurrency(t, q.currency) {
        DrilldownsSplit(q, |q.drilldowns|, t);
      }
      hide MatchesDrilldowns, Kept, Valid;
    }
  }

  // A period outside the scope so far excludes every date.
  lemma DisjointMeaning(q: Query, n: nat, scope: Option<Range>, found: Searcher)
    requires ValidQuery(q) && n < |q.drilldowns| && q.drilldowns[n].dimension == Time
    requires ScopeIsExact(q, n, scope) && Bounds(q.drilldowns[n].period.value).Some?
    requires !Intersect(scope, Bounds(q.drilldowns[n].period.value).value).1
    ensures forall t: Transaction :: Valid(t.date) ==> !Matches(t, q, found)
  {
    forall t: Transaction | Valid(t.date) ensures !Matches(t, q, found) {
      if Matches(t, q, found) {
        var p := q.drilldowns[n].period.value;
        assert MatchesDrilldown(t, q.drilldowns[n]);
        forall i | 0 <= i < n && q.drilldowns[i].dimension == Time
            ensures MatchesPeriod(t.date, q.drilldowns[i].period.value)
        {
          assert MatchesDrilldown(t, q.drilldowns[i]);
        }
        assert DatesAllow(q, n, t.date);
        MatchingIsContainment(t.date, p);
        IntersectionMeans(scope, Bounds(p).value, t.date);
      }
    }
  }

  lemma NarrowedIsExact(q: Query, n: nat, scope: Option<Range>, period: Range)
    requires ValidQuery(q) && n < |q.drilldowns| && q.drilldowns[n].dimension == Time
    requires ScopeIsExact(q, n, scope) && Bounds(q.drilldowns[n].period.value) == Some(period)
    ensures ScopeIsExact(q, n + 1, Intersect(scope, period).0)
  {
    forall d | Valid(d) ensures InScope(d, Intersect(scope, period).0) <==> DatesAllow(q, n + 1, d) {
      MatchingIsContainment(d, q.drilldowns[n].period.value);
      IntersectionMeans(scope, period, d);
      hide Intersect, Bounds, MatchesPeriod, InScope, Valid;
    }
  }

  lemma SkippedIsExact(q: Query, n: nat, scope: Option<Range>)
    requires n < |q.drilldowns| && q.drilldowns[n].dimension != Time && ScopeIsExact(q, n, scope)
    ensures ScopeIsExact(q, n + 1, scope)
  {
    hide InScope, MatchesPeriod, Valid;
  }

  /** A query that leaves the date open. */
  ghost predicate AnyDate(q: Query, found: Searcher) {
    forall t: Transaction, d: Date :: Matches(t.(date := d), q, found) <==> Matches(t, q, found)
  }

  lemma {:induction false} KeptHaveNoTime(ds: seq<Drilldown>)
    ensures forall x :: x in Kept(ds) <==> x in ds && x.dimension != Time
  {
    if ds != [] {
      KeptHaveNoTime(ds[..|ds| - 1]);
      assert ds == ds[..|ds| - 1] + [ds[|ds| - 1]];
    }
  }

  lemma FoldedLeavesDatesOpen(q: Query, found: Searcher)
    ensures AnyDate(q.(dateRange := None, drilldowns := Kept(q.drilldowns)), found)
  {
    var base := q.(dateRange := None, drilldowns := Kept(q.drilldowns));
    KeptHaveNoTime(q.drilldowns);
    hide Kept;
    forall t: Transaction, d: Date ensures Matches(t.(date := d), base, found) <==> Matches(t, base, found) {
      forall i | 0 <= i < |base.drilldowns|
        ensures MatchesDrilldown(t.(date := d), base.drilldowns[i]) <==> MatchesDrilldown(t, base.drilldowns[i])
      {
        assert base.drilldowns[i] in base.drilldowns;
      }
      hide MatchesDrilldown;
    }
  }

  /** Folds time drill-downs into the scope.  A transaction matches the query exactly when it matches
  the rewritten query and lies in the scope, and the rewritten query leaves the date open, so that charts
  can reach beyond the scope; a drill-down outside the scope leaves the query and its date range as they
  were, and then nothing matches. */
  method EffectiveScope(q: Query, ghost found: Searcher) returns (r: Option<(Query, Option<Range>)>)
    requires ValidQuery(q)
    ensures r.Some? && SameMeaning(q, r.value.0, r.value.1, found)
    ensures r.value.1.Some? ==> AtMost(r.value.1.value.start, r.value.1.value.end)
    ensures (r.value.0 == q.(dateRange := None, drilldowns := Kept(q.drilldowns)) && AnyDate(r.value.0, found))
            || (r.value == (q, q.dateRange) && forall t: Transaction :: Valid(t.date) ==> !Matches(t, q, found))
  {
    hide Matches, SameMeaning, AnyDate, ScopeIsExact, Bounds, ValidPeriod;
    var base := q.(dateRange := None);
    var scope := q.dateRange;
    var kept := [];
    assert ScopeIsExact(q, 0, scope) by { NothingFolded(q); }
    for i := 0 to |q.drilldowns|
      invariant kept == Kept(q.drilldowns[..i])
      invariant ScopeIsExact(q, i, scope)
      invariant scope.Some? ==> AtMost(scope.value.start, scope.value.end)
    {
      assert q.drilldowns[..i + 1][..i] == q.drilldowns[..i];
      var drilldown := q.drilldowns[i];
      if drilldown.dimension != Time {
        kept := kept + [drilldown];
        SkippedIsExact(q, i, scope);
      } else {
        var period := Bounds(drilldown.period.value);
        ValidBounds(drilldown.period.value);
        if period.None? {
          return None;
        }
        var (narrowed, overlaps) := Intersect(scope, period.value);
        if !overlaps {
          DisjointMeaning(q, i, scope, found);
          NothingMatches(q, found);
          return Some((q, q.dateRange));
        }
        NarrowedIsExact(q, i, scope, period.value);
        scope := narrowed;
      }
    }
    assert q.drilldowns[..|q.drilldowns|] == q.drilldowns;
    FoldedMeaning(q, scope, found);
    FoldedLeavesDatesOpen(q, found);
    return Some((base.(drilldowns := kept), scope));
  }

  lemma NothingFolded(q: Query)
    ensures ScopeIsExact(q, 0, q.dateRange)
  {
    hide InScope, Valid;
  }

  lemma NothingMatches(q: Query, found: Searcher)
    requires forall t: Transaction :: Valid(t.date) ==> !Matches(t, q, found)
    ensures SameMeaning(q, q, q.dateRange, found)
  {
  }

  // Filtering -----------------------------------------------------------------------------------------------

  /** The matching transactions in their order. */
  function Filtered(ts: seq<Transaction>, keep: Transaction -> bool): seq<Transaction> {
    if ts == [] then []
    else
      var last := ts[|ts| - 1];
      Filtered(ts[..|ts| - 1], keep) + if keep(last) then [last] else []
  }

  /** Filters, as predicates on transactions. */
  function Matching(q: Query, found: Searcher): Transaction -> bool {
    (t: Transaction) => Matches(t, q, found)
  }

  function Listed(ids: set<Key>): Transaction -> bool {
    (t: Transaction) => t.id in ids
  }

  function Scoped(scope: Option<Range>): Transaction -> bool {
    (t: Transaction) => InScope(t.date, scope)
  }

  function Both(a: Transaction -> bool, b: Transaction -> bool): Transaction -> bool {
    (t: Transaction) => a(t) && b(t)
  }

  method FilterTransactions(ts: seq<Transaction>, q: Query, found: Searcher) returns (r: seq<Transaction>)
    ensures r == Filtered(ts, Matching(q, found))
  {
    r := [];
    for i := 0 to |ts|
      invariant r == Filtered(ts[..i], Matching(q, found))
    {
      assert ts[..i + 1][..i] == ts[..i];
      if Matches(ts[i], q, found) {
        r := r + [ts[i]];
      }
    }
    assert ts[..|ts|] == ts;
  }

  lemma {:induction false} FilteredTwice(ts: seq<Transaction>, first: Transaction -> bool, second: Transaction -> bool)
    ensures Filtered(Filtered(ts, first), second) == Filtered(ts, Both(first, second))
  {
    if ts != [] {
      var rest, last := ts[..|ts| - 1], ts[|ts| - 1];
      FilteredTwice(rest, first, second);
      if first(last) {
        var inner := Filtered(rest, first);
        assert (inner + [last])[..|inner|] == inner;
      } else {
        assert Filtered(ts, first) == Filtered(rest, first);
      }
    }
  }

  /** Search matches, when given, replace the search expression. */
  method FilterInsights(ts: seq<Transaction>, base: Query, matches: Option<set<Key>>, found: Searcher)
    returns (r: seq<Transaction>)
    ensures matches.None? ==> r == Filtered(ts, Matching(base, found))
    ensures matches.Some? ==> r == Filtered(ts, Both(Matching(base.(search := ""), found), Listed(matches.value)))
  {
    if matches.None? {
      r := FilterTransactions(ts, base, found);
      return;
    }
    var filtered := FilterTransactions(ts, base.(search := ""), found);
    r := [];
    for i := 0 to |filtered|
      invariant r == Filtered(filtered[..i], Listed(matches.value))
    {
      assert filtered[..i + 1][..i] == filtered[..i];
      if filtered[i].id in matches.value {
        r := r + [filtered[i]];
      }
    }
    assert filtered[..|filtered|] == filtered;
    FilteredTwice(ts, Matching(base.(search := ""), found), Listed(matches.value));
  }

  lemma {:induction false} SameFilter(ts: seq<Transaction>, a: Transaction -> bool, b: Transaction -> bool)
    requires forall t :: t in ts ==> a(t) == b(t)
    ensures Filtered(ts, a) == Filtered(ts, b)
  {
    if ts != [] {
      SameFilter(ts[..|ts| - 1], a, b);
    }
  }

  /** Filtering with the rewritten query and then by the scope keeps exactly the view's transactions:
  charts over the scope show what the table shows. */
  lemma ChartsShowTheTable(ts: seq<Transaction>, q: Query, base: Query, scope: Option<Range>, found: Searcher)
    requires SameMeaning(q, base, scope, found) && forall t :: t in ts ==> Valid(t.date)
    ensures Filtered(Filtered(ts, Matching(base, found)), Scoped(scope)) == Filtered(ts, Matching(q, found))
  {
    hide Matches, InScope;
    FilteredTwice(ts, Matching(base, found), Scoped(scope));
    SameFilter(ts, Both(Matching(base, found), Scoped(scope)), Matching(q, found));
  }
}
