/** Aggregate rows of one dimension: totals per key, a merchant's top category, and every row's share. */
module Aggregates {
  import opened Wrappers
  import opened Ranking
  import opened Text
  import opened CrossTab
  import opened QueryScope
  import opened Rounding
  import opened Compositions
  import opened Totals

  const PERCENT := 100

  // Category activity ---------------------------------------------------------------------------------------

  /** Activity by category name. */
  type Activities = map<string, nat>

  function At(m: Activities, c: string): nat {
    if c in m then m[c] else 0
  }

  /** The activity of all categories. */
  ghost function Total(m: Activities): nat
    decreases |m|
  {
    if m == map[] then 0
    else
      var c :| c in m;
      m[c] + Total(m - {c})
  }

  lemma {:induction false} TotalPick(m: Activities, c: string)
    requires c in m
    ensures Total(m) == m[c] + Total(m - {c})
    decreases |m|
  {
    var d :| d in m && Total(m) == m[d] + Total(m - {d});
    if c != d {
      TotalPick(m - {d}, c);
      TotalPick(m - {c}, d);
      assert m - {d} - {c} == m - {c} - {d};
    }
  }

  lemma TotalGrows(m: Activities, c: string, more: nat)
    ensures Total(m[c := At(m, c) + more]) == Total(m) + more
    ensures At(m, c) <= Total(m)
  {
    var after := m[c := At(m, c) + more];
    TotalPick(after, c);
    if c in m {
      TotalPick(m, c);
      assert after - {c} == m - {c};
    } else {
      assert after - {c} == m;
    }
  }

  /** The magnitudes of the visible transactions with a category, added without limits. */
  ghost function Activity(ts: seq<Transaction>, keep: Transaction -> bool, c: string): nat {
    if ts == [] then 0
    else
      var last := ts[|ts| - 1];
      Activity(ts[..|ts| - 1], keep, c) + if keep(last) && !last.hidden
          && last.categoryName == c then Magnitude(last.minor) else 0
  }

  /** The categories of the visible transactions. */
  function CategoriesOf(ts: seq<Transaction>, keep: Transaction -> bool): set<string> {
    set t | t in ts && keep(t) && !t.hidden :: t.categoryName
  }

  lemma CategoriesStep(ts: seq<Transaction>, t: Transaction, keep: Transaction -> bool)
    ensures CategoriesOf(ts + [t], keep) ==
            CategoriesOf(ts, keep) + if keep(t) && !t.hidden then {t.categoryName} else {}
  {
    forall u ensures u in ts + [t] <==> u in ts || u == t {
    }
  }

  lemma ActivityStep(ts: seq<Transaction>, t: Transaction, keep: Transaction -> bool, c: string)
    ensures Activity(ts + [t], keep, c) ==
            Activity(ts, keep, c) + if keep(t) && !t.hidden && t.categoryName == c then Magnitude(t.minor) else 0
  {
    assert (ts + [t])[..|ts|] == ts;
  }

  lemma {:induction false} NoActivity(ts: seq<Transaction>, keep: Transaction -> bool, c: string)
    requires KeepsNone(ts, keep)
    ensures Activity(ts, keep, c) == 0
  {
    if ts != [] {
      NoActivity(ts[..|ts| - 1], keep, c);
    }
  }

  lemma NoCategories(ts: seq<Transaction>, keep: Transaction -> bool)
    requires KeepsNone(ts, keep)
    ensures CategoriesOf(ts, keep) == {}
  {
  }

  // The top category ------------------------------------------------------------------------------------------

  datatype Top = Top(category: string, percent: int)

  /** The most active category, the first by name of equals.  A category without a name only stands for
  itself when there is no other. */
  ghost predicate TopRight(top: Option<Top>, m: Activities) {
    if top.None? then Total(m) == 0
    else
      var name := top.value.category;
      && Total(m) > 0 && name in m && (name == "" ==> m.Keys == {""})
      && top.value.percent == Rounded(m[name] * PERCENT, Total(m))
      && forall c :: c in m && c != "" && c != name ==> m[c] < m[name] || (m[c] == m[name] && TextBefore(name, c))
  }

  lemma PartOfHundred(part: int, whole: int)
    requires 0 <= part <= whole && whole > 0
    ensures 0 <= Rounded(part * PERCENT, whole) <= PERCENT
  {
    var a, b := 2 * (part * PERCENT) + whole, 2 * whole;
    assert a == b * (a / b) + a % b;
    Bounded(b, a / b, PERCENT + 1);
    Bounded(b, a / b, 0);
  }

  lemma RestOfTotal(m: Activities, todo: set<string>, c: string)
    requires todo <= m.Keys && c in todo
    ensures Total(m - (m.Keys - todo)) == m[c] + Total(m - (m.Keys - (todo - {c})))
  {
    TotalPick(m - (m.Keys - todo), c);
    assert m - (m.Keys - todo) - {c} == m - (m.Keys - (todo - {c}));
  }

  /** Adds up the activities: they fit because their total does. */
  method TotalActivity(m: Activities) returns (total: nat)
    requires Total(m) <= MAX_UINT64
    ensures total == Total(m)
  {
    total := 0;
    var todo := m.Keys;
    assert m - (m.Keys - todo) == m;
    while todo != {}
      invariant todo <= m.Keys && total + Total(m - (m.Keys - todo)) == Total(m)
      decreases todo
    {
      var c :| c in todo;
      RestOfTotal(m, todo, c);
      if MAX_UINT64 - total < m[c] {
        assert false;
      }
      total := total + m[c];
      todo := todo - {c};
    }
    assert m - (m.Keys - todo) == map[];
  }

  /** What the first `n` names by order have made of the top. */
  ghost predicate Leads(top: string, m: Activities, names: seq<string>, n: nat)
    requires n <= |names|
  {
    && (top == "" ==> forall i :: 0 <= i < n ==> names[i] == "")
    && (top != "" ==> top in m && top in names[..n]
                      && forall i :: 0 <= i < n && names[i] in m && names[i] != "" && names[i] != top ==>
                           m[names[i]] < m[top] || (m[names[i]] == m[top] && TextBefore(top, names[i])))
  }

  lemma LeadsStep(top: string, m: Activities, names: seq<string>, n: nat)
    requires n < |names| && Sorted(names, TextBefore) && (forall i :: 0 <= i < |names| ==> names[i] in m)
        && Leads(top, m, names, n)
    ensures
      var next := if top == "" || m[names[n]] > m[top] then names[n] else top;
      Leads(next, m, names, n + 1)
  {
    var next := if top == "" || m[names[n]] > m[top] then names[n] else top;
    assert names[..n + 1] == names[..n] + [names[n]];
    if top != "" {
      var k :| 0 <= k < n && names[k] == top;
      assert TextBefore(names[k], names[n]);
    }
  }

  /** The top category of a merchant and its percentage; neither sum can overflow. */
  method SetTopCategory(m: Activities) returns (top: Option<Top>)
    requires Total(m) <= MAX_UINT64
    ensures TopRight(top, m)
  {
    hide Rounded, Total, TextBefore, Sorted, TotalOn, Leads;
    var total := TotalActivity(m);
    if total == 0 {
      return None;
    }
    NamesTotal(m.Keys);
    var names := Sort(m.Keys, TextBefore);
    NamesListed(m, names);
    var name := "";
    NobodyLeads(m, names);
    for i := 0 to |names|
      invariant Leads(name, m, names, i)
      invariant name == "" || name in m
    {
      LeadsStep(name, m, names, i);
      if name == "" || m[names[i]] > m[name] {
        name := names[i];
      }
    }
    LeaderIsTop(name, m, names);
    TotalGrows(m, name, 0);
    RatioIsExact(m[name], total, PERCENT);
    PartOfHundred(m[name], total);
    var percent := RatioHalfUp(m[name], total, PERCENT);
    return Some(Top(name, percent.value));
  }

  lemma NamesListed(m: Activities, names: seq<string>)
    requires Elements(names) == m.Keys
    ensures forall i :: 0 <= i < |names| ==> names[i] in m
  {
    forall i | 0 <= i < |names| ensures names[i] in m {
      assert names[i] in Elements(names);
    }
  }

  lemma NobodyLeads(m: Activities, names: seq<string>)
    ensures Leads("", m, names, 0)
  {
  }

  lemma LeaderIsTop(name: string, m: Activities, names: seq<string>)
    requires Elements(names) == m.Keys && Leads(name, m, names, |names|) && Total(m) > 0
    ensures name in m && (name == "" ==> m.Keys == {""})
    ensures forall c :: c in m && c != "" && c != name ==> m[c] < m[name] || (m[c] == m[name] && TextBefore(name, c))
  {
    hide TextBefore;
    assert m != map[];
    forall c | c in m ensures exists i :: 0 <= i < |names| && names[i] == c {
      assert c in Elements(names);
    }
    if name == "" {
      assert forall c :: c in m ==> c == "";
      var c :| c in m;
      assert m.Keys == {""};
    }
  }

  // Accumulating ------------------------------------------------------------------------------------------------

  /** One row with the activity of its categories, kept for merchants only. */
  datatype Accumulator = Accumulator(row: Row, activities: Activities)

  const EMPTY := Accumulator(Row(ZERO, 0), map[])

  function RowsOf(accs: map<Bucket, Accumulator>): map<Bucket, Row> {
    map b | b in accs :: accs[b].row
  }

  /** The activities are the bucket's brute-force ones, one for each category that occurs, and add up to what the row
  moved in and out. */
  ghost predicate ActivityRight(acc: Accumulator, ts: seq<Transaction>, key: Transaction -> Key, b: Bucket,
    merchants: bool)
  {
    if merchants then
      && Total(acc.activities) == acc.row.cell.income - acc.row.cell.spending
      && acc.activities.Keys == CategoriesOf(ts, InBucket(b, key))
      && forall c :: At(acc.activities, c) == Activity(ts, InBucket(b, key), c)
    else acc.activities == map[]
  }

  ghost predicate AccumulatorsRight(accs: map<Bucket, Accumulator>, ts: seq<Transaction>, key: Transaction -> Key,
    merchants: bool)
  {
    && RowsRight(RowsOf(accs), ts, key)
    && forall b :: b in accs ==> ActivityRight(accs[b], ts, key, b, merchants)
  }

  lemma NothingYet(ts: seq<Transaction>, key: Transaction -> Key, merchants: bool, b: Bucket)
    requires !BucketSeen(ts, key, b)
    ensures ActivityRight(EMPTY, ts, key, b, merchants)
  {
    hide InBucket, KeepsNone, BucketSeen, Plus, Activity, CategoriesOf;
    UnseenKeepsNone(ts, key, b);
    NoCategories(ts, InBucket(b, key));
    forall c ensures Activity(ts, InBucket(b, key), c) == 0 {
      NoActivity(ts, InBucket(b, key), c);
    }
    assert Total(map[]) == 0;
  }

  lemma AccumulatorOf(accs: map<Bucket, Accumulator>, ts: seq<Transaction>, key: Transaction -> Key, merchants: bool,
    b: Bucket)
    requires AccumulatorsRight(accs, ts, key, merchants)
    ensures b in accs ==> RowRight(ts, key, b, accs[b].row) && ActivityRight(accs[b], ts, key, b, merchants)
    ensures b !in accs ==> !BucketSeen(ts, key, b)
  {
    hide RowRight, ActivityRight, BucketSeen;
    assert b in RowsOf(accs) <==> b in accs;
  }

  // The category's activity fits because the row's income and spending do.
  lemma ActivityFits(row: Row, t: Transaction, activities: Activities)
    requires Total(activities) == row.cell.income - row.cell.spending && CellFits(row.cell)
        && row.total == Net(row.cell)
    requires Fits(t.minor) && !t.hidden && AddToRow(row, t).Some?
    ensures At(activities, t.categoryName) + Magnitude(t.minor) <= MAX_UINT64
    ensures
      var after := AddToRow(row, t).value;
      Total(activities) + Magnitude(t.minor) == after.cell.income - after.cell.spending
  {
    TotalGrows(activities, t.categoryName, 0);
    TotalNeverOverflows(row, t);
    hide AddToRow;
  }

  lemma HiddenMovesNothing(row: Row, t: Transaction)
    requires Fits(t.minor) && t.hidden
    ensures AddToRow(row, t).Some?
    ensures
      var after := AddToRow(row, t).value;
      after.cell.income == row.cell.income && after.cell.spending == row.cell.spending
  {
  }

  function WithActivity(m: Activities, t: Transaction): Activities {
    m[t.categoryName := At(m, t.categoryName) + Magnitude(t.minor)]
  }

  lemma ActivityAdvances(
    acc: Accumulator, ts: seq<Transaction>, t: Transaction, key: Transaction -> Key, b: Bucket, merchants: bool,
    after: Accumulator)
    requires ActivityRight(acc, ts, key, b, merchants) && RowRight(ts, key, b, acc.row) && Fits(t.minor)
    requires BucketOf(t, key) == b && AddToRow(acc.row, t) == Some(after.row)
    requires after.activities == if merchants && !t.hidden then WithActivity(acc.activities, t) else acc.activities
    ensures ActivityRight(after, ts + [t], key, b, merchants)
  {
    hide Activity, AddToRow, CellSum, Total, CategoriesOf;
    if merchants {
      CategoriesStep(ts, t, InBucket(b, key));
      forall c
        ensures Activity(ts + [t], InBucket(b, key), c) ==
                Activity(ts, InBucket(b, key), c) + if !t.hidden && t.categoryName == c then Magnitude(t.minor) else 0
      {
        ActivityStep(ts, t, InBucket(b, key), c);
      }
      if t.hidden {
        HiddenMovesNothing(acc.row, t);
      } else {
        ActivityFits(acc.row, t, acc.activities);
        TotalGrows(acc.activities, t.categoryName, Magnitude(t.minor));
      }
    }
  }

  lemma ActivityStays(acc: Accumulator, ts: seq<Transaction>, t: Transaction, key: Transaction -> Key, b: Bucket,
    merchants: bool)
    requires ActivityRight(acc, ts, key, b, merchants) && BucketOf(t, key) != b
    ensures ActivityRight(acc, ts + [t], key, b, merchants)
  {
    forall c ensures Activity(ts + [t], InBucket(b, key), c) == Activity(ts, InBucket(b, key), c) {
      ActivityStep(ts, t, InBucket(b, key), c);
    }
    CategoriesStep(ts, t, InBucket(b, key));
    hide Activity, InBucket, CategoriesOf;
  }

  lemma AccumulatorsStep(
    accs: map<Bucket, Accumulator>, ts: seq<Transaction>, t: Transaction, key: Transaction -> Key, merchants: bool,
    after: Accumulator)
    requires AccumulatorsRight(accs, ts, key, merchants) && Fits(t.minor)
    requires RowRight(ts + [t], key, BucketOf(t, key), after.row)
    requires ActivityRight(after, ts + [t], key, BucketOf(t, key), merchants)
    ensures AccumulatorsRight(accs[BucketOf(t, key) := after], ts + [t], key, merchants)
  {
    hide RowsRight, RowRight, ActivityRight, BucketOf;
    var b := BucketOf(t, key);
    RowsStep(RowsOf(accs), ts, t, key, after.row);
    assert RowsOf(accs[b := after]) == RowsOf(accs)[b := after.row];
    forall o | o in accs && o != b ensures ActivityRight(accs[o], ts + [t], key, o, merchants) {
      ActivityStays(accs[o], ts, t, key, o, merchants);
    }
  }

  lemma NoAccumulators(key: Transaction -> Key, merchants: bool)
    ensures AccumulatorsRight(map[], [], key, merchants)
  {
    NoRows(key);
    assert RowsOf(map[]) == map[];
  }

  /** One accumulator per currency, scale and key: it fails exactly when some row's true income or spending
  leaves 64 bits; a category's activity never does. */
  method Accumulate(ts: seq<Transaction>, key: Transaction -> Key, merchants: bool)
    returns (r: Option<map<Bucket, Accumulator>>)
    requires AmountsFit(ts)
    ensures r.Some? <==> BucketsFit(ts, key)
    ensures r.Some? ==> AccumulatorsRight(r.value, ts, key, merchants)
  {
    hide AccumulatorsRight, RowRight, BucketsFit, CellSum, AddToRow, CellFits, InBucket, ActivityRight, BucketSeen;
    var accs: map<Bucket, Accumulator> := map[];
    assert ts[..0] == [];
    NoAccumulators(key, merchants);
    for n := 0 to |ts|
      invariant AccumulatorsRight(accs, ts[..n], key, merchants)
    {
      assert ts[..n + 1] == ts[..n] + [ts[n]];
      var t := ts[n];
      var bucket := BucketOf(t, key);
      var acc := if bucket in accs then accs[bucket] else EMPTY;
      AccumulatorOf(accs, ts[..n], key, merchants, bucket);
      if bucket !in accs {
        UnseenRow(ts[..n], key, bucket);
        NothingYet(ts[..n], key, merchants, bucket);
      }
      RowStep(ts[..n], t, key, bucket, acc.row);
      var added := AddToRow(acc.row, t);
      if added.None? {
        BucketOverflowStays(ts, n + 1, key, bucket);
        return None;
      }
      var activities := acc.activities;
      if merchants && !t.hidden {
        RightFits(acc, ts[..n], t, key, bucket);
        AbsIs(t.minor);
        var activity := AbsMinor(t.minor);
        var current := At(activities, t.categoryName);
        if MAX_UINT64 - current < activity {
          assert false;
        }
        activities := activities[t.categoryName := current + activity];
      }
      var after := Accumulator(added.value, activities);
      ActivityAdvances(acc, ts[..n], t, key, bucket, merchants, after);
      AccumulatorsStep(accs, ts[..n], t, key, merchants, after);
      accs := accs[bucket := after];
    }
    assert ts[..|ts|] == ts;
    AccumulatorsFit(accs, ts, key, merchants);
    return Some(accs);
  }

  lemma RightFits(acc: Accumulator, ts: seq<Transaction>, t: Transaction, key: Transaction -> Key, b: Bucket)
    requires RowRight(ts, key, b, acc.row) && ActivityRight(acc, ts, key, b, true)
    requires Fits(t.minor) && !t.hidden && AddToRow(acc.row, t).Some?
    ensures At(acc.activities, t.categoryName) + Magnitude(t.minor) <= MAX_UINT64
  {
    ActivityFits(acc.row, t, acc.activities);
  }

  lemma AccumulatorsFit(accs: map<Bucket, Accumulator>, ts: seq<Transaction>, key: Transaction -> Key, merchants: bool)
    requires AccumulatorsRight(accs, ts, key, merchants)
    ensures BucketsFit(ts, key)
  {
    RowsFit(RowsOf(accs), ts, key);
  }

  // Finished rows -----------------------------------------------------------------------------------------------

  datatype AggregateRow = AggregateRow(bucket: Bucket, row: Row, top: Option<Top>, share: int)

  function ShareRows(rows: seq<AggregateRow>): (r: seq<ShareRow>)
    ensures |r| == |rows|
    ensures forall i :: 0 <= i < |rows| ==> r[i] == ShareRow(rows[i].bucket.partition, rows[i].row.total, rows[i].share)
  {
    seq(|rows|, i requires 0 <= i < |rows| => ShareRow(rows[i].bucket.partition, rows[i].row.total, rows[i].share))
  }

  function BucketsOf(ts: seq<Transaction>, key: Transaction -> Key): set<Bucket> {
    set t | t in ts :: BucketOf(t, key)
  }

  function BucketSet(rows: seq<AggregateRow>): set<Bucket> {
    set a | a in rows :: a.bucket
  }

  ghost function NetOf(ts: seq<Transaction>, key: Transaction -> Key, b: Bucket): int {
    Net(CellSum(ts, InBucket(b, key)))
  }

  /** A bucket's part of the denominator of a currency, scale and sign. */
  ghost function PartOf(ts: seq<Transaction>, key: Transaction -> Key, b: Bucket, p: Partition, income: bool): int {
    var net := NetOf(ts, key, b);
    if b.partition == p && (if income then net > 0 else net < 0) then Magnitude(net) else 0
  }

  /** The true denominator of a currency, scale and sign over some buckets. */
  ghost function SideTotal(bs: set<Bucket>, ts: seq<Transaction>, key: Transaction -> Key, p: Partition,
    income: bool): int
    decreases |bs|
  {
    if bs == {} then 0
    else
      var b :| b in bs;
      PartOf(ts, key, b, p, income) + SideTotal(bs - {b}, ts, key, p, income)
  }

  lemma {:induction false} SideTotalPick(bs: set<Bucket>, ts: seq<Transaction>, key: Transaction -> Key, p: Partition,
    income: bool, b: Bucket)
    requires b in bs
    ensures SideTotal(bs, ts, key, p, income) == PartOf(ts, key, b, p, income) + SideTotal(bs - {b}, ts, key, p, income)
    decreases |bs|
  {
    hide PartOf;
    var d :| d in bs && SideTotal(bs, ts, key, p, income) ==
        PartOf(ts, key, d, p, income) + SideTotal(bs - {d}, ts, key, p, income);
    if b != d {
      SideTotalPick(bs - {d}, ts, key, p, income, b);
      SideTotalPick(bs - {b}, ts, key, p, income, d);
      assert bs - {d} - {b} == bs - {b} - {d};
    }
  }

  /** Every denominator of a share fits in 64 unsigned bits. */
  ghost predicate DenominatorsFit(ts: seq<Transaction>, key: Transaction -> Key) {
    forall p, income :: SideTotal(BucketsOf(ts, key), ts, key, p, income) <= MAX_UINT64
  }

  ghost predicate OneEach(rows: seq<AggregateRow>) {
    forall i, j :: 0 <= i < j < |rows| ==> rows[i].bucket != rows[j].bucket
  }

  ghost predicate RowsTrue(rows: seq<AggregateRow>, ts: seq<Transaction>, key: Transaction -> Key) {
    forall i :: 0 <= i < |rows| ==> RowRight(ts, key, rows[i].bucket, rows[i].row)
  }

  // The list's denominators are the true ones, in whatever order the rows were listed.
  lemma {:induction false} ListWhole(rows: seq<AggregateRow>, ts: seq<Transaction>, key: Transaction -> Key,
    p: Partition, income: bool)
    requires OneEach(rows) && RowsTrue(rows, ts, key)
    ensures Whole(ShareRows(rows), p, income) == SideTotal(BucketSet(rows), ts, key, p, income)
  {
    hide Whole, CellSum, InBucket, CellFits;
    if rows == [] {
      assert ShareRows(rows) == [] && BucketSet(rows) == {};
      WholeEmpty(p, income);
    } else {
      var n := |rows| - 1;
      var last := rows[n];
      ListWhole(rows[..n], ts, key, p, income);
      assert ShareRows(rows) == ShareRows(rows[..n]) + [ShareRows(rows)[n]];
      WholeStep(ShareRows(rows[..n]), ShareRows(rows)[n], p, income);
      assert rows == rows[..n] + [last] && last.bucket !in BucketSet(rows[..n]);
      assert BucketSet(rows) - {last.bucket} == BucketSet(rows[..n]);
      SideTotalPick(BucketSet(rows), ts, key, p, income, last.bucket);
      assert RowRight(ts, key, last.bucket, last.row);
    }
  }

  ghost predicate TopOf(a: AggregateRow, ts: seq<Transaction>, key: Transaction -> Key, merchants: bool) {
    if merchants then exists m :: ActivityRight(Accumulator(a.row, m), ts, key, a.bucket, true) && TopRight(a.top, m)
    else a.top.None?
  }

  /** The exact share of a net among the rows of its currency, scale and sign. */
  ghost function ShareOf(ts: seq<Transaction>, key: Transaction -> Key, b: Bucket): int {
    var net := NetOf(ts, key, b);
    var whole := SideTotal(BucketsOf(ts, key), ts, key, b.partition, net > 0);
    if net == 0 || whole <= 0 then 0 else Rounded(Magnitude(net) * TENTHS, whole)
  }

  /** One finished row per bucket that occurs: its exact totals, its merchant's top category and its share. */
  ghost predicate Aggregated(rows: seq<AggregateRow>, ts: seq<Transaction>, key: Transaction -> Key, merchants: bool) {
    && OneEach(rows) && BucketSet(rows) == BucketsOf(ts, key) && RowsTrue(rows, ts, key)
    && forall i :: 0 <= i < |rows| ==>
       TopOf(rows[i], ts, key, merchants) && rows[i].share == ShareOf(ts, key, rows[i].bucket)
  }

  // The rows finished so far, without shares.
  ghost predicate Listed(
    rows: seq<AggregateRow>, accs: map<Bucket, Accumulator>, todo: set<Bucket>, ts: seq<Transaction>,
    key: Transaction -> Key, merchants: bool)
  {
    && OneEach(rows) && BucketSet(rows) == accs.Keys - todo && RowsTrue(rows, ts, key)
    && forall i :: 0 <= i < |rows| ==> TopOf(rows[i], ts, key, merchants) && rows[i].share == 0
  }

  lemma ListOne(
    rows: seq<AggregateRow>, accs: map<Bucket, Accumulator>, todo: set<Bucket>, ts: seq<Transaction>,
    key: Transaction -> Key,
    merchants: bool, b: Bucket, top: Option<Top>)
    requires Listed(rows, accs, todo, ts, key, merchants) && AccumulatorsRight(accs, ts, key, merchants)
    requires b in todo && todo <= accs.Keys && if merchants then TopRight(top, accs[b].activities) else top.None?
    ensures Listed(rows + [AggregateRow(b, accs[b].row, top, 0)], accs, todo - {b}, ts, key, merchants)
  {
    hide RowRight, ActivityRight, TopRight, RowsRight;
    AccumulatorOf(accs, ts, key, merchants, b);
    var added := AggregateRow(b, accs[b].row, top, 0);
    var after := rows + [added];
    assert accs[b] == Accumulator(accs[b].row, accs[b].activities);
    assert TopOf(added, ts, key, merchants);
    forall i | 0 <= i < |rows| ensures rows[i].bucket != b {
      assert rows[i] in rows && rows[i].bucket in BucketSet(rows);
    }
    assert BucketSet(after) == BucketSet(rows) + {b};
    hide TopOf;
  }

  lemma ActivityTotalFits(accs: map<Bucket, Accumulator>, ts: seq<Transaction>, key: Transaction -> Key, b: Bucket)
    requires AccumulatorsRight(accs, ts, key, true) && b in accs
    ensures Total(accs[b].activities) <= MAX_UINT64
  {
    hide RowsRight, BucketSeen;
    AccumulatorOf(accs, ts, key, true, b);
    hide CellSum, Total;
  }

  lemma KeysAreBuckets(accs: map<Bucket, Accumulator>, ts: seq<Transaction>, key: Transaction -> Key, merchants: bool)
    requires AccumulatorsRight(accs, ts, key, merchants)
    ensures accs.Keys == BucketsOf(ts, key)
  {
    hide RowRight, ActivityRight;
    forall b ensures b in accs <==> b in BucketsOf(ts, key) {
      assert b in RowsOf(accs) <==> b in accs;
      if b in BucketsOf(ts, key) {
        var t :| t in ts && BucketOf(t, key) == b;
      }
      assert BucketSeen(ts, key, b) ==> b in BucketsOf(ts, key);
    }
  }

  /** Finishes every accumulator: a merchant's top category cannot fail. */
  method FinishRows(accs: map<Bucket, Accumulator>, ghost ts: seq<Transaction>, ghost key: Transaction -> Key,
    merchants: bool)
    returns (rows: seq<AggregateRow>)
    requires AccumulatorsRight(accs, ts, key, merchants)
    ensures Listed(rows, accs, {}, ts, key, merchants)
  {
    hide Listed, AccumulatorsRight, TopRight, Total;
    rows := [];
    var todo := accs.Keys;
    NoneListed(accs, ts, key, merchants);
    while todo != {}
      invariant todo <= accs.Keys && Listed(rows, accs, todo, ts, key, merchants)
      decreases todo
    {
      var b :| b in todo;
      var top := None;
      if merchants {
        ActivityTotalFits(accs, ts, key, b);
        top := SetTopCategory(accs[b].activities);
      }
      ListOne(rows, accs, todo, ts, key, merchants, b, top);
      rows := rows + [AggregateRow(b, accs[b].row, top, 0)];
      todo := todo - {b};
    }
  }

  lemma NoneListed(accs: map<Bucket, Accumulator>, ts: seq<Transaction>, key: Transaction -> Key, merchants: bool)
    ensures Listed([], accs, accs.Keys, ts, key, merchants)
  {
  }

  function WithShares(rows: seq<AggregateRow>, shared: seq<ShareRow>): (r: seq<AggregateRow>)
    requires |shared| == |rows|
    ensures |r| == |rows| && forall i :: 0 <= i < |rows| ==> r[i] == rows[i].(share := shared[i].share)
  {
    seq(|rows|, i requires 0 <= i < |rows| => rows[i].(share := shared[i].share))
  }

  lemma ListedWholes(rows: seq<AggregateRow>, accs: map<Bucket, Accumulator>, ts: seq<Transaction>,
    key: Transaction -> Key, merchants: bool)
    requires Listed(rows, accs, {}, ts, key, merchants) && AccumulatorsRight(accs, ts, key, merchants)
    ensures BucketSet(rows) == BucketsOf(ts, key)
    ensures forall p, income :: Whole(ShareRows(rows), p, income) == SideTotal(BucketsOf(ts, key), ts, key, p, income)
    ensures WholesFit(ShareRows(rows)) <==> DenominatorsFit(ts, key)
    ensures forall i :: 0 <= i < |rows| ==> Fits(ShareRows(rows)[i].total)
  {
    KeysAreBuckets(accs, ts, key, merchants);
    assert accs.Keys - {} == accs.Keys;
    forall p, income ensures Whole(ShareRows(rows), p, income) == SideTotal(BucketsOf(ts, key), ts, key, p, income) {
      ListWhole(rows, ts, key, p, income);
    }
    forall i | 0 <= i < |rows| ensures Fits(rows[i].row.total) {
      assert RowRight(ts, key, rows[i].bucket, rows[i].row);
      hide CellSum;
    }
    hide Whole, SideTotal, BucketsOf, RowsTrue, OneEach, AccumulatorsRight;
  }

  lemma SharesFinish(
    rows: seq<AggregateRow>, accs: map<Bucket, Accumulator>, ts: seq<Transaction>, key: Transaction -> Key,
    merchants: bool, shared: seq<ShareRow>)
    requires Listed(rows, accs, {}, ts, key, merchants) && BucketSet(rows) == BucketsOf(ts, key)
    requires forall p, income :: Whole(ShareRows(rows), p, income) == SideTotal(BucketsOf(ts, key), ts, key, p, income)
    requires |shared| == |rows| && forall i :: 0 <= i < |rows| ==>
        shared[i] == Shared(ShareRows(rows), ShareRows(rows)[i])
    ensures Aggregated(WithShares(rows, shared), ts, key, merchants)
  {
    var finished := WithShares(rows, shared);
    hide Whole, SideTotal, BucketsOf, CellSum, CellFits, InBucket, Rounded, ActivityRight, TopRight, WithShares;
    forall i | 0 <= i < |rows|
      ensures finished[i].share == ShareOf(ts, key, rows[i].bucket)
    {
      assert RowRight(ts, key, rows[i].bucket, rows[i].row);
    }
    hide ShareOf;
    forall i | 0 <= i < |rows| ensures RowRight(ts, key, finished[i].bucket, finished[i].row) {
      assert RowRight(ts, key, rows[i].bucket, rows[i].row);
    }
    forall i | 0 <= i < |rows| ensures TopOf(finished[i], ts, key, merchants) {
      SameTop(rows[i], finished[i], ts, key, merchants);
    }
    hide RowRight, TopOf;
    SameBuckets(rows, finished);
  }

  lemma SameTop(a: AggregateRow, b: AggregateRow, ts: seq<Transaction>, key: Transaction -> Key, merchants: bool)
    requires TopOf(a, ts, key, merchants) && b == a.(share := b.share)
    ensures TopOf(b, ts, key, merchants)
  {
    hide ActivityRight, TopRight;
  }

  lemma SameBuckets(rows: seq<AggregateRow>, others: seq<AggregateRow>)
    requires |others| == |rows| && forall i :: 0 <= i < |rows| ==> others[i].bucket == rows[i].bucket
    ensures BucketSet(others) == BucketSet(rows)
  {
    forall b ensures b in BucketSet(others) <==> b in BucketSet(rows) {
      if b in BucketSet(rows) {
        var i :| 0 <= i < |rows| && rows[i].bucket == b;
        assert others[i] in others;
      }
      if b in BucketSet(others) {
        var i :| 0 <= i < |others| && others[i].bucket == b;
        assert rows[i] in rows;
      }
    }
  }

  /** The finished rows of one dimension: it fails exactly when some row's true income or spending leaves 64
  bits, or some denominator of the shares leaves 64 unsigned bits. */
  method Aggregate(ts: seq<Transaction>, key: Transaction -> Key, merchants: bool)
    returns (r: Option<seq<AggregateRow>>)
    requires AmountsFit(ts)
    ensures r.Some? <==> BucketsFit(ts, key) && DenominatorsFit(ts, key)
    ensures r.Some? ==> Aggregated(r.value, ts, key, merchants)
  {
    hide BucketsFit, DenominatorsFit, AccumulatorsRight, Listed, Aggregated, WholesFit, Whole, SideTotal, Shared;
    var accs := Accumulate(ts, key, merchants);
    if accs.None? {
      return None;
    }
    var rows := FinishRows(accs.value, ts, key, merchants);
    ListedWholes(rows, accs.value, ts, key, merchants);
    var shared := ApplyShares(ShareRows(rows));
    if shared.None? {
      return None;
    }
    SharesFinish(rows, accs.value, ts, key, merchants, shared.value);
    return Some(WithShares(rows, shared.value));
  }

  /** The shares of the k aggregate rows of one currency, scale and sign differ from 1000 tenths by at most
  k/2. */
  lemma AggregateSharesAddUp(rows: seq<AggregateRow>, ts: seq<Transaction>, key: Transaction -> Key, merchants: bool,
    p: Partition, income: bool)
    requires Aggregated(rows, ts, key, merchants) && Side(ShareRows(rows), p, income) != []
    ensures
      var side := Side(ShareRows(rows), p, income);
      0 - |side| <= 2 * Sum(Shares(side)) - 2 * TENTHS <= |side|
  {
    hide *;
    UnsharedWholes(rows, ts, key, merchants);
    RowsAreShared(rows, ts, key, merchants);
    SharedSideAddsUp(ShareRows(Unshared(rows)), ShareRows(rows), p, income);
  }

  lemma SharedSideAddsUp(base: seq<ShareRow>, after: seq<ShareRow>, p: Partition, income: bool)
    requires |after| == |base| && forall i :: 0 <= i < |base| ==> after[i] == Shared(base, base[i])
    requires Side(after, p, income) != []
    ensures
      var side := Side(after, p, income);
      0 - |side| <= 2 * Sum(Shares(side)) - 2 * TENTHS <= |side|
  {
    hide Side, Sum, Shares, Whole, Rounded;
    SidesMatch(base, after, p, income);
    SideIsThere(base, after, p, income);
    hide Shared;
    RowSharesAddUp(base, after, p, income);
  }

  function Unshared(rows: seq<AggregateRow>): (r: seq<AggregateRow>)
    ensures |r| == |rows| && forall i :: 0 <= i < |rows| ==> r[i] == rows[i].(share := 0)
  {
    seq(|rows|, i requires 0 <= i < |rows| => rows[i].(share := 0))
  }

  lemma UnsharedWholes(rows: seq<AggregateRow>, ts: seq<Transaction>, key: Transaction -> Key, merchants: bool)
    requires Aggregated(rows, ts, key, merchants)
    ensures forall p, income ::
              Whole(ShareRows(Unshared(rows)), p, income) == SideTotal(BucketsOf(ts, key), ts, key, p, income)
  {
    hide RowRight, TopOf, Unshared, BucketsOf;
    var zeros := Unshared(rows);
    SameBuckets(rows, zeros);
    forall i | 0 <= i < |rows| ensures RowRight(ts, key, zeros[i].bucket, zeros[i].row) {
      assert RowRight(ts, key, rows[i].bucket, rows[i].row);
    }
    hide BucketSet;
    forall p, income ensures Whole(ShareRows(zeros), p, income) == SideTotal(BucketsOf(ts, key), ts, key, p, income) {
      ListWhole(zeros, ts, key, p, income);
    }
    hide *;
  }

  lemma RowsAreShared(rows: seq<AggregateRow>, ts: seq<Transaction>, key: Transaction -> Key, merchants: bool)
    requires Aggregated(rows, ts, key, merchants)
    requires forall p, income ::
               Whole(ShareRows(Unshared(rows)), p, income) == SideTotal(BucketsOf(ts, key), ts, key, p, income)
    ensures forall i :: 0 <= i < |rows| ==>
              ShareRows(rows)[i] == Shared(ShareRows(Unshared(rows)), ShareRows(Unshared(rows))[i])
  {
    hide TopOf, Whole, SideTotal, Rounded, BucketsOf, CellSum, CellFits, InBucket, BucketSet, OneEach, Unshared,
         ShareRows;
    forall i | 0 <= i < |rows|
      ensures ShareRows(rows)[i] == Shared(ShareRows(Unshared(rows)), ShareRows(Unshared(rows))[i])
    {
      assert RowRight(ts, key, rows[i].bucket, rows[i].row);
    }
  }

  // Rows on a side are on it with and without their shares.
  lemma SideIsThere(base: seq<ShareRow>, after: seq<ShareRow>, p: Partition, income: bool)
    requires |Side(after, p, income)| == |Side(base, p, income)| && Side(after, p, income) != []
    ensures Side(base, p, income) != []
  {
  }

  lemma {:induction false} SidesMatch(rows: seq<ShareRow>, after: seq<ShareRow>, p: Partition, income: bool)
    requires |after| == |rows| && forall i :: 0 <= i < |rows| ==>
        after[i].partition == rows[i].partition && after[i].total == rows[i].total
    ensures |Side(after, p, income)| == |Side(rows, p, income)|
  {
    if rows != [] {
      var n := |rows| - 1;
      SidesMatch(rows[..n], after[..n], p, income);
    }
  }

  lemma SameTotals(ts: seq<Transaction>, us: seq<Transaction>, key: Transaction -> Key)
    requires multiset(ts) == multiset(us)
    ensures BucketsOf(ts, key) == BucketsOf(us, key)
    ensures forall b :: CellSum(ts, InBucket(b, key)) == CellSum(us, InBucket(b, key))
    ensures forall p, income ::
              SideTotal(BucketsOf(ts, key), ts, key, p, income) == SideTotal(BucketsOf(us, key), us, key, p, income)
  {
    hide InBucket, CellSum, BucketsOf, SideTotal;
    forall b ensures CellSum(ts, InBucket(b, key)) == CellSum(us, InBucket(b, key)) {
      CellSumIsOrderFree(ts, us, InBucket(b, key));
    }
    SameBucketsOf(ts, us, key);
    forall p, income
      ensures SideTotal(BucketsOf(ts, key), ts, key, p, income) == SideTotal(BucketsOf(ts, key), us, key, p, income)
    {
      SameSideTotal(BucketsOf(ts, key), ts, us, key, p, income);
    }
  }

  /** Whether a grouping succeeds does not depend on the order of the transactions. */
  lemma SuccessIsOrderFree(ts: seq<Transaction>, us: seq<Transaction>, key: Transaction -> Key)
    requires multiset(ts) == multiset(us)
    ensures BucketsFit(ts, key) && DenominatorsFit(ts, key) <==> BucketsFit(us, key) && DenominatorsFit(us, key)
  {
    SameTotals(ts, us, key);
    hide CellSum, InBucket, CellFits, SideTotal, BucketsOf;
  }

  // The activity of a category is what its visible transactions move in and out.
  function OfCategory(keep: Transaction -> bool, c: string): Transaction -> bool {
    t => keep(t) && t.categoryName == c
  }

  lemma {:induction false} ActivityIsMovement(ts: seq<Transaction>, keep: Transaction -> bool, c: string)
    ensures
      var cell := CellSum(ts, OfCategory(keep, c));
      Activity(ts, keep, c) == cell.income - cell.spending
  {
    if ts != [] {
      ActivityIsMovement(ts[..|ts| - 1], keep, c);
    }
  }

  lemma SameActivities(ts: seq<Transaction>, us: seq<Transaction>, keep: Transaction -> bool)
    requires multiset(ts) == multiset(us)
    ensures CategoriesOf(ts, keep) == CategoriesOf(us, keep)
    ensures forall c :: Activity(ts, keep, c) == Activity(us, keep, c)
  {
    forall t ensures t in ts <==> t in us {
      assert t in multiset(ts) <==> t in multiset(us);
    }
    hide Activity, CellSum, OfCategory;
    forall c ensures Activity(ts, keep, c) == Activity(us, keep, c) {
      ActivityIsMovement(ts, keep, c);
      ActivityIsMovement(us, keep, c);
      CellSumIsOrderFree(ts, us, OfCategory(keep, c));
    }
  }

  // The most active category is unique.
  lemma TopIsUnique(top: Option<Top>, other: Option<Top>, m: Activities)
    requires TopRight(top, m) && TopRight(other, m)
    ensures top == other
  {
    hide TextBefore, Rounded, Total;
    if top.Some? && other.Some? {
      var a, b := top.value.category, other.value.category;
      TextOrder(a, b, a);
      assert a == "" || b == "" ==> m.Keys == {""};
      assert a in m.Keys && b in m.Keys;
    }
  }

  lemma SameMoves(
    m: Activities, n: Activities, row: Row, other: Row, ts: seq<Transaction>, us: seq<Transaction>,
    key: Transaction -> Key, b: Bucket)
    requires ActivityRight(Accumulator(row, m), ts, key, b, true)
        && ActivityRight(Accumulator(other, n), us, key, b, true)
    requires CategoriesOf(ts, InBucket(b, key)) == CategoriesOf(us, InBucket(b, key))
    requires forall c :: Activity(ts, InBucket(b, key), c) == Activity(us, InBucket(b, key), c)
    ensures m == n
  {
    hide Activity, InBucket, CategoriesOf, Total;
    forall c | c in m ensures m[c] == n[c] {
      assert At(m, c) == At(n, c);
    }
  }

  lemma TopIsOrderFree(
    a: AggregateRow, o: AggregateRow, ts: seq<Transaction>, us: seq<Transaction>, key: Transaction -> Key,
    merchants: bool)
    requires multiset(ts) == multiset(us) && a.bucket == o.bucket && a.row == o.row
    requires TopOf(a, ts, key, merchants) && TopOf(o, us, key, merchants)
    ensures a.top == o.top
  {
    if merchants {
      var keep := InBucket(a.bucket, key);
      SameActivities(ts, us, keep);
      hide Activity, InBucket, CategoriesOf, TopRight, Total;
      var m :| ActivityRight(Accumulator(a.row, m), ts, key, a.bucket, true) && TopRight(a.top, m);
      var n :| ActivityRight(Accumulator(o.row, n), us, key, o.bucket, true) && TopRight(o.top, n);
      hide ActivityRight;
      SameMoves(m, n, a.row, o.row, ts, us, key, a.bucket);
      TopIsUnique(a.top, o.top, m);
    }
  }

  /** Two orders of the same transactions give the same rows: totals, shares and top categories. */
  lemma AggregateOrderIsIrrelevant(
    ts: seq<Transaction>, us: seq<Transaction>, key: Transaction -> Key, merchants: bool,
    rows: seq<AggregateRow>, others: seq<AggregateRow>)
    requires multiset(ts) == multiset(us)
    requires Aggregated(rows, ts, key, merchants) && Aggregated(others, us, key, merchants)
    ensures forall a :: a in rows <==> a in others
  {
    SameTotals(ts, us, key);
    hide Aggregated, CellSum, InBucket, SideTotal, BucketsOf;
    forall a | a in rows ensures a in others {
      RowReappears(ts, us, key, merchants, rows, others, a);
    }
    forall a | a in others ensures a in rows {
      RowReappears(us, ts, key, merchants, others, rows, a);
    }
  }

  lemma RowReappears(
    ts: seq<Transaction>, us: seq<Transaction>, key: Transaction -> Key, merchants: bool,
    rows: seq<AggregateRow>, others: seq<AggregateRow>, a: AggregateRow)
    requires multiset(ts) == multiset(us) && BucketsOf(ts, key) == BucketsOf(us, key)
    requires Aggregated(rows, ts, key, merchants) && Aggregated(others, us, key, merchants) && a in rows
    requires forall b :: CellSum(ts, InBucket(b, key)) == CellSum(us, InBucket(b, key))
    requires forall p, income ::
               SideTotal(BucketsOf(ts, key), ts, key, p, income) == SideTotal(BucketsOf(us, key), us, key, p, income)
    ensures a in others
  {
    hide BucketsOf, CellSum, InBucket, SideTotal, CellFits, TopOf, Rounded;
    assert a.bucket in BucketSet(others);
    var o :| o in others && o.bucket == a.bucket;
    var i :| 0 <= i < |rows| && rows[i] == a;
    var j :| 0 <= j < |others| && others[j] == o;
    assert RowRight(ts, key, a.bucket, rows[i].row) && RowRight(us, key, a.bucket, others[j].row);
    TopIsOrderFree(a, o, ts, us, key, merchants);
  }

  lemma SameBucketsOf(ts: seq<Transaction>, us: seq<Transaction>, key: Transaction -> Key)
    requires multiset(ts) == multiset(us)
    ensures BucketsOf(ts, key) == BucketsOf(us, key)
  {
    forall t ensures t in ts <==> t in us {
      assert t in multiset(ts) <==> t in multiset(us);
    }
  }

  lemma {:induction false} SameSideTotal(
    bs: set<Bucket>, ts: seq<Transaction>, us: seq<Transaction>, key: Transaction -> Key, p: Partition, income: bool)
    requires forall c :: CellSum(ts, InBucket(c, key)) == CellSum(us, InBucket(c, key))
    ensures SideTotal(bs, ts, key, p, income) == SideTotal(bs, us, key, p, income)
    decreases |bs|
  {
    hide CellSum, InBucket;
    if bs != {} {
      var b :| b in bs;
      SideTotalPick(bs, ts, key, p, income, b);
      SideTotalPick(bs, us, key, p, income, b);
      SameSideTotal(bs - {b}, ts, us, key, p, income);
    }
  }
}
