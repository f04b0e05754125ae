/** The one-pass cross-tab, its brute-force meaning, and exact 64-bit totals. */
module CrossTab {
  import opened Wrappers
  import opened Calendar
  import opened Periods
  import opened PeriodRanges
  import opened QueryScope

  // 64-bit minor units ----------------------------------------------------------------------------------

  const MAX_INT64 := 0x7FFF_FFFF_FFFF_FFFF
  const MIN_INT64 := -0x8000_0000_0000_0000

  predicate Fits(x: int) {
    MIN_INT64 <= x <= MAX_INT64
  }

  /** Two's complement wrap-around. */
  function Wrap(x: int): int {
    (x - MIN_INT64) % 0x1_0000_0000_0000_0000 + MIN_INT64
  }

  /** A checked addition that detects wrap-around after the fact. */
  function AddMinor(total: int, amount: int): Option<int> {
    var sum := Wrap(total + amount);
    if (amount > 0 && sum < total) || (amount < 0 && sum > total) then None else Some(sum)
  }

  lemma AddMinorIsExact(total: int, amount: int)
    requires Fits(total) && Fits(amount)
    ensures AddMinor(total, amount) == if Fits(total + amount) then Some(total + amount) else None
  {
  }

  // Cells ---------------------------------------------------------------------------------------------------

  datatype Cell = Cell(count: nat, hidden: nat, pending: nat, income: int, spending: int)

  const ZERO := Cell(0, 0, 0, 0, 0)

  function Plus(a: Cell, b: Cell): Cell {
    Cell(a.count + b.count, a.hidden + b.hidden, a.pending + b.pending, a.income + b.income, a.spending + b.spending)
  }

  /** One transaction's contribution; hidden transactions count but add no money. */
  function One(t: Transaction): Cell {
    Cell(1, if t.hidden then 1 else 0, if t.pending then 1 else 0,
         if !t.hidden && t.minor > 0 then t.minor else 0, if !t.hidden && t.minor < 0 then t.minor else 0)
  }

  /** The brute-force cell: everything that satisfies the predicate, added without limits. */
  function CellSum(ts: seq<Transaction>, keep: Transaction -> bool): Cell {
    if ts == [] then ZERO
    else
      var last := ts[|ts| - 1];
      Plus(CellSum(ts[..|ts| - 1], keep), if keep(last) then One(last) else ZERO)
  }

  predicate CellFits(c: Cell) {
    0 <= c.income <= MAX_INT64 && MIN_INT64 <= c.spending <= 0
  }

  predicate AmountsFit(ts: seq<Transaction>) {
    forall i :: 0 <= i < |ts| ==> Fits(ts[i].minor)
  }

  /** Income and spending together. */
  function Net(c: Cell): int {
    c.income + c.spending
  }

  /** A cell's net cannot overflow. */
  lemma NetFits(c: Cell)
    requires CellFits(c)
    ensures Fits(c.income + c.spending) && Wrap(c.income + c.spending) == c.income + c.spending
  {
  }

  lemma CellSumAppend(ts: seq<Transaction>, t: Transaction, keep: Transaction -> bool)
    ensures CellSum(ts + [t], keep) == Plus(CellSum(ts, keep), if keep(t) then One(t) else ZERO)
  {
    assert (ts + [t])[..|ts|] == ts;
  }

  lemma CellSumStep(ts: seq<Transaction>, t: Transaction, keep: Transaction -> bool)
    ensures CellSum(ts + [t], keep) == if keep(t) then Plus(CellSum(ts, keep), One(t)) else CellSum(ts, keep)
  {
    CellSumAppend(ts, t, keep);
    PlusZero(CellSum(ts, keep));
    hide Plus, One, CellSum;
  }

  lemma PlusZero(c: Cell)
    ensures Plus(c, ZERO) == c
  {
  }

  lemma {:induction false} CellSumSigns(ts: seq<Transaction>, keep: Transaction -> bool)
    ensures CellSum(ts, keep).income >= 0 && CellSum(ts, keep).spending <= 0
  {
    if ts != [] {
      CellSumSigns(ts[..|ts| - 1], keep);
    }
  }

  // More transactions never bring a total back into range.
  lemma {:induction false} CellSumGrows(ts: seq<Transaction>, n: nat, keep: Transaction -> bool)
    requires n <= |ts|
    ensures CellSum(ts[..n], keep).income <= CellSum(ts, keep).income
    ensures CellSum(ts, keep).spending <= CellSum(ts[..n], keep).spending
  {
    if n == |ts| {
      assert ts[..n] == ts;
    } else {
      assert ts[..|ts| - 1][..n] == ts[..n];
      CellSumGrows(ts[..|ts| - 1], n, keep);
    }
  }

  lemma {:induction false} CellSumNarrows(ts: seq<Transaction>, narrow: Transaction -> bool, wide: Transaction -> bool)
    requires forall t :: narrow(t) ==> wide(t)
    ensures CellSum(ts, narrow).income <= CellSum(ts, wide).income
        && CellSum(ts, wide).spending <= CellSum(ts, narrow).spending
  {
    if ts != [] {
      CellSumNarrows(ts[..|ts| - 1], narrow, wide);
    }
  }

  /** The brute-force cell does not depend on the order of the transactions. */
  lemma {:induction false} CellSumIsOrderFree(a: seq<Transaction>, b: seq<Transaction>, keep: Transaction -> bool)
    requires multiset(a) == multiset(b)
    ensures CellSum(a, keep) == CellSum(b, keep)
    decreases |a|
  {
    if a == [] {
      assert |multiset(b)| == |b|;
      assert b == [];
    } else {
      var last := a[|a| - 1];
      assert last in multiset(b);
      var i :| 0 <= i < |b| && b[i] == last;
      var rest := b[..i] + b[i + 1..];
      RemovedMultiset(a, b, i);
      CellSumIsOrderFree(a[..|a| - 1], rest, keep);
      CellSumRemove(b, i, keep);
    }
  }

  lemma RemovedMultiset(a: seq<Transaction>, b: seq<Transaction>, i: nat)
    requires multiset(a) == multiset(b) && |a| > 0 && i < |b| && b[i] == a[|a| - 1]
    ensures multiset(a[..|a| - 1]) == multiset(b[..i] + b[i + 1..])
  {
    var left, rest := a[..|a| - 1], b[..i] + b[i + 1..];
    assert b == b[..i] + [b[i]] + b[i + 1..];
    assert a == left + [b[i]];
    assert multiset(b) == multiset(rest) + multiset{b[i]};
    assert multiset(a) == multiset(left) + multiset{b[i]};
    assert multiset(left) == multiset(a) - multiset{b[i]};
    assert multiset(rest) == multiset(b) - multiset{b[i]};
  }

  lemma PlusExchanges(a: Cell, b: Cell, c: Cell)
    ensures Plus(Plus(a, b), c) == Plus(Plus(a, c), b)
  {
  }

  lemma {:induction false} CellSumRemove(b: seq<Transaction>, i: nat, keep: Transaction -> bool)
    requires i < |b|
    ensures CellSum(b, keep) == Plus(CellSum(b[..i] + b[i + 1..], keep), if keep(b[i]) then One(b[i]) else ZERO)
  {
    var n, rest := |b| - 1, b[..i] + b[i + 1..];
    hide Plus, One;
    if i == n {
      assert rest == b[..n];
    } else {
      CellSumRemove(b[..n], i, keep);
      assert b[..n][..i] + b[..n][i + 1..] == rest[..n - 1];
      assert rest[n - 1] == b[n];
      PlusExchanges(CellSum(rest[..n - 1], keep), if keep(b[i]) then One(b[i]) else ZERO,
          if keep(b[n]) then One(b[n]) else ZERO);
    }
  }

  // Sums over keys -----------------------------------------------------------------------------------------

  ghost function KeySum(keys: set<Key>, f: Key -> Cell): Cell
    decreases |keys|
  {
    if keys == {} then ZERO
    else
      var k :| k in keys;
      Plus(f(k), KeySum(keys - {k}, f))
  }

  lemma {:induction false} KeySumPick(keys: set<Key>, f: Key -> Cell, x: Key)
    requires x in keys
    ensures KeySum(keys, f) == Plus(f(x), KeySum(keys - {x}, f))
    decreases |keys|
  {
    var k :| k in keys && KeySum(keys, f) == Plus(f(k), KeySum(keys - {k}, f));
    if k != x {
      hide KeySum;
      KeySumPick(keys - {k}, f, x);
      KeySumPick(keys - {x}, f, k);
      assert keys - {k} - {x} == keys - {x} - {k};
      PlusSwaps(f(k), f(x), KeySum(keys - {k} - {x}, f));
    }
  }

  lemma PlusSwaps(a: Cell, b: Cell, c: Cell)
    ensures Plus(a, Plus(b, c)) == Plus(b, Plus(a, c))
  {
  }

  lemma KeySumEmpty(f: Key -> Cell)
    ensures KeySum({}, f) == ZERO
  {
  }

  lemma {:induction false} KeySumAddsOne(keys: set<Key>, f: Key -> Cell, g: Key -> Cell, x: Key, c: Cell)
    requires x in keys && g(x) == Plus(f(x), c) && forall k :: k in keys && k != x ==> g(k) == f(k)
    ensures KeySum(keys, g) == Plus(KeySum(keys, f), c)
  {
    KeySumPick(keys, f, x);
    KeySumPick(keys, g, x);
    KeySumSame(keys - {x}, f, g);
  }

  lemma {:induction false} KeySumSame(keys: set<Key>, f: Key -> Cell, g: Key -> Cell)
    requires forall k :: k in keys ==> f(k) == g(k)
    ensures KeySum(keys, f) == KeySum(keys, g)
    decreases |keys|
  {
    hide KeySum;
    if keys == {} {
      KeySumEmpty(f);
      KeySumEmpty(g);
    } else {
      var k :| k in keys;
      KeySumPick(keys, f, k);
      KeySumPick(keys, g, k);
      KeySumSame(keys - {k}, f, g);
    }
  }

  ghost predicate AllZero(keys: set<Key>, f: Key -> Cell) {
    forall k :: k in keys ==> f(k) == ZERO
  }

  lemma AllZeroWithout(keys: set<Key>, f: Key -> Cell, k: Key)
    requires AllZero(keys, f) && k in keys
    ensures f(k) == ZERO && AllZero(keys - {k}, f)
  {
  }

  lemma {:induction false} KeySumZero(keys: set<Key>, f: Key -> Cell)
    requires AllZero(keys, f)
    ensures KeySum(keys, f) == ZERO
    decreases |keys|
  {
    hide KeySum, AllZero, Plus;
    if keys == {} {
      KeySumEmpty(f);
    } else {
      var k :| k in keys;
      KeySumPick(keys, f, k);
      PlusZero(ZERO);
      AllZeroWithout(keys, f, k);
      KeySumZero(keys - {k}, f);
    }
  }

  function ByKey(keep: Transaction -> bool, key: Transaction -> Key, k: Key): Transaction -> bool {
    (t: Transaction) => keep(t) && key(t) == k
  }

  ghost function PerKey(ts: seq<Transaction>, keep: Transaction -> bool, key: Transaction -> Key): Key -> Cell {
    (k: Key) => CellSum(ts, ByKey(keep, key, k))
  }

  lemma PerKeyLast(ts: seq<Transaction>, keep: Transaction -> bool, key: Transaction -> Key, k: Key)
    requires ts != []
    ensures
      var last := ts[|ts| - 1];
      PerKey(ts, keep, key)(k) ==
        Plus(PerKey(ts[..|ts| - 1], keep, key)(k), if keep(last) && key(last) == k then One(last) else ZERO)
  {
  }

  lemma PerKeyEmpty(keep: Transaction -> bool, key: Transaction -> Key, keys: set<Key>)
    ensures AllZero(keys, PerKey([], keep, key))
  {
  }

  /** The cells of all keys add up to the total. */
  lemma {:induction false} KeysAddUp(ts: seq<Transaction>, keep: Transaction -> bool, key: Transaction -> Key,
    keys: set<Key>)
    requires forall t :: t in ts && keep(t) ==> key(t) in keys
    ensures KeySum(keys, PerKey(ts, keep, key)) == CellSum(ts, keep)
  {
    hide KeySum, PerKey, One, Plus, AllZero;
    if ts == [] {
      PerKeyEmpty(keep, key, keys);
      KeySumZero(keys, PerKey(ts, keep, key));
    } else {
      var rest, last := ts[..|ts| - 1], ts[|ts| - 1];
      KeysAddUp(rest, keep, key, keys);
      var f, g := PerKey(rest, keep, key), PerKey(ts, keep, key);
      forall k ensures g(k) == if keep(last) && key(last) == k then Plus(f(k), One(last)) else f(k) {
        PerKeyLast(ts, keep, key, k);
        PlusZero(f(k));
      }
      PlusZero(CellSum(rest, keep));
      if keep(last) {
        KeySumAddsOne(keys, f, g, key(last), One(last));
      } else {
        KeySumSame(keys, f, g);
      }
    }
  }

  // Frames --------------------------------------------------------------------------------------------------

  const MAX_KEYS := 200

  datatype FrameSpec = FrameSpec(periods: seq<PeriodRange>, series: bool)

  datatype Spec = Spec(dimension: Dimension, keys: Option<seq<Key>>, frames: seq<FrameSpec>)

  datatype FrameResult = FrameResult(totals: seq<Cell>, series: map<Key, seq<Cell>>)

  function KeyOf(d: Dimension): Transaction -> Key {
    match d
    case Merchant => (t: Transaction) => t.merchant
    case Category => (t: Transaction) => t.category
    case Group => (t: Transaction) => t.group
    case Account => (t: Transaction) => t.account
    case Time => (t: Transaction) => ""
  }

  function InPeriod(p: PeriodRange): Transaction -> bool {
    (t: Transaction) => Holds(p, t.date)
  }

  function InSeries(p: PeriodRange, d: Dimension, k: Key): Transaction -> bool {
    ByKey(InPeriod(p), KeyOf(d), k)
  }

  /** Binary search for the period that contains the date. */
  method PeriodIndex(periods: seq<PeriodRange>, date: Date) returns (r: Option<nat>)
    requires Frame(periods)
    ensures r.Some? ==> r.value < |periods| && Holds(periods[r.value], date)
    ensures r.Some? ==> forall i :: 0 <= i < |periods| && Holds(periods[i], date) ==> i == r.value
    ensures r.None? ==> forall i :: 0 <= i < |periods| ==> !Holds(periods[i], date)
  {
    var low, high := 0, |periods|;
    while low < high
      invariant 0 <= low <= high <= |periods|
      invariant forall i :: 0 <= i < low ==> Before(periods[i].end, date)
      invariant forall i :: high <= i < |periods| ==> AtMost(date, periods[i].end)
    {
      var middle := (low + high) / 2;
      forall i | 0 <= i < |periods| && i != middle
        ensures i < middle ==> Before(periods[i].end, periods[middle].end)
        ensures middle < i ==> Before(periods[middle].end, periods[i].end)
      {
        if i < middle { FrameOrdered(periods, i, middle); } else { FrameOrdered(periods, middle, i); }
      }
      if AtMost(date, periods[middle].end) {
        high := middle;
      } else {
        low := middle + 1;
      }
    }
    if low == |periods| || Before(date, periods[low].start) {
      forall i | low < i < |periods| ensures !Holds(periods[i], date) {
        FrameOrdered(periods, low, i);
      }
      return None;
    }
    forall i | 0 <= i < |periods| && Holds(periods[i], date) ensures i == low {
      FrameIsDisjoint(periods, i, low, date);
    }
    return Some(low);
  }

  ghost predicate Seen(frame: FrameSpec, d: Dimension, ts: seq<Transaction>, k: Key) {
    exists i, p :: 0 <= i < |ts| && 0 <= p < |frame.periods| && InSeries(frame.periods[p], d, k)(ts[i])
  }

  ghost predicate TotalsRight(frame: FrameSpec, totals: seq<Cell>, ts: seq<Transaction>) {
    |totals| == |frame.periods| && forall p :: 0 <= p < |totals| ==>
        totals[p] == CellSum(ts, InPeriod(frame.periods[p]))
  }

  ghost predicate CellsRight(frame: FrameSpec, d: Dimension, k: Key, cells: seq<Cell>, ts: seq<Transaction>) {
    |cells| == |frame.periods| && forall p :: 0 <= p < |cells| ==>
        cells[p] == CellSum(ts, InSeries(frame.periods[p], d, k))
  }

  /** Series exist for the requested keys, or for every key seen when none were named. */
  ghost predicate SeriesRight(frame: FrameSpec, d: Dimension, keys: Option<set<Key>>, series: map<Key, seq<Cell>>,
    ts: seq<Transaction>)
  {
    if !frame.series then series == map[]
    else
      && (forall k :: k in series <==> if keys.Some? then k in keys.value else Seen(frame, d, ts, k))
      && (forall k :: k in series ==> CellsRight(frame, d, k, series[k], ts))
  }

  ghost predicate FrameFits(frame: FrameSpec, ts: seq<Transaction>) {
    forall p :: 0 <= p < |frame.periods| ==> CellFits(CellSum(ts, InPeriod(frame.periods[p])))
  }

  function AddToCell(cell: Cell, t: Transaction): (r: Option<Cell>)
    requires CellFits(cell) && Fits(t.minor)
    ensures r == if CellFits(Plus(cell, One(t))) then Some(Plus(cell, One(t))) else None
  {
    var counted := cell.(count := cell.count + 1, pending := cell.pending + if t.pending then 1 else 0);
    if t.hidden then Some(counted.(hidden := counted.hidden + 1))
    else if t.minor > 0 then
      AddMinorIsExact(cell.income, t.minor);
      var income := AddMinor(cell.income, t.minor);
      if income.None? then None else Some(counted.(income := income.value))
    else if t.minor < 0 then
      AddMinorIsExact(cell.spending, t.minor);
      var spending := AddMinor(cell.spending, t.minor);
      if spending.None? then None else Some(counted.(spending := spending.value))
    else Some(counted)
  }

  // A transaction outside every period changes nothing.
  lemma OutsideTotals(frame: FrameSpec, totals: seq<Cell>, ts: seq<Transaction>, t: Transaction)
    requires TotalsRight(frame, totals, ts)
    requires forall p :: 0 <= p < |frame.periods| ==> !Holds(frame.periods[p], t.date)
    ensures TotalsRight(frame, totals, ts + [t]) && (FrameFits(frame, ts + [t]) <==> FrameFits(frame, ts))
  {
    hide CellSum, CellFits, Plus, One;
    forall p | 0 <= p < |frame.periods|
      ensures CellSum(ts + [t], InPeriod(frame.periods[p])) == CellSum(ts, InPeriod(frame.periods[p]))
    {
      CellSumStep(ts, t, InPeriod(frame.periods[p]));
    }
    hide InPeriod, Holds;
  }

  lemma OutsideSeries(
    frame: FrameSpec, d: Dimension, keys: Option<set<Key>>, series: map<Key, seq<Cell>>, ts: seq<Transaction>,
    t: Transaction)
    requires SeriesRight(frame, d, keys, series, ts)
    requires forall p :: 0 <= p < |frame.periods| ==> !Holds(frame.periods[p], t.date)
    ensures SeriesRight(frame, d, keys, series, ts + [t])
  {
    hide CellSum, CellsRight, KeyOf;
    forall k ensures Seen(frame, d, ts + [t], k) <==> Seen(frame, d, ts, k) {
      SeenAppend(frame, d, ts, t, k);
      hide Seen;
    }
    hide Seen, InSeries, Holds;
    forall k | k in series && CellsRight(frame, d, k, series[k], ts)
        ensures CellsRight(frame, d, k, series[k], ts + [t])
    {
      OutsideCells(frame, d, k, ts, t);
    }
  }

  lemma OutsideCells(frame: FrameSpec, d: Dimension, k: Key, ts: seq<Transaction>, t: Transaction)
    requires forall p :: 0 <= p < |frame.periods| ==> !Holds(frame.periods[p], t.date)
    ensures forall cells :: CellsRight(frame, d, k, cells, ts) ==> CellsRight(frame, d, k, cells, ts + [t])
  {
    hide CellSum, Plus, One, KeyOf;
    forall p | 0 <= p < |frame.periods|
      ensures CellSum(ts + [t], InSeries(frame.periods[p], d, k)) == CellSum(ts, InSeries(frame.periods[p], d, k))
    {
      CellSumStep(ts, t, InSeries(frame.periods[p], d, k));
    }
    hide InSeries;
  }

  lemma SeenAppend(frame: FrameSpec, d: Dimension, ts: seq<Transaction>, t: Transaction, k: Key)
    ensures Seen(frame, d, ts + [t], k) <==>
            Seen(frame, d, ts, k) || exists p :: 0 <= p < |frame.periods| && InSeries(frame.periods[p], d, k)(t)
  {
    hide InSeries;
    if Seen(frame, d, ts, k) {
      var i, p :| 0 <= i < |ts| && 0 <= p < |frame.periods| && InSeries(frame.periods[p], d, k)(ts[i]);
      assert (ts + [t])[i] == ts[i];
    }
    assert (ts + [t])[|ts|] == t;
  }

  // The totals after a transaction in period `i`.
  lemma InsideTotals(frame: FrameSpec, totals: seq<Cell>, ts: seq<Transaction>, t: Transaction, i: nat)
    requires TotalsRight(frame, totals, ts) && i < |frame.periods| && Holds(frame.periods[i], t.date)
    requires forall p :: 0 <= p < |frame.periods| && Holds(frame.periods[p], t.date) ==> p == i
    ensures TotalsRight(frame, totals[i := Plus(totals[i], One(t))], ts + [t])
    ensures FrameFits(frame, ts) ==> (FrameFits(frame, ts + [t]) <==> CellFits(Plus(totals[i], One(t))))
  {
    hide CellSum, CellFits, One, Plus;
    forall p | 0 <= p < |frame.periods|
      ensures
        var c := CellSum(ts, InPeriod(frame.periods[p]));
        CellSum(ts + [t], InPeriod(frame.periods[p])) == if p == i then Plus(c, One(t)) else c
    {
      CellSumStep(ts, t, InPeriod(frame.periods[p]));
    }
    hide InPeriod;
  }

  // One key's cells after a transaction in period `i`.
  lemma InsideCells(frame: FrameSpec, d: Dimension, k: Key, cells: seq<Cell>, ts: seq<Transaction>, t: Transaction,
    i: nat)
    requires CellsRight(frame, d, k, cells, ts) && i < |frame.periods| && Holds(frame.periods[i], t.date)
    requires forall p :: 0 <= p < |frame.periods| && Holds(frame.periods[p], t.date) ==> p == i
    ensures KeyOf(d)(t) == k ==> CellsRight(frame, d, k, cells[i := Plus(cells[i], One(t))], ts + [t])
    ensures KeyOf(d)(t) != k ==> CellsRight(frame, d, k, cells, ts + [t])
  {
    hide CellSum, One, Plus, KeyOf;
    forall p | 0 <= p < |frame.periods|
      ensures
        var c := CellSum(ts, InSeries(frame.periods[p], d, k));
        CellSum(ts + [t], InSeries(frame.periods[p], d, k)) == if p == i && KeyOf(d)(t) == k then Plus(c, One(t)) else c
    {
      CellSumStep(ts, t, InSeries(frame.periods[p], d, k));
    }
    hide InSeries;
  }

  // A key that was not seen has empty cells.
  ghost predicate KeepsNone(ts: seq<Transaction>, keep: Transaction -> bool) {
    forall i :: 0 <= i < |ts| ==> !keep(ts[i])
  }

  lemma KeepsNoneLast(ts: seq<Transaction>, keep: Transaction -> bool)
    requires KeepsNone(ts, keep) && ts != []
    ensures KeepsNone(ts[..|ts| - 1], keep) && !keep(ts[|ts| - 1])
  {
  }

  lemma CellSumEmpty(keep: Transaction -> bool)
    ensures CellSum([], keep) == ZERO
  {
  }

  lemma {:induction false} NothingKept(ts: seq<Transaction>, keep: Transaction -> bool)
    requires KeepsNone(ts, keep)
    ensures CellSum(ts, keep) == ZERO
  {
    hide *;
    if ts == [] {
      CellSumEmpty(keep);
    } else {
      KeepsNoneLast(ts, keep);
      NothingKept(ts[..|ts| - 1], keep);
      CellSumStep(ts[..|ts| - 1], ts[|ts| - 1], keep);
      assert ts == ts[..|ts| - 1] + [ts[|ts| - 1]];
    }
  }

  lemma UnseenCells(frame: FrameSpec, d: Dimension, ts: seq<Transaction>, k: Key)
    requires !Seen(frame, d, ts, k)
    ensures CellsRight(frame, d, k, seq(|frame.periods|, i => ZERO), ts)
  {
    hide InSeries;
    forall p | 0 <= p < |frame.periods| ensures CellSum(ts, InSeries(frame.periods[p], d, k)) == ZERO {
      NothingKept(ts, InSeries(frame.periods[p], d, k));
    }
  }

  // A series cell never overflows before its total.
  lemma SeriesFits(ts: seq<Transaction>, p: PeriodRange, d: Dimension, k: Key)
    requires CellFits(CellSum(ts, InPeriod(p)))
    ensures CellFits(CellSum(ts, InSeries(p, d, k)))
  {
    CellSumNarrows(ts, InSeries(p, d, k), InPeriod(p));
    CellSumSigns(ts, InSeries(p, d, k));
  }

  lemma InsideSeries(
    frame: FrameSpec, d: Dimension, keys: Option<set<Key>>, series: map<Key, seq<Cell>>, cells: seq<Cell>,
    ts: seq<Transaction>, t: Transaction, i: nat)
    requires frame.series && SeriesRight(frame, d, keys, series, ts) && i < |frame.periods|
        && Holds(frame.periods[i], t.date)
    requires forall p :: 0 <= p < |frame.periods| && Holds(frame.periods[p], t.date) ==> p == i
    requires CellsRight(frame, d, KeyOf(d)(t), cells, ts) && (keys.Some? ==> KeyOf(d)(t) in keys.value)
    ensures SeriesRight(frame, d, keys, series[KeyOf(d)(t) := cells[i := Plus(cells[i], One(t))]], ts + [t])
  {
    hide CellsRight, One, Plus, KeyOf, Holds, Seen;
    var key := KeyOf(d)(t);
    InsideCellsLength(frame, d, key, cells, ts);
    var after := series[key := cells[i := Plus(cells[i], One(t))]];
    InsideCells(frame, d, key, cells, ts, t, i);
    forall k | k in after ensures CellsRight(frame, d, k, after[k], ts + [t]) {
      if k != key {
        InsideCells(frame, d, k, series[k], ts, t, i);
      }
    }
    forall k ensures Seen(frame, d, ts + [t], k) <==> Seen(frame, d, ts, k) || k == key {
      SeenInside(frame, d, ts, t, i, k);
    }
  }

  lemma SeenInside(frame: FrameSpec, d: Dimension, ts: seq<Transaction>, t: Transaction, i: nat, k: Key)
    requires i < |frame.periods| && Holds(frame.periods[i], t.date)
    ensures Seen(frame, d, ts + [t], k) <==> Seen(frame, d, ts, k) || k == KeyOf(d)(t)
  {
    SeenAppend(frame, d, ts, t, k);
    SeriesOf(frame.periods, d, t, i, k);
    hide Seen, InSeries, Holds, KeyOf;
  }

  lemma InsideCellsLength(frame: FrameSpec, d: Dimension, k: Key, cells: seq<Cell>, ts: seq<Transaction>)
    requires CellsRight(frame, d, k, cells, ts)
    ensures |cells| == |frame.periods|
  {
  }

  lemma SeriesOf(periods: seq<PeriodRange>, d: Dimension, t: Transaction, i: nat, k: Key)
    requires i < |periods| && Holds(periods[i], t.date)
    ensures (exists p :: 0 <= p < |periods| && InSeries(periods[p], d, k)(t)) <==> KeyOf(d)(t) == k
  {
    hide Holds, KeyOf;
    if KeyOf(d)(t) == k {
      assert InSeries(periods[i], d, k)(t);
    }
  }

  // A transaction whose key was not requested leaves the series alone.
  lemma UnwantedSeries(
    frame: FrameSpec, d: Dimension, keys: Option<set<Key>>, series: map<Key, seq<Cell>>, ts: seq<Transaction>,
    t: Transaction, i: nat)
    requires SeriesRight(frame, d, keys, series, ts) && i < |frame.periods| && Holds(frame.periods[i], t.date)
    requires forall p :: 0 <= p < |frame.periods| && Holds(frame.periods[p], t.date) ==> p == i
    requires !frame.series || (keys.Some? && KeyOf(d)(t) !in keys.value)
    ensures SeriesRight(frame, d, keys, series, ts + [t])
  {
    hide CellsRight, KeyOf, Seen;
    if frame.series {
      forall k | k in series ensures CellsRight(frame, d, k, series[k], ts + [t]) {
        InsideCells(frame, d, k, series[k], ts, t, i);
      }
    }
  }

  /** Adds one transaction to one frame. */
  method AddToFrame(frame: FrameSpec, d: Dimension, keys: Option<set<Key>>, state: FrameResult, t: Transaction,
    ghost ts: seq<Transaction>)
    returns (r: Option<FrameResult>)
    requires Frame(frame.periods) && FrameFits(frame, ts) && Fits(t.minor)
    requires TotalsRight(frame, state.totals, ts) && SeriesRight(frame, d, keys, state.series, ts)
    ensures r.Some? <==> FrameFits(frame, ts + [t])
    ensures r.Some? ==>
        TotalsRight(frame, r.value.totals, ts + [t]) && SeriesRight(frame, d, keys, r.value.series, ts + [t])
  {
    hide CellSum, SeriesRight, Holds, Frame, One, KeyOf, Seen;
    var period := PeriodIndex(frame.periods, t.date);
    if period.None? {
      OutsideTotals(frame, state.totals, ts, t);
      OutsideSeries(frame, d, keys, state.series, ts, t);
      return Some(state);
    }
    var i := period.value;
    InsideTotals(frame, state.totals, ts, t, i);
    var total := AddToCell(state.totals[i], t);
    if total.None? {
      return None;
    }
    var totals := state.totals[i := total.value];
    var key := KeyOf(d)(t);
    if !frame.series || (keys.Some? && key !in keys.value) {
      UnwantedSeries(frame, d, keys, state.series, ts, t, i);
      return Some(FrameResult(totals, state.series));
    }
    SeriesKeys(frame, d, keys, state.series, ts, key);
    var cells := if key in state.series then state.series[key] else seq(|frame.periods|, i => ZERO);
    InsideCells(frame, d, key, cells, ts, t, i);
    CellOfSeries(frame, d, key, cells, ts, t, i, totals);
    var cell := AddToCell(cells[i], t);
    if cell.None? {
      return None;
    }
    InsideSeries(frame, d, keys, state.series, cells, ts, t, i);
    return Some(FrameResult(totals, state.series[key := cells[i := cell.value]]));
  }

  lemma SeriesKeys(frame: FrameSpec, d: Dimension, keys: Option<set<Key>>, series: map<Key, seq<Cell>>,
    ts: seq<Transaction>, key: Key)
    requires frame.series && SeriesRight(frame, d, keys, series, ts) && (keys.Some? ==> key in keys.value)
    ensures key in series ==> CellsRight(frame, d, key, series[key], ts)
    ensures key !in series ==> CellsRight(frame, d, key, seq(|frame.periods|, i => ZERO), ts)
  {
    if key !in series {
      UnseenCells(frame, d, ts, key);
    }
    hide CellsRight, Seen;
  }

  // Both the old and the new cell of a series fit when the totals do.
  lemma CellOfSeries(
    frame: FrameSpec, d: Dimension, key: Key, cells: seq<Cell>, ts: seq<Transaction>, t: Transaction, i: nat,
    totals: seq<Cell>)
    requires CellsRight(frame, d, key, cells, ts) && i < |frame.periods| && FrameFits(frame, ts)
    requires CellsRight(frame, d, key, cells[i := Plus(cells[i], One(t))], ts + [t])
    requires TotalsRight(frame, totals, ts + [t]) && CellFits(totals[i])
    ensures CellFits(cells[i]) && CellFits(Plus(cells[i], One(t)))
  {
    SeriesFits(ts, frame.periods[i], d, key);
    SeriesFits(ts + [t], frame.periods[i], d, key);
    hide CellSum, CellFits, One, InSeries;
  }

  // The whole pass ------------------------------------------------------------------------------------------

  datatype Outcome = Table(frames: seq<FrameResult>) | InvalidSpec | MixedMoney | Overflow

  predicate SameMoney(a: Transaction, b: Transaction) {
    a.currency == b.currency && a.scale == b.scale
  }

  ghost predicate OneMoney(ts: seq<Transaction>) {
    forall i :: 0 <= i < |ts| ==> SameMoney(ts[i], ts[0])
  }

  ghost predicate ValidSpec(spec: Spec) {
    && spec.dimension != Time && (spec.keys.Some? ==> |spec.keys.value| <= MAX_KEYS)
    && forall f :: 0 <= f < |spec.frames| ==> Frame(spec.frames[f].periods)
  }

  function KeySet(keys: Option<seq<Key>>): Option<set<Key>> {
    if keys.None? then None else Some(set k | k in keys.value)
  }

  ghost predicate FrameRight(frame: FrameSpec, d: Dimension, keys: Option<set<Key>>, r: FrameResult,
    ts: seq<Transaction>)
  {
    TotalsRight(frame, r.totals, ts) && SeriesRight(frame, d, keys, r.series, ts)
  }

  /** Every cell of every frame is the brute-force cell of its period and key. */
  ghost predicate Tabulates(frames: seq<FrameResult>, ts: seq<Transaction>, spec: Spec) {
    && |frames| == |spec.frames|
    && forall f :: 0 <= f < |frames| ==> FrameRight(spec.frames[f], spec.dimension, KeySet(spec.keys), frames[f], ts)
  }

  /** No period's true income or spending leaves 64 bits. */
  ghost predicate AllFit(ts: seq<Transaction>, spec: Spec) {
    forall f :: 0 <= f < |spec.frames| ==> FrameFits(spec.frames[f], ts)
  }

  // Frames before `count` hold the longer prefix.
  ghost predicate Tabulating(frames: seq<FrameResult>, ts: seq<Transaction>, next: seq<Transaction>, spec: Spec,
    count: nat)
  {
    && |frames| == |spec.frames| && count <= |frames|
    && forall f :: 0 <= f < |frames| ==>
         FrameRight(spec.frames[f], spec.dimension, KeySet(spec.keys), frames[f], if f < count then next else ts)
         && FrameFits(spec.frames[f], if f < count then next else ts)
  }

  lemma EmptyFrameRight(frame: FrameSpec, d: Dimension, keys: Option<seq<Key>>)
    ensures
      var zeros := seq(|frame.periods|, i => ZERO);
      && FrameRight(frame, d, KeySet(keys), FrameResult(zeros,
           if frame.series && keys.Some? then map k | k in keys.value :: zeros else map[]), [])
      && FrameFits(frame, [])
  {
  }

  method NewFrames(spec: Spec) returns (frames: seq<FrameResult>)
    ensures Tabulating(frames, [], [], spec, |spec.frames|)
  {
    hide FrameRight, FrameFits;
    frames := [];
    for f := 0 to |spec.frames|
      invariant |frames| == f
      invariant forall g :: 0 <= g < f ==>
        FrameRight(spec.frames[g], spec.dimension, KeySet(spec.keys), frames[g], []) && FrameFits(spec.frames[g], [])
    {
      var zeros := seq(|spec.frames[f].periods|, i => ZERO);
      EmptyFrameRight(spec.frames[f], spec.dimension, spec.keys);
      frames := frames + [FrameResult(zeros, if spec.frames[f].series && spec.keys.Some? then map k |
          k in spec.keys.value :: zeros else map[])];
    }
  }

  lemma OverflowStays(ts: seq<Transaction>, n: nat, spec: Spec, f: nat)
    requires n <= |ts| && f < |spec.frames| && !FrameFits(spec.frames[f], ts[..n])
    ensures !AllFit(ts, spec)
  {
    hide CellSum;
    var frame := spec.frames[f];
    var p :| 0 <= p < |frame.periods| && !CellFits(CellSum(ts[..n], InPeriod(frame.periods[p])));
    CellSumGrows(ts, n, InPeriod(frame.periods[p]));
    CellSumSigns(ts[..n], InPeriod(frame.periods[p]));
    assert !CellFits(CellSum(ts, InPeriod(frame.periods[p])));
    assert !FrameFits(frame, ts) by { hide CellFits, InPeriod; }
  }

  // Adding one transaction to every frame.
  method AddTransaction(frames: seq<FrameResult>, spec: Spec, keys: Option<set<Key>>, t: Transaction,
    ghost ts: seq<Transaction>)
    returns (r: Option<seq<FrameResult>>)
    requires ValidSpec(spec) && keys == KeySet(spec.keys) && Fits(t.minor)
    requires Tabulating(frames, ts, ts, spec, |spec.frames|)
    ensures r.Some? ==> Tabulating(r.value, ts + [t], ts + [t], spec, |spec.frames|)
    ensures r.None? ==> exists f :: 0 <= f < |spec.frames| && !FrameFits(spec.frames[f], ts + [t])
  {
    hide FrameFits, TotalsRight, SeriesRight, Frame;
    var state := frames;
    for f := 0 to |state|
      invariant |state| == |spec.frames| && Tabulating(state, ts, ts + [t], spec, f)
    {
      var added := AddToFrame(spec.frames[f], spec.dimension, keys, state[f], t, ts);
      if added.None? {
        return None;
      }
      state := state[f := added.value];
    }
    return Some(state);
  }

  /** The one-pass cross-tab succeeds exactly when the spec is valid, the transactions share one currency
  and scale, and every period's true totals fit; then every cell equals its brute-force sum. */
  method ComputeCrossTab(ts: seq<Transaction>, spec: Spec) returns (r: Outcome)
    requires AmountsFit(ts)
    ensures r.InvalidSpec? <==> !ValidSpec(spec)
    ensures r.Table? <==> ValidSpec(spec) && OneMoney(ts) && AllFit(ts, spec)
    ensures r.Table? ==> Tabulates(r.frames, ts, spec)
    ensures r.MixedMoney? ==> !OneMoney(ts)
    ensures r.Overflow? ==> !AllFit(ts, spec)
  {
    hide Tabulating, FrameFits, Frame;
    if spec.dimension == Time || (spec.keys.Some? && |spec.keys.value| > MAX_KEYS) {
      return InvalidSpec;
    }
    for f := 0 to |spec.frames|
      invariant forall g :: 0 <= g < f ==> Frame(spec.frames[g].periods)
    {
      var ok := ValidatePeriods(spec.frames[f].periods);
      if !ok {
        return InvalidSpec;
      }
    }
    var frames := NewFrames(spec);
    var keys := KeySet(spec.keys);
    assert ts[..0] == [];
    for n := 0 to |ts|
      invariant Tabulating(frames, ts[..n], ts[..n], spec, |spec.frames|)
      invariant forall i :: 0 <= i < n ==> SameMoney(ts[i], ts[0])
    {
      assert ts[..n + 1] == ts[..n] + [ts[n]];
      if n > 0 && !SameMoney(ts[n], ts[0]) {
        return MixedMoney;
      }
      var added := AddTransaction(frames, spec, keys, ts[n], ts[..n]);
      if added.None? {
        ghost var f :| 0 <= f < |spec.frames| && !FrameFits(spec.frames[f], ts[..n + 1]);
        OverflowStays(ts, n + 1, spec, f);
        return Overflow;
      }
      frames := added.value;
    }
    assert ts[..|ts|] == ts;
    TabulatedAll(frames, ts, spec);
    return Table(frames);
  }

  lemma TabulatedAll(frames: seq<FrameResult>, ts: seq<Transaction>, spec: Spec)
    requires Tabulating(frames, ts, ts, spec, |spec.frames|)
    ensures Tabulates(frames, ts, spec) && AllFit(ts, spec)
  {
    hide FrameRight, FrameFits;
  }

  // What the result does not depend on ----------------------------------------------------------------------

  lemma FrameFitsOrderFree(frame: FrameSpec, a: seq<Transaction>, b: seq<Transaction>)
    requires multiset(a) == multiset(b)
    ensures FrameFits(frame, a) <==> FrameFits(frame, b)
  {
    hide CellSum, CellFits, InPeriod;
    forall p | 0 <= p < |frame.periods|
      ensures CellSum(a, InPeriod(frame.periods[p])) == CellSum(b, InPeriod(frame.periods[p]))
    {
      CellSumIsOrderFree(a, b, InPeriod(frame.periods[p]));
    }
  }

  lemma SameMembers(a: seq<Transaction>, b: seq<Transaction>)
    requires multiset(a) == multiset(b)
    ensures |a| == |b| && forall t :: t in a <==> t in b
  {
    forall t ensures t in a <==> t in b {
      assert t in multiset(a) <==> t in multiset(b);
    }
    assert |multiset(a)| == |a| && |multiset(b)| == |b|;
  }

  lemma OneMoneyOrderFree(a: seq<Transaction>, b: seq<Transaction>)
    requires multiset(a) == multiset(b) && OneMoney(a)
    ensures OneMoney(b)
  {
    SameMembers(a, b);
    forall i | 0 <= i < |b| ensures SameMoney(b[i], b[0]) {
      assert b[i] in a && b[0] in a;
    }
  }

  lemma SeenOrderFree(frame: FrameSpec, d: Dimension, a: seq<Transaction>, b: seq<Transaction>, k: Key)
    requires multiset(a) == multiset(b) && Seen(frame, d, a, k)
    ensures Seen(frame, d, b, k)
  {
    SameMembers(a, b);
    hide InSeries;
    var i, p :| 0 <= i < |a| && 0 <= p < |frame.periods| && InSeries(frame.periods[p], d, k)(a[i]);
    assert a[i] in b;
    var j :| 0 <= j < |b| && b[j] == a[i];
  }

  /** Success, failure and every number are independent of the order of the transactions. */
  lemma OrderDoesNotMatter(a: seq<Transaction>, b: seq<Transaction>, spec: Spec, x: seq<FrameResult>,
    y: seq<FrameResult>)
    requires multiset(a) == multiset(b)
    ensures (OneMoney(a) && AllFit(a, spec)) <==> (OneMoney(b) && AllFit(b, spec))
    ensures Tabulates(x, a, spec) && Tabulates(y, b, spec) ==> x == y
  {
    forall f | 0 <= f < |spec.frames| ensures FrameFits(spec.frames[f], a) <==> FrameFits(spec.frames[f], b) {
      FrameFitsOrderFree(spec.frames[f], a, b);
    }
    if OneMoney(a) { OneMoneyOrderFree(a, b); }
    if OneMoney(b) { OneMoneyOrderFree(b, a); }
    hide FrameFits, FrameRight, OneMoney;
    if Tabulates(x, a, spec) && Tabulates(y, b, spec) {
      forall f | 0 <= f < |x| ensures x[f] == y[f] {
        FrameOrderFree(spec.frames[f], spec.dimension, KeySet(spec.keys), a, b, x[f], y[f]);
      }
    }
  }

  lemma FrameOrderFree(
    frame: FrameSpec, d: Dimension, keys: Option<set<Key>>, a: seq<Transaction>, b: seq<Transaction>, x: FrameResult,
    y: FrameResult)
    requires multiset(a) == multiset(b) && FrameRight(frame, d, keys, x, a) && FrameRight(frame, d, keys, y, b)
    ensures x == y
  {
    hide CellSum, InPeriod, InSeries, Seen;
    forall p | 0 <= p < |frame.periods| ensures x.totals[p] == y.totals[p] {
      CellSumIsOrderFree(a, b, InPeriod(frame.periods[p]));
    }
    assert x.totals == y.totals;
    if frame.series {
      forall k ensures k in x.series <==> k in y.series {
        if Seen(frame, d, a, k) { SeenOrderFree(frame, d, a, b, k); }
        if Seen(frame, d, b, k) { SeenOrderFree(frame, d, b, a, k); }
      }
      forall k | k in x.series ensures x.series[k] == y.series[k] {
        assert CellsRight(frame, d, k, x.series[k], a) && CellsRight(frame, d, k, y.series[k], b);
        forall p | 0 <= p < |frame.periods| ensures x.series[k][p] == y.series[k][p] {
          CellSumIsOrderFree(a, b, InSeries(frame.periods[p], d, k));
        }
      }
      assert x.series == y.series;
    }
  }

  function SeriesCell(r: FrameResult, p: nat): Key -> Cell {
    (k: Key) => if k in r.series && p < |r.series[k]| then r.series[k][p] else ZERO
  }

  /** When every key is collected, the series of each period add up to the period's total. */
  lemma SeriesAddUp(frame: FrameSpec, d: Dimension, r: FrameResult, ts: seq<Transaction>, p: nat)
    requires frame.series && FrameRight(frame, d, None, r, ts) && p < |frame.periods|
    ensures KeySum(r.series.Keys, SeriesCell(r, p)) == r.totals[p]
  {
    hide CellSum, KeySum;
    var keep := InPeriod(frame.periods[p]);
    forall t | t in ts && keep(t) ensures KeyOf(d)(t) in r.series.Keys {
      var i :| 0 <= i < |ts| && ts[i] == t;
      assert InSeries(frame.periods[p], d, KeyOf(d)(t))(ts[i]);
      assert Seen(frame, d, ts, KeyOf(d)(t));
    }
    KeysAddUp(ts, keep, KeyOf(d), r.series.Keys);
    hide Seen, KeyOf, InPeriod;
    forall k | k in r.series.Keys ensures SeriesCell(r, p)(k) == PerKey(ts, keep, KeyOf(d))(k) {
      assert CellsRight(frame, d, k, r.series[k], ts);
    }
    hide PerKey, SeriesCell;
    KeySumSame(r.series.Keys, SeriesCell(r, p), PerKey(ts, keep, KeyOf(d)));
  }

  /** In a finished table no net overflows. */
  lemma NetsNeverOverflow(frames: seq<FrameResult>, ts: seq<Transaction>, spec: Spec, f: nat, p: nat)
    requires Tabulates(frames, ts, spec) && AllFit(ts, spec) && f < |frames| && p < |spec.frames[f].periods|
    ensures p < |frames[f].totals|
    ensures
      var c := frames[f].totals[p];
      Fits(c.income + c.spending) && Wrap(c.income + c.spending) == c.income + c.spending
  {
    hide CellSum, InPeriod, SeriesRight, Wrap;
    NetFits(frames[f].totals[p]);
  }
}
