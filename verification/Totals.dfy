/** Rows and statistics: exact totals per currency, scale and key, and the shares of rows. */
module Totals {
  import opened Wrappers
  import opened CrossTab
  import opened QueryScope
  import opened Rounding
  import opened Compositions

  datatype Partition = Partition(currency: string, scale: nat)

  datatype Bucket = Bucket(partition: Partition, key: Key)

  /** One row: counts, income and spending, and the total of both. */
  datatype Row = Row(cell: Cell, total: int)

  function PartitionOf(t: Transaction): Partition {
    Partition(t.currency, t.scale)
  }

  function InPartition(p: Partition): Transaction -> bool {
    (t: Transaction) => PartitionOf(t) == p
  }

  function BucketOf(t: Transaction, key: Transaction -> Key): Bucket {
    Bucket(PartitionOf(t), key(t))
  }

  function InBucket(b: Bucket, key: Transaction -> Key): Transaction -> bool {
    ByKey(InPartition(b.partition), key, b.key)
  }

  /** Checked addition that tests before it adds. */
  function MoneyAdd(a: int, b: int): Option<int> {
    if (b > 0 && a > MAX_INT64 - b) || (b < 0 && a < MIN_INT64 - b) then None else Some(a + b)
  }

  lemma MoneyAddIsExact(a: int, b: int)
    requires Fits(a) && Fits(b)
    ensures MoneyAdd(a, b) == if Fits(a + b) then Some(a + b) else None
  {
  }

  /** Adds a visible amount to a row: to income or spending, and to the total. */
  function AddAmount(row: Row, minor: int): Option<Row>
    requires Fits(minor)
  {
    var income := if minor > 0 then MoneyAdd(row.cell.income, minor) else Some(row.cell.income);
    var spending := if minor < 0 then MoneyAdd(row.cell.spending, minor) else Some(row.cell.spending);
    if income.None? || spending.None? then None
    else
      var total := MoneyAdd(row.total, minor);
      if total.None? then None
      else Some(Row(row.cell.(income := income.value, spending := spending.value), total.value))
  }

  /** One transaction added to its row; hidden transactions only count. */
  function AddToRow(row: Row, t: Transaction): Option<Row>
    requires Fits(t.minor)
  {
    var counted := row.(cell := row.cell.(
      count := row.cell.count + 1, hidden := row.cell.hidden + (if t.hidden then 1 else 0),
      pending := row.cell.pending + (if t.pending then 1 else 0)));
    if t.hidden then Some(counted) else AddAmount(counted, t.minor)
  }

  /** The total of a row never overflows on its own: adding fails exactly when income or spending leaves
  64 bits. */
  lemma TotalNeverOverflows(row: Row, t: Transaction)
    requires CellFits(row.cell) && row.total == Net(row.cell) && Fits(t.minor)
    ensures AddToRow(row, t) ==
            if CellFits(Plus(row.cell, One(t))) then Some(Row(Plus(row.cell, One(t)), Net(Plus(row.cell, One(t)))))
                else None
  {
  }

  ghost predicate BucketSeen(ts: seq<Transaction>, key: Transaction -> Key, b: Bucket) {
    exists i :: 0 <= i < |ts| && BucketOf(ts[i], key) == b
  }

  ghost predicate RowRight(ts: seq<Transaction>, key: Transaction -> Key, b: Bucket, row: Row) {
    row.cell == CellSum(ts, InBucket(b, key)) && row.total == Net(row.cell) && CellFits(row.cell)
  }

  /** One row per bucket that occurs, with exactly its transactions. */
  ghost predicate RowsRight(rows: map<Bucket, Row>, ts: seq<Transaction>, key: Transaction -> Key) {
    && (forall b :: b in rows <==> BucketSeen(ts, key, b))
    && (forall b :: b in rows ==> RowRight(ts, key, b, rows[b]))
  }

  ghost predicate BucketsFit(ts: seq<Transaction>, key: Transaction -> Key) {
    forall b :: CellFits(CellSum(ts, InBucket(b, key)))
  }

  lemma SeenStep(ts: seq<Transaction>, t: Transaction, key: Transaction -> Key, b: Bucket)
    ensures BucketSeen(ts + [t], key, b) <==> BucketSeen(ts, key, b) || BucketOf(t, key) == b
  {
    if BucketSeen(ts, key, b) {
      var i :| 0 <= i < |ts| && BucketOf(ts[i], key) == b;
      assert (ts + [t])[i] == ts[i];
    }
    assert (ts + [t])[|ts|] == t;
  }

  lemma UnseenKeepsNone(ts: seq<Transaction>, key: Transaction -> Key, b: Bucket)
    requires !BucketSeen(ts, key, b)
    ensures KeepsNone(ts, InBucket(b, key))
  {
  }

  lemma UnseenRow(ts: seq<Transaction>, key: Transaction -> Key, b: Bucket)
    requires !BucketSeen(ts, key, b)
    ensures CellSum(ts, InBucket(b, key)) == ZERO && RowRight(ts, key, b, Row(ZERO, 0))
  {
    hide CellSum, BucketSeen, InBucket, KeepsNone;
    UnseenKeepsNone(ts, key, b);
    NothingKept(ts, InBucket(b, key));
  }

  lemma RowStep(ts: seq<Transaction>, t: Transaction, key: Transaction -> Key, b: Bucket, row: Row)
    requires RowRight(ts, key, b, row) && Fits(t.minor)
    ensures BucketOf(t, key) == b ==>
              (AddToRow(row, t).Some? <==> CellFits(CellSum(ts + [t], InBucket(b, key))))
              && (AddToRow(row, t).Some? ==> RowRight(ts + [t], key, b, AddToRow(row, t).value))
    ensures BucketOf(t, key) != b ==> RowRight(ts + [t], key, b, row)
  {
    hide CellSum, Plus, One, AddToRow, CellFits;
    CellSumStep(ts, t, InBucket(b, key));
    TotalNeverOverflows(row, t);
  }

  lemma RowsStep(rows: map<Bucket, Row>, ts: seq<Transaction>, t: Transaction, key: Transaction -> Key, row: Row)
    requires RowsRight(rows, ts, key) && RowRight(ts + [t], key, BucketOf(t, key), row) && Fits(t.minor)
    ensures RowsRight(rows[BucketOf(t, key) := row], ts + [t], key)
  {
    hide RowRight, BucketSeen, BucketOf;
    var after := rows[BucketOf(t, key) := row];
    forall b ensures b in after <==> BucketSeen(ts + [t], key, b) {
      SeenStep(ts, t, key, b);
    }
    forall b | b in after ensures RowRight(ts + [t], key, b, after[b]) {
      if b != BucketOf(t, key) {
        RowStep(ts, t, key, b, rows[b]);
      }
    }
  }

  // Later transactions never bring a bucket back into range.
  lemma BucketOverflowStays(ts: seq<Transaction>, n: nat, key: Transaction -> Key, b: Bucket)
    requires n <= |ts| && !CellFits(CellSum(ts[..n], InBucket(b, key)))
    ensures !BucketsFit(ts, key)
  {
    CellSumGrows(ts, n, InBucket(b, key));
    CellSumSigns(ts[..n], InBucket(b, key));
    hide CellSum, InBucket;
  }

  lemma RowsFit(rows: map<Bucket, Row>, ts: seq<Transaction>, key: Transaction -> Key)
    requires RowsRight(rows, ts, key)
    ensures BucketsFit(ts, key)
  {
    hide BucketSeen, CellSum, InBucket;
    forall b ensures CellFits(CellSum(ts, InBucket(b, key))) {
      if b in rows {
        assert RowRight(ts, key, b, rows[b]);
      } else {
        UnseenRow(ts, key, b);
      }
    }
  }

  lemma NoRows(key: Transaction -> Key)
    ensures RowsRight(map[], [], key)
  {
  }

  // Statistics -------------------------------------------------------------------------------------------------

  ghost predicate PartitionSeen(ts: seq<Transaction>, p: Partition) {
    exists i :: 0 <= i < |ts| && PartitionOf(ts[i]) == p
  }

  ghost predicate CellsOf(cells: map<Partition, Cell>, ts: seq<Transaction>) {
    && (forall p :: p in cells <==> PartitionSeen(ts, p))
    && (forall p :: p in cells ==> cells[p] == CellSum(ts, InPartition(p)) && CellFits(cells[p]))
  }

  lemma CellsStep(cells: map<Partition, Cell>, ts: seq<Transaction>, t: Transaction)
    requires CellsOf(cells, ts)
    ensures
      var p := PartitionOf(t);
      var cell := if p in cells then cells[p] else ZERO;
      && cell == CellSum(ts, InPartition(p)) && CellFits(cell)
      && Plus(cell, One(t)) == CellSum(ts + [t], InPartition(p))
      && (CellFits(Plus(cell, One(t))) ==> CellsOf(cells[p := Plus(cell, One(t))], ts + [t]))
  {
    hide Plus, One;
    var p := PartitionOf(t);
    if p !in cells {
      assert KeepsNone(ts, InPartition(p));
      NothingKept(ts, InPartition(p));
    }
    hide CellSum, CellFits;
    forall q ensures CellSum(ts + [t], InPartition(q)) ==
      if q == p then Plus(CellSum(ts, InPartition(q)), One(t)) else CellSum(ts, InPartition(q))
    {
      CellSumStep(ts, t, InPartition(q));
    }
    hide InPartition;
    forall q ensures PartitionSeen(ts + [t], q) <==> PartitionSeen(ts, q) || q == p {
      if PartitionSeen(ts, q) {
        var i :| 0 <= i < |ts| && PartitionOf(ts[i]) == q;
        assert (ts + [t])[i] == ts[i];
      }
      assert (ts + [t])[|ts|] == t;
    }
    hide PartitionSeen;
  }

  /** The statistics of one currency and scale; the net is formed at the end. */
  datatype Stats = Stats(count: nat, income: int, spending: int, net: int)

  /** Exact totals per currency and scale: it fails exactly when one of them leaves 64 bits. */
  method Statistics(ts: seq<Transaction>) returns (r: Option<map<Partition, Stats>>)
    requires AmountsFit(ts)
    ensures r.Some? <==> forall p :: CellFits(CellSum(ts, InPartition(p)))
    ensures r.Some? ==> forall p :: p in r.value <==> PartitionSeen(ts, p)
    ensures r.Some? ==> forall p :: p in r.value ==>
                                      var c := CellSum(ts, InPartition(p));
                                      r.value[p] == Stats(c.count, c.income, c.spending, Net(c))
  {
    hide CellSum, InPartition;
    var cells: map<Partition, Cell> := map[];
    assert ts[..0] == [];
    for n := 0 to |ts|
      invariant CellsOf(cells, ts[..n])
    {
      assert ts[..n + 1] == ts[..n] + [ts[n]];
      CellsStep(cells, ts[..n], ts[n]);
      var p := PartitionOf(ts[n]);
      var cell := if p in cells then cells[p] else ZERO;
      var added := AddToCell(cell, ts[n]);
      if added.None? {
        PartitionOverflowStays(ts, n + 1, p);
        return None;
      }
      cells := cells[p := added.value];
    }
    assert ts[..|ts|] == ts;
    var stats: map<Partition, Stats> := map[];
    var todo := cells.Keys;
    while todo != {}
      invariant todo <= cells.Keys && stats.Keys == cells.Keys - todo
      invariant forall p :: p in stats ==>
          stats[p] == Stats(cells[p].count, cells[p].income, cells[p].spending, Net(cells[p]))
      decreases todo
    {
      var p :| p in todo;
      todo := todo - {p};
      var net := MoneyAdd(cells[p].income, cells[p].spending);
      if net.None? {
        return None;
      }
      stats := stats[p := Stats(cells[p].count, cells[p].income, cells[p].spending, net.value)];
    }
    PartitionsFit(cells, ts);
    return Some(stats);
  }

  lemma PartitionOverflowStays(ts: seq<Transaction>, n: nat, p: Partition)
    requires n <= |ts| && !CellFits(CellSum(ts[..n], InPartition(p)))
    ensures !CellFits(CellSum(ts, InPartition(p)))
  {
    CellSumGrows(ts, n, InPartition(p));
    CellSumSigns(ts[..n], InPartition(p));
    hide CellSum;
  }

  lemma PartitionsFit(cells: map<Partition, Cell>, ts: seq<Transaction>)
    requires CellsOf(cells, ts)
    ensures forall p :: CellFits(CellSum(ts, InPartition(p)))
  {
    forall p ensures CellFits(CellSum(ts, InPartition(p))) {
      if p !in cells {
        assert KeepsNone(ts, InPartition(p));
        NothingKept(ts, InPartition(p));
      }
    }
  }

  ghost function RowCell(rows: map<Bucket, Row>, p: Partition): Key -> Cell {
    (k: Key) => if Bucket(p, k) in rows then rows[Bucket(p, k)].cell else ZERO
  }

  /** The aggregate rows of one currency and scale add up to its statistics, whatever the grouping. */
  lemma RowsAddUpToStatistics(rows: map<Bucket, Row>, ts: seq<Transaction>, key: Transaction -> Key, p: Partition,
    keys: set<Key>)
    requires RowsRight(rows, ts, key) && forall k :: k in keys <==> Bucket(p, k) in rows
    ensures KeySum(keys, RowCell(rows, p)) == CellSum(ts, InPartition(p))
  {
    hide CellSum, KeySum;
    forall t | t in ts && InPartition(p)(t) ensures key(t) in keys {
      var i :| 0 <= i < |ts| && ts[i] == t;
      assert BucketOf(ts[i], key) == Bucket(p, key(t));
      assert BucketSeen(ts, key, Bucket(p, key(t)));
    }
    KeysAddUp(ts, InPartition(p), key, keys);
    hide BucketSeen, InPartition;
    forall k | k in keys ensures RowCell(rows, p)(k) == PerKey(ts, InPartition(p), key)(k) {
      assert RowRight(ts, key, Bucket(p, k), rows[Bucket(p, k)]);
    }
    hide PerKey, RowCell;
    KeySumSame(keys, RowCell(rows, p), PerKey(ts, InPartition(p), key));
  }

  // Shares of rows ---------------------------------------------------------------------------------------------

  datatype ShareRow = ShareRow(partition: Partition, total: int, share: int)

  datatype Denominators = Denominators(income: int, expenses: int)

  predicate OnSide(r: ShareRow, p: Partition, income: bool) {
    r.partition == p && if income then r.total > 0 else r.total < 0
  }

  /** The rows of one partition and sign, in order. */
  function Side(rows: seq<ShareRow>, p: Partition, income: bool): seq<ShareRow> {
    if rows == [] then []
    else
      var last := rows[|rows| - 1];
      Side(rows[..|rows| - 1], p, income) + if OnSide(last, p, income) then [last] else []
  }

  function Totals(rows: seq<ShareRow>): (r: seq<int>)
    ensures |r| == |rows| && forall i :: 0 <= i < |rows| ==> r[i] == rows[i].total
  {
    seq(|rows|, i requires 0 <= i < |rows| => rows[i].total)
  }

  function Shares(rows: seq<ShareRow>): (r: seq<int>)
    ensures |r| == |rows| && forall i :: 0 <= i < |rows| ==> r[i] == rows[i].share
  {
    seq(|rows|, i requires 0 <= i < |rows| => rows[i].share)
  }

  function Whole(rows: seq<ShareRow>, p: Partition, income: bool): int {
    Sum(Parts(Totals(Side(rows, p, income))))
  }

  lemma WholeStep(rows: seq<ShareRow>, r: ShareRow, p: Partition, income: bool)
    ensures Whole(rows + [r], p, income) == Whole(rows, p, income) + if OnSide(r, p, income) then Magnitude(r.total)
        else 0
  {
    assert (rows + [r])[..|rows|] == rows;
    if OnSide(r, p, income) {
      assert Parts(Totals(Side(rows, p, income) + [r])) == Parts(Totals(Side(rows, p, income))) + [Magnitude(r.total)];
      SumAppend(Parts(Totals(Side(rows, p, income))), Magnitude(r.total));
    } else {
      assert Side(rows + [r], p, income) == Side(rows, p, income);
    }
  }

  lemma {:induction false} WholeGrows(rows: seq<ShareRow>, n: nat, p: Partition, income: bool)
    requires n <= |rows|
    ensures 0 <= Whole(rows[..n], p, income) <= Whole(rows, p, income)
  {
    hide Whole, OnSide;
    if n < |rows| {
      var m := |rows| - 1;
      WholeGrows(rows[..m], n, p, income);
      assert rows[..m][..n] == rows[..n] && rows == rows[..m] + [rows[m]];
      WholeStep(rows[..m], rows[m], p, income);
    } else {
      assert rows[..n] == rows;
      if n > 0 {
        WholeGrows(rows[..n - 1], n - 1, p, income);
        assert rows[..n - 1][..n - 1] == rows[..n - 1] && rows == rows[..n - 1] + [rows[n - 1]];
        WholeStep(rows[..n - 1], rows[n - 1], p, income);
      } else {
        WholeEmpty(p, income);
      }
    }
  }

  lemma WholeEmpty(p: Partition, income: bool)
    ensures Whole([], p, income) == 0
  {
    assert Parts(Totals([])) == [];
  }

  // A row's magnitude is part of its whole.
  lemma PartOfWhole(rows: seq<ShareRow>, i: nat, income: bool)
    requires i < |rows| && OnSide(rows[i], rows[i].partition, income)
    ensures 0 < Magnitude(rows[i].total) <= Whole(rows, rows[i].partition, income)
  {
    var p := rows[i].partition;
    WholeStep(rows[..i], rows[i], p, income);
    WholeGrows(rows[..i], 0, p, income);
    assert rows[..i][..0] == [] && rows[..i + 1] == rows[..i] + [rows[i]];
    WholeEmpty(p, income);
    WholeGrows(rows, i + 1, p, income);
    hide Whole;
  }

  /** What a row becomes: its share of the rows with its partition and sign; zero rows keep theirs. */
  function Shared(rows: seq<ShareRow>, r: ShareRow): ShareRow {
    var whole := Whole(rows, r.partition, r.total > 0);
    if r.total == 0 || whole <= 0 then r else r.(share := Rounded(Magnitude(r.total) * TENTHS, whole))
  }

  // The denominators after some rows.
  ghost predicate DenominatorsOf(table: map<Partition, Denominators>, rows: seq<ShareRow>) {
    forall p ::
      var d := if p in table then table[p] else Denominators(0, 0);
      d == Denominators(Whole(rows, p, true), Whole(rows, p, false)) && Unsigned(d.income) && Unsigned(d.expenses)
  }

  ghost predicate WholesFit(rows: seq<ShareRow>) {
    forall p, income :: Whole(rows, p, income) <= MAX_UINT64
  }

  method CollectDenominators(rows: seq<ShareRow>) returns (r: Option<map<Partition, Denominators>>)
    requires forall i :: 0 <= i < |rows| ==> Fits(rows[i].total)
    ensures r.Some? <==> WholesFit(rows)
    ensures r.Some? ==> DenominatorsOf(r.value, rows)
  {
    hide Whole;
    var table: map<Partition, Denominators> := map[];
    assert rows[..0] == [];
    NoDenominators();
    for n := 0 to |rows|
      invariant DenominatorsOf(table, rows[..n])
    {
      assert rows[..n + 1] == rows[..n] + [rows[n]];
      var row := rows[n];
      var value := if row.partition in table then table[row.partition] else Denominators(0, 0);
      AbsIs(row.total);
      forall p, income
        ensures Whole(rows[..n + 1], p, income) ==
          Whole(rows[..n], p, income) + if OnSide(row, p, income) then Magnitude(row.total) else 0
      {
        WholeStep(rows[..n], row, p, income);
      }
      WholeGrows(rows, n + 1, row.partition, true);
      WholeGrows(rows, n + 1, row.partition, false);
      var amount := AbsMinor(row.total);
      if row.total > 0 {
        if MAX_UINT64 - value.income < amount {
          return None;
        }
        value := value.(income := value.income + amount);
      } else if row.total < 0 {
        if MAX_UINT64 - value.expenses < amount {
          return None;
        }
        value := value.(expenses := value.expenses + amount);
      }
      table := table[row.partition := value];
    }
    assert rows[..|rows|] == rows;
    forall p, income ensures Whole(rows, p, income) <= MAX_UINT64 {
      var d := if p in table then table[p] else Denominators(0, 0);
      assert d == Denominators(Whole(rows, p, true), Whole(rows, p, false)) && Unsigned(d.income)
          && Unsigned(d.expenses);
    }
    return Some(table);
  }

  lemma NoDenominators()
    ensures DenominatorsOf(map[], [])
  {
    forall p, income ensures Whole([], p, income) == 0 {
      WholeEmpty(p, income);
    }
    hide Whole;
  }

  /** Writes every row's share: it fails exactly when a denominator leaves 64 unsigned bits. */
  method ApplyShares(rows: seq<ShareRow>) returns (r: Option<seq<ShareRow>>)
    requires forall i :: 0 <= i < |rows| ==> Fits(rows[i].total)
    ensures r.Some? <==> WholesFit(rows)
    ensures r.Some? ==> |r.value| == |rows| && forall i :: 0 <= i < |rows| ==> r.value[i] == Shared(rows, rows[i])
  {
    hide Whole, WholesFit, Rounded;
    var table := CollectDenominators(rows);
    if table.None? {
      return None;
    }
    var after := rows;
    for i := 0 to |rows|
      invariant |after| == |rows|
      invariant forall k :: 0 <= k < |rows| ==> after[k] == if k < i then Shared(rows, rows[k]) else rows[k]
    {
      var row := after[i];
      var value := if row.partition in table.value then table.value[row.partition] else Denominators(0, 0);
      assert value == Denominators(Whole(rows, row.partition, true), Whole(rows, row.partition, false));
      var denominator := if row.total > 0 then value.income else value.expenses;
      if row.total != 0 && denominator != 0 {
        PartOfWhole(rows, i, row.total > 0);
        var share := Share(row.total, denominator);
        after := after[i := row.(share := share.value)];
      } else if row.total != 0 {
        PartOfWhole(rows, i, row.total > 0);
      }
    }
    return Some(after);
  }

  lemma {:induction false} SidesShared(rows: seq<ShareRow>, all: seq<ShareRow>, after: seq<ShareRow>, p: Partition,
    income: bool)
    requires |after| == |rows| && forall i :: 0 <= i < |rows| ==> after[i] == Shared(all, rows[i])
    ensures Totals(Side(after, p, income)) == Totals(Side(rows, p, income))
    ensures Whole(all, p, income) > 0 ==>
        SharesOf(Shares(Side(after, p, income)), Parts(Totals(Side(after, p, income))), Whole(all, p, income))
  {
    hide Rounded, Whole;
    if rows != [] {
      var n := |rows| - 1;
      SidesShared(rows[..n], all, after[..n], p, income);
      assert OnSide(rows[n], p, income) <==> OnSide(after[n], p, income);
    }
  }

  /** The shares of the k rows of one currency, scale and sign differ from 1000 tenths by at most k/2. */
  lemma RowSharesAddUp(rows: seq<ShareRow>, after: seq<ShareRow>, p: Partition, income: bool)
    requires |after| == |rows| && forall i :: 0 <= i < |rows| ==> after[i] == Shared(rows, rows[i])
    requires Side(rows, p, income) != []
    ensures
      var k := |Side(after, p, income)|;
      0 - k <= 2 * Sum(Shares(Side(after, p, income))) - 2 * TENTHS <= k
  {
    SideHasWhole(rows, p, income);
    SidesShared(rows, rows, after, p, income);
    hide Rounded, SharesOf, Sum;
    assert Sum(Parts(Totals(Side(after, p, income)))) == Whole(rows, p, income);
    SharesAddUp(Shares(Side(after, p, income)), Parts(Totals(Side(after, p, income))), Whole(rows, p, income));
  }

  lemma {:induction false} SideHasWhole(rows: seq<ShareRow>, p: Partition, income: bool)
    requires Side(rows, p, income) != []
    ensures Whole(rows, p, income) > 0
  {
    var n := |rows| - 1;
    assert rows == rows[..n] + [rows[n]];
    WholeStep(rows[..n], rows[n], p, income);
    WholeGrows(rows[..n], 0, p, income);
    assert rows[..n][..0] == [];
    WholeEmpty(p, income);
    hide Whole;
    if !OnSide(rows[n], p, income) {
      SideHasWhole(rows[..n], p, income);
    }
  }
}
