/** Reconciliation of stored Amazon order items with the rows of a new export.

Text keys that the program only compares are integers here, ordered as the program orders the text.
A stored item is identified by its transaction, a row by its file and record. */
module AmazonReconcile {
  import opened Wrappers
  import opened Ranking

  type Key = int

  type Id = string

  /** The columns an item takes from its row. */
  datatype Facts = Facts(
    asin: Option<Key>, asinlessKey: Key, product: Key, date: int, quantity: int, amount: int,
    unitPrice: Option<int>, currency: Key, scale: int, orderStatus: Key, shipmentStatus: Key, identity: Key, full: Key)

  /** What the user's transaction held when the item was last seen with one. */
  datatype Local = Local(account: Id, merchant: Id, category: Option<Id>, notes: Key, hidden: bool)

  const NO_LOCAL := Local("", "", None, 0, false)

  datatype Item = Item(transaction: Key, source: Key, order: Key, facts: Facts, retired: bool, local: Local)

  datatype Row = Row(order: Key, facts: Facts, file: Key, record: int)

  type Pair = (Item, Row)

  predicate ItemBefore(a: Item, b: Item) {
    a.transaction < b.transaction
  }

  predicate RowBefore(a: Row, b: Row) {
    a.file < b.file || (a.file == b.file && a.record < b.record)
  }

  ghost predicate DistinctItems(items: set<Item>) {
    forall a, b :: a in items && b in items && a.transaction == b.transaction ==> a == b
  }

  ghost predicate DistinctRows(rows: set<Row>) {
    forall a, b :: a in rows && b in rows && a.file == b.file && a.record == b.record ==> a == b
  }

  function FromRow(e: Item, r: Row): Item {
    e.(order := r.order, facts := r.facts, retired := false)
  }

  lemma TakesRow(e: Item, r: Row)
    ensures FromRow(e, r).transaction == e.transaction && FromRow(e, r).facts.full == r.facts.full
  {
  }

  // The four passes over one order ---------------------------------------------------------------

  function Alike(items: set<Item>, identity: Key): set<Item> {
    set e | e in items && e.facts.identity == identity
  }

  function AlikeRows(rows: set<Row>, identity: Key): set<Row> {
    set r | r in rows && r.facts.identity == identity
  }

  /** Equal fingerprints pair in order: the item of rank `k` by transaction with the row of rank `k`
  by file and record. */
  ghost predicate ExactMatch(items: set<Item>, rows: set<Row>, e: Item, r: Row) {
    && e in items && r in rows && e.facts.identity == r.facts.identity
    && Rank(e, Alike(items, e.facts.identity), ItemBefore) == Rank(r, AlikeRows(rows, r.facts.identity), RowBefore)
  }

  ghost function ExactPairs(items: set<Item>, rows: set<Row>): set<Pair> {
    set e, r | e in items && r in rows && ExactMatch(items, rows, e, r) :: (e, r)
  }

  function WithAsin(items: set<Item>, asin: Option<Key>): set<Item> {
    set e | e in items && e.facts.asin == asin
  }

  function RowsWithAsin(rows: set<Row>, asin: Option<Key>): set<Row> {
    set r | r in rows && r.facts.asin == asin
  }

  /** The only leftover item and the only leftover row with this product. */
  ghost predicate SoleMatch(items: set<Item>, rows: set<Row>, e: Item, r: Row) {
    && e in items && r in rows && e.facts.asin == r.facts.asin
    && WithAsin(items, e.facts.asin) == {e} && RowsWithAsin(rows, r.facts.asin) == {r}
  }

  ghost function SolePairs(items: set<Item>, rows: set<Row>, named: bool): set<Pair> {
    set e, r | e in items && r in rows && e.facts.asin.Some? == named && SoleMatch(items, rows, e, r) :: (e, r)
  }

  ghost function ItemsOf(pairs: set<Pair>): set<Item> {
    set p | p in pairs :: p.0
  }

  ghost function RowsOf(pairs: set<Pair>): set<Row> {
    set p | p in pairs :: p.1
  }

  function Active(items: set<Item>): set<Item> {
    set e | e in items && !e.retired
  }

  function Retired(items: set<Item>): set<Item> {
    set e | e in items && e.retired
  }

  /** The result of the four passes: pairs by pass, and what no pass paired. */
  datatype Matching = Matching(
    exact: set<Pair>, restored: set<Pair>, sole: set<Pair>, asinless: set<Pair>, items: set<Item>, rows: set<Row>)
  {
    ghost function Pairs(): set<Pair> {
      exact + restored + sole + asinless
    }

    ghost function Kept(): set<Pair> {
      exact + sole + asinless
    }
  }

  ghost function Match(items: set<Item>, rows: set<Row>): Matching {
    var exact := ExactPairs(Active(items), rows);
    var e1, r1 := Active(items) - ItemsOf(exact), rows - RowsOf(exact);
    var restored := ExactPairs(Retired(items), r1);
    var r2 := r1 - RowsOf(restored);
    var sole := SolePairs(e1, r2, true);
    var e3, r3 := e1 - ItemsOf(sole), r2 - RowsOf(sole);
    var asinless := SolePairs(e3, r3, false);
    Matching(exact, restored, sole, asinless, e3 - ItemsOf(asinless), r3 - RowsOf(asinless))
  }

  ghost predicate OneToOne(pairs: set<Pair>) {
    forall p, q :: p in pairs && q in pairs && (p.0 == q.0 || p.1 == q.1) ==> p == q
  }

  lemma ItemsTotal(items: set<Item>)
    requires DistinctItems(items)
    ensures TotalOn(items, ItemBefore)
  {
  }

  lemma RowsTotal(rows: set<Row>)
    requires DistinctRows(rows)
    ensures TotalOn(rows, RowBefore)
  {
  }

  lemma ExactIsOneToOne(items: set<Item>, rows: set<Row>)
    requires DistinctItems(items) && DistinctRows(rows)
    ensures OneToOne(ExactPairs(items, rows))
    ensures ItemsOf(ExactPairs(items, rows)) <= items && RowsOf(ExactPairs(items, rows)) <= rows
  {
    var pairs := ExactPairs(items, rows);
    forall p, q | p in pairs && q in pairs && (p.0 == q.0 || p.1 == q.1) ensures p == q {
      var f := p.0.facts.identity;
      assert ExactMatch(items, rows, p.0, p.1) && ExactMatch(items, rows, q.0, q.1);
      ItemsTotal(Alike(items, f));
      RowsTotal(AlikeRows(rows, f));
      if p.0 == q.0 {
        RankInjective(p.1, q.1, AlikeRows(rows, f), RowBefore);
      } else {
        RankInjective(p.0, q.0, Alike(items, f), ItemBefore);
      }
    }
  }

  lemma SoleIsOneToOne(items: set<Item>, rows: set<Row>, named: bool)
    ensures OneToOne(SolePairs(items, rows, named))
    ensures ItemsOf(SolePairs(items, rows, named)) <= items && RowsOf(SolePairs(items, rows, named)) <= rows
  {
    var pairs := SolePairs(items, rows, named);
    forall p, q | p in pairs && q in pairs && (p.0 == q.0 || p.1 == q.1) ensures p == q {
      assert SoleMatch(items, rows, p.0, p.1) && SoleMatch(items, rows, q.0, q.1);
      assert q.0 in WithAsin(items, p.0.facts.asin) && q.1 in RowsWithAsin(rows, p.1.facts.asin);
    }
  }

  lemma UnionOneToOne(a: set<Pair>, b: set<Pair>)
    requires OneToOne(a) && OneToOne(b) && ItemsOf(a) !! ItemsOf(b) && RowsOf(a) !! RowsOf(b)
    ensures OneToOne(a + b)
    ensures ItemsOf(a + b) == ItemsOf(a) + ItemsOf(b) && RowsOf(a + b) == RowsOf(a) + RowsOf(b)
    ensures a !! b
  {
    forall p | p in a ensures p.0 in ItemsOf(a) && p.1 in RowsOf(a) {}
    forall p | p in b ensures p.0 in ItemsOf(b) && p.1 in RowsOf(b) {}
  }

  /** Within an order no item and no row is paired twice; active items, and rows, are each either
  paired or left over; only the second pass touches retired items. */
  lemma MatchPartitions(items: set<Item>, rows: set<Row>)
    requires DistinctItems(items) && DistinctRows(rows)
    ensures
      var m := Match(items, rows);
      && OneToOne(m.Pairs()) && OneToOne(m.Kept()) && m.Kept() !! m.restored
      && Active(items) == ItemsOf(m.Kept()) + m.items && ItemsOf(m.Kept()) !! m.items
      && ItemsOf(m.restored) <= Retired(items)
      && rows == RowsOf(m.Kept()) + RowsOf(m.restored) + m.rows
      && RowsOf(m.Kept()) !! RowsOf(m.restored) && m.rows !! RowsOf(m.Pairs())
  {
    var m := Match(items, rows);
    var e1, r1 := Active(items) - ItemsOf(m.exact), rows - RowsOf(m.exact);
    var r2 := r1 - RowsOf(m.restored);
    var e3, r3 := e1 - ItemsOf(m.sole), r2 - RowsOf(m.sole);
    ExactIsOneToOne(Active(items), rows);
    ExactIsOneToOne(Retired(items), r1);
    SoleIsOneToOne(e1, r2, true);
    SoleIsOneToOne(e3, r3, false);
    assert Active(items) !! Retired(items);
    hide ExactPairs, SolePairs, OneToOne, ItemsOf, RowsOf, Active, Retired, DistinctItems, DistinctRows;
    UnionOneToOne(m.exact, m.sole);
    UnionOneToOne(m.exact + m.sole, m.asinless);
    UnionOneToOne(m.Kept(), m.restored);
    assert m.Pairs() == m.Kept() + m.restored;
  }

  lemma RankedItemIsPaired(items: set<Item>, rows: set<Row>, e: Item)
    requires DistinctItems(items) && DistinctRows(rows) && e in items
    requires Rank(e, Alike(items, e.facts.identity), ItemBefore) < |AlikeRows(rows, e.facts.identity)|
    ensures e in ItemsOf(ExactPairs(items, rows))
  {
    var rs := AlikeRows(rows, e.facts.identity);
    RowsTotal(rs);
    var partner := ElementOfRank(rs, RowBefore, Rank(e, Alike(items, e.facts.identity), ItemBefore));
    assert ExactMatch(items, rows, e, partner);
    assert (e, partner) in ExactPairs(items, rows);
  }

  lemma RankedRowIsPaired(items: set<Item>, rows: set<Row>, r: Row)
    requires DistinctItems(items) && DistinctRows(rows) && r in rows
    requires Rank(r, AlikeRows(rows, r.facts.identity), RowBefore) < |Alike(items, r.facts.identity)|
    ensures r in RowsOf(ExactPairs(items, rows))
  {
    var es := Alike(items, r.facts.identity);
    ItemsTotal(es);
    var partner := ElementOfRank(es, ItemBefore, Rank(r, AlikeRows(rows, r.facts.identity), RowBefore));
    assert ExactMatch(items, rows, partner, r);
    assert (partner, r) in ExactPairs(items, rows);
  }

  /** A pass by fingerprint is maximal: it never leaves an item and a row with equal fingerprints. */
  lemma ExactIsMaximal(items: set<Item>, rows: set<Row>, e: Item, r: Row)
    requires DistinctItems(items) && DistinctRows(rows)
    requires e in items - ItemsOf(ExactPairs(items, rows)) && r in rows - RowsOf(ExactPairs(items, rows))
    ensures e.facts.identity != r.facts.identity
  {
    if e.facts.identity == r.facts.identity {
      var es, rs := Alike(items, e.facts.identity), AlikeRows(rows, e.facts.identity);
      ItemsTotal(es);
      RowsTotal(rs);
      RankBelowSize(e, es, ItemBefore);
      RankBelowSize(r, rs, RowBefore);
      if Rank(e, es, ItemBefore) < |rs| {
        RankedItemIsPaired(items, rows, e);
      } else {
        RankedRowIsPaired(items, rows, r);
      }
    }
  }

  /** A retired item comes back only when every active item with its fingerprint is already paired. */
  lemma ActiveBeforeRetired(items: set<Item>, rows: set<Row>, p: Pair, e: Item)
    requires DistinctItems(items) && DistinctRows(rows)
    requires p in Match(items, rows).restored && e in Active(items) && e.facts.identity == p.1.facts.identity
    ensures e in ItemsOf(Match(items, rows).exact)
  {
    var m := Match(items, rows);
    assert ExactMatch(Retired(items), rows - RowsOf(m.exact), p.0, p.1);
    if e !in ItemsOf(m.exact) {
      ExactIsMaximal(Active(items), rows, e, p.1);
    }
  }

  // The whole reconciliation ------------------------------------------------------------------------

  function InOrder(items: set<Item>, order: Key): set<Item> {
    set e | e in items && e.order == order
  }

  function RowsInOrder(rows: set<Row>, order: Key): set<Row> {
    set r | r in rows && r.order == order
  }

  ghost function MatchIn(items: set<Item>, rows: set<Row>, order: Key): Matching {
    Match(InOrder(items, order), RowsInOrder(rows, order))
  }

  /** Pairs, leftover items and leftover rows of the given orders. */
  ghost function PairsIn(items: set<Item>, rows: set<Row>, orders: set<Key>): set<Pair> {
    set e, r | e in items && r in rows && e.order in orders && (e, r) in MatchIn(items, rows, e.order).Kept() :: (e, r)
  }

  ghost function RestoredIn(items: set<Item>, rows: set<Row>, orders: set<Key>): set<Pair> {
    set e, r | e in items && r in rows && e.order in orders && (e, r) in MatchIn(items, rows, e.order).restored ::
        (e, r)
  }

  ghost function DroppedIn(items: set<Item>, rows: set<Row>, orders: set<Key>): set<Item> {
    set e | e in items && e.order in orders && e in MatchIn(items, rows, e.order).items
  }

  ghost function NewIn(items: set<Item>, rows: set<Row>, orders: set<Key>): set<Row> {
    set r | r in rows && r.order in orders && r in MatchIn(items, rows, r.order).rows
  }

  predicate InsertBefore(a: Row, b: Row) {
    a.order < b.order || (a.order == b.order && RowBefore(a, b))
  }

  /** What an item of a reconciled order becomes. */
  ghost function Settle(m: Matching, e: Item): Item {
    if exists p :: p in m.Pairs() && p.0 == e then
      var p :| p in m.Pairs() && p.0 == e;
      FromRow(e, p.1)
    else if e in m.items then e.(retired := true)
    else e
  }

  /** What an existing item becomes; orders the export does not mention are left alone. */
  ghost function ItemAfter(items: set<Item>, rows: set<Row>, orders: set<Key>, e: Item): Item {
    if e.order in orders then Settle(MatchIn(items, rows, e.order), e) else e
  }

  ghost function NewItem(added: set<Row>, ids: seq<Key>, sources: seq<Key>, r: Row): Item
    requires Rank(r, added, InsertBefore) < |ids| && Rank(r, added, InsertBefore) < |sources|
  {
    var k := Rank(r, added, InsertBefore);
    Item(ids[k], sources[k], r.order, r.facts, false, NO_LOCAL)
  }

  ghost function NewItems(rows: set<Row>, ids: seq<Key>, sources: seq<Key>): set<Item>
    requires |rows| <= |ids| && |rows| <= |sources|
    requires forall r :: r in rows ==> Rank(r, rows, InsertBefore) < |rows|
  {
    set r | r in rows :: NewItem(rows, ids, sources, r)
  }

  datatype Summary = Summary(items: set<Item>, inserted: nat, updated: nat, restored: nat, retired: nat, same: nat)

  ghost function Edited(pairs: set<Pair>): set<Pair> {
    set p | p in pairs && p.0.facts.full != p.1.facts.full
  }

  ghost function Unobserved(items: set<Item>, orders: set<Key>): set<Item> {
    set e | e in items && !e.retired && e.order !in orders
  }

  /** The reconciliation of a set of items with a set of rows. */
  ghost predicate Reconciled(
    items: set<Item>, rows: set<Row>, orders: set<Key>, ids: seq<Key>, sources: seq<Key>, s: Summary)
  {
    var added := NewIn(items, rows, orders);
    var kept := PairsIn(items, rows, orders);
    && |added| <= |ids| && |added| <= |sources|
    && (forall r :: r in added ==> Rank(r, added, InsertBefore) < |added|)
    && s.items == (set e | e in items :: ItemAfter(items, rows, orders, e))
                  + NewItems(added, ids, sources)
    && s.inserted == |added|
    && s.restored == |RestoredIn(items, rows, orders)|
    && s.retired == |DroppedIn(items, rows, orders)|
    && s.updated == |Edited(kept)|
    && s.same == |kept| - |Edited(kept)| + |Unobserved(items, orders)|
  }

  // The passes as the program runs them --------------------------------------------------------------

  ghost function ExactOf(items: set<Item>, rows: set<Row>, identity: Key): set<Pair> {
    set p | p in ExactPairs(items, rows) && p.1.facts.identity == identity
  }

  function Zip(left: seq<Item>, right: seq<Row>, count: nat): set<Pair>
    requires count <= |left| && count <= |right|
  {
    set i | 0 <= i < count :: (left[i], right[i])
  }

  // Zipping the two sorted lists pairs elements of equal rank.
  lemma ZipPairsRanks(items: set<Item>, rows: set<Row>, identity: Key, left: seq<Item>, right: seq<Row>, count: nat)
    requires DistinctItems(items) && DistinctRows(rows)
    requires Sorted(left, ItemBefore) && Elements(left) == Alike(items, identity)
    requires Sorted(right, RowBefore) && Elements(right) == AlikeRows(rows, identity)
    requires count == if |left| <= |right| then |left| else |right|
    ensures Zip(left, right, count) == ExactOf(items, rows, identity)
  {
    ItemsTotal(Alike(items, identity));
    RowsTotal(AlikeRows(rows, identity));
    forall p | p in Zip(left, right, count) ensures p in ExactOf(items, rows, identity) {
      var i :| 0 <= i < count && p == (left[i], right[i]);
      assert left[i] in Elements(left) && right[i] in Elements(right);
      RankIsPosition(left, ItemBefore, i);
      RankIsPosition(right, RowBefore, i);
      assert ExactMatch(items, rows, p.0, p.1);
    }
    forall p | p in ExactOf(items, rows, identity) ensures p in Zip(left, right, count) {
      assert ExactMatch(items, rows, p.0, p.1);
      assert p.0 in Elements(left) && p.1 in Elements(right);
      var i :| 0 <= i < |left| && left[i] == p.0;
      var j :| 0 <= j < |right| && right[j] == p.1;
      RankIsPosition(left, ItemBefore, i);
      RankIsPosition(right, RowBefore, j);
      assert p == (left[i], right[i]);
    }
  }

  lemma AlikeTotal(items: set<Item>, rows: set<Row>, identity: Key)
    requires DistinctItems(items) && DistinctRows(rows)
    ensures TotalOn(Alike(items, identity), ItemBefore) && TotalOn(AlikeRows(rows, identity), RowBefore)
  {
    ItemsTotal(Alike(items, identity));
    RowsTotal(AlikeRows(rows, identity));
  }

  /** Pairs equal fingerprints and removes the paired items and rows from the two sets. */
  method PairExact(items: set<Item>, rows: set<Row>)
    returns (pairs: set<Pair>, itemsLeft: set<Item>, rowsLeft: set<Row>)
    requires DistinctItems(items) && DistinctRows(rows)
    ensures pairs == ExactPairs(items, rows)
    ensures itemsLeft == items - ItemsOf(pairs) && rowsLeft == rows - RowsOf(pairs)
  {
    hide DistinctItems, DistinctRows, TotalOn, Alike, AlikeRows, ExactMatch, Sorted, Rank, Elements;
    pairs, itemsLeft, rowsLeft := {}, items, rows;
    var todo := set r | r in rows :: r.facts.identity;
    while todo != {}
      invariant forall p :: p in pairs <==> p in ExactPairs(items, rows) && p.1.facts.identity !in todo
      invariant itemsLeft == items - ItemsOf(pairs) && rowsLeft == rows - RowsOf(pairs)
      decreases todo
    {
      var identity :| identity in todo;
      todo := todo - {identity};
      AlikeTotal(items, rows, identity);
      var left := Sort(Alike(items, identity), ItemBefore);
      var right := Sort(AlikeRows(rows, identity), RowBefore);
      var count := if |left| <= |right| then |left| else |right|;
      ghost var before := pairs;
      for i := 0 to count
        invariant pairs == before + Zip(left, right, i)
        invariant itemsLeft == items - ItemsOf(pairs) && rowsLeft == rows - RowsOf(pairs)
      {
        ghost var previous := pairs;
        pairs := pairs + {(left[i], right[i])};
        itemsLeft, rowsLeft := itemsLeft - {left[i]}, rowsLeft - {right[i]};
        assert Zip(left, right, i + 1) == Zip(left, right, i) + {(left[i], right[i])};
        assert ItemsOf(pairs) == ItemsOf(previous) + {left[i]};
        assert RowsOf(pairs) == RowsOf(previous) + {right[i]};
      }
      ZipPairsRanks(items, rows, identity, left, right, count);
    }
    assert pairs == ExactPairs(items, rows);
  }

  lemma SingletonSet<T>(s: set<T>, x: T)
    requires x in s
    ensures |s| == 1 <==> s == {x}
  {
    if |s| == 1 {
      SubsetSize({x}, s);
    }
  }

  /** Pairs a product that one leftover item and one leftover row have alone. */
  method PairSole(items: set<Item>, rows: set<Row>, ghost allItems: set<Item>, ghost allRows: set<Row>,
    asin: Option<Key>)
    returns (pair: Option<Pair>)
    requires WithAsin(items, asin) == WithAsin(allItems, asin)
        && RowsWithAsin(rows, asin) == RowsWithAsin(allRows, asin)
    ensures pair.Some? ==> pair.value.0.facts.asin == asin && SoleMatch(allItems, allRows, pair.value.0, pair.value.1)
    ensures pair.None? ==> forall e: Item, r: Row :: e.facts.asin == asin ==> !SoleMatch(allItems, allRows, e, r)
  {
    var left, right := WithAsin(items, asin), RowsWithAsin(rows, asin);
    if |left| == 1 && |right| == 1 {
      var e :| e in left;
      var r :| r in right;
      SingletonSet(left, e);
      SingletonSet(right, r);
      return Some((e, r));
    }
    forall e: Item, r: Row | e.facts.asin == asin ensures !SoleMatch(allItems, allRows, e, r) {
      if e in left && r in right {
        SingletonSet(left, e);
        SingletonSet(right, r);
      }
    }
    return None;
  }

  method PairAsinSingletons(items: set<Item>, rows: set<Row>)
    returns (pairs: set<Pair>, itemsLeft: set<Item>, rowsLeft: set<Row>)
    ensures pairs == SolePairs(items, rows, true)
    ensures itemsLeft == items - ItemsOf(pairs) && rowsLeft == rows - RowsOf(pairs)
  {
    pairs, itemsLeft, rowsLeft := {}, items, rows;
    var todo := set r | r in rows && r.facts.asin.Some? :: r.facts.asin;
    assert SolePairs(items, rows, true) == set p | p in SolePairs(items, rows, true) && p.0.facts.asin in todo by {
      forall p | p in SolePairs(items, rows, true) ensures p.0.facts.asin in todo {
        assert p.1 in rows && p.1.facts.asin == p.0.facts.asin;
      }
    }
    while todo != {}
      invariant forall a :: a in todo ==> a.Some?
      invariant forall p :: p in pairs <==> p in SolePairs(items, rows, true) && p.0.facts.asin !in todo
      invariant itemsLeft == items - ItemsOf(pairs) && rowsLeft == rows - RowsOf(pairs)
      decreases todo
    {
      var asin :| asin in todo;
      todo := todo - {asin};
      assert WithAsin(itemsLeft, asin) == WithAsin(items, asin);
      assert RowsWithAsin(rowsLeft, asin) == RowsWithAsin(rows, asin);
      var pair := PairSole(itemsLeft, rowsLeft, items, rows, asin);
      if pair.Some? {
        ghost var previous := pairs;
        pairs := pairs + {pair.value};
        itemsLeft, rowsLeft := itemsLeft - {pair.value.0}, rowsLeft - {pair.value.1};
        assert ItemsOf(pairs) == ItemsOf(previous) + {pair.value.0};
        assert RowsOf(pairs) == RowsOf(previous) + {pair.value.1};
        forall p | p in SolePairs(items, rows, true) && p.0.facts.asin == asin ensures p == pair.value {
          assert SoleMatch(items, rows, p.0, p.1);
          assert p.0 in WithAsin(items, asin) && p.1 in RowsWithAsin(rows, asin);
        }
      }
    }
    assert pairs == SolePairs(items, rows, true);
  }

  method PairAsinLessSingleton(items: set<Item>, rows: set<Row>)
    returns (pairs: set<Pair>, itemsLeft: set<Item>, rowsLeft: set<Row>)
    ensures pairs == SolePairs(items, rows, false)
    ensures itemsLeft == items - ItemsOf(pairs) && rowsLeft == rows - RowsOf(pairs)
  {
    var pair := PairSole(items, rows, items, rows, None);
    if pair.Some? {
      pairs, itemsLeft, rowsLeft := {pair.value}, items - {pair.value.0}, rows - {pair.value.1};
      forall p | p in SolePairs(items, rows, false) ensures p == pair.value {
        assert SoleMatch(items, rows, p.0, p.1);
        assert p.0 in WithAsin(items, None) && p.1 in RowsWithAsin(rows, None);
      }
    } else {
      pairs, itemsLeft, rowsLeft := {}, items, rows;
    }
    assert pairs == SolePairs(items, rows, false);
  }

  /** The passes over one order, in order of precedence. */
  method PairOrder(items: set<Item>, rows: set<Row>)
    returns (kept: set<Pair>, restored: set<Pair>, itemsLeft: set<Item>, rowsLeft: seq<Row>)
    requires DistinctItems(items) && DistinctRows(rows)
    ensures
      var m := Match(items, rows);
      kept == m.Kept() && restored == m.restored && itemsLeft == m.items && Elements(rowsLeft) == m.rows
    ensures Sorted(rowsLeft, RowBefore) && |rowsLeft| == |Elements(rowsLeft)|
  {
    var active, retired, incoming := Active(items), Retired(items), rows;
    var exact, sole, asinless;
    exact, active, incoming := PairExact(active, incoming);
    restored, retired, incoming := PairExact(retired, incoming);
    sole, active, incoming := PairAsinSingletons(active, incoming);
    asinless, active, incoming := PairAsinLessSingleton(active, incoming);
    kept, itemsLeft := exact + sole + asinless, active;
    RowsTotal(incoming);
    rowsLeft := Sort(incoming, RowBefore);
  }

  // Applying the matches --------------------------------------------------------------------------------

  datatype Tally = Tally(updated: nat, restored: nat, retired: nat, same: nat)

  lemma EditedGrows(done: set<Pair>, p: Pair)
    requires p !in done
    ensures Edited(done + {p}) == Edited(done) + (if p.0.facts.full != p.1.facts.full then {p} else {})
    ensures p !in Edited(done)
  {
  }

  lemma NothingEdited()
    ensures Edited({}) == {}
  {
  }

  ghost predicate InSlots(slots: map<Key, Item>, items: set<Item>) {
    forall e :: e in items ==> e.transaction in slots && slots[e.transaction] == e
  }

  ghost function TransactionsOf(items: set<Item>): set<Key> {
    set e | e in items :: e.transaction
  }

  /** One more pair in the summary: restored, updated or unchanged. */
  function CountPair(t: Tally, restoring: bool, previous: Item, updated: Item): Tally {
    if restoring then t.(restored := t.restored + 1)
    else if previous.facts.full != updated.facts.full then t.(updated := t.updated + 1)
    else t.(same := t.same + 1)
  }

  ghost predicate Counted(tally: Tally, restoring: bool, pairs: set<Pair>, t: Tally) {
    && |Edited(pairs)| <= |pairs|
    && (restoring ==> t == tally.(restored := tally.restored + |pairs|))
    && (!restoring ==>
          t == tally.(updated := tally.updated + |Edited(pairs)|, same := tally.same + (|pairs| - |Edited(pairs)|)))
  }

  lemma CountedGrows(tally: Tally, restoring: bool, done: set<Pair>, t: Tally, p: Pair)
    requires Counted(tally, restoring, done, t) && p !in done
    ensures Counted(tally, restoring, done + {p}, CountPair(t, restoring, p.0, FromRow(p.0, p.1)))
  {
    EditedGrows(done, p);
    TakesRow(p.0, p.1);
    hide Edited, FromRow;
  }

  /** Writes each pair's row into its item's slot and counts it as restored, updated or unchanged. */
  method ApplyPairs(slots: map<Key, Item>, pairs: set<Pair>, restoring: bool, tally: Tally)
    returns (after: map<Key, Item>, t: Tally)
    requires OneToOne(pairs) && DistinctItems(ItemsOf(pairs)) && InSlots(slots, ItemsOf(pairs))
    ensures after.Keys == slots.Keys
    ensures forall p :: p in pairs ==> p.0.transaction in after && after[p.0.transaction] == FromRow(p.0, p.1)
    ensures forall id :: id in slots && id !in TransactionsOf(ItemsOf(pairs)) ==> after[id] == slots[id]
    ensures Counted(tally, restoring, pairs, t)
  {
    hide OneToOne, DistinctItems, TransactionsOf, ItemsOf, InSlots, FromRow, Counted, CountPair;
    PairsInSlots(slots, pairs);
    after, t := slots, tally;
    var todo := pairs;
    ghost var done: set<Pair> := {};
    NothingCounted(tally, restoring);
    while todo != {}
      invariant forall p :: p in pairs <==> p in done || p in todo
      invariant done !! todo
      invariant after.Keys == slots.Keys
      invariant forall p :: p in done ==> p.0.transaction in after && after[p.0.transaction] == FromRow(p.0, p.1)
      invariant forall p :: p in todo ==> p.0.transaction in after && after[p.0.transaction] == p.0
      invariant forall id :: id in slots && id !in TransactionsOf(ItemsOf(pairs)) ==> after[id] == slots[id]
      invariant Counted(tally, restoring, done, t)
      decreases todo
    {
      var pair :| pair in todo;
      PairsTouchOnce(pairs, pair);
      todo := todo - {pair};
      CountedGrows(tally, restoring, done, t, pair);
      done := done + {pair};
      var previous := after[pair.0.transaction];
      var updated := FromRow(previous, pair.1);
      after := after[pair.0.transaction := updated];
      t := CountPair(t, restoring, previous, updated);
    }
    assert done == pairs;
  }

  lemma NothingCounted(tally: Tally, restoring: bool)
    ensures Counted(tally, restoring, {}, tally)
  {
    NothingEdited();
  }

  lemma PairsInSlots(slots: map<Key, Item>, pairs: set<Pair>)
    requires InSlots(slots, ItemsOf(pairs))
    ensures forall p :: p in pairs ==> p.0.transaction in slots && slots[p.0.transaction] == p.0
  {
    assert forall p :: p in pairs ==> p.0 in ItemsOf(pairs);
  }

  lemma PairsTouchOnce(pairs: set<Pair>, pair: Pair)
    requires OneToOne(pairs) && DistinctItems(ItemsOf(pairs)) && pair in pairs
    ensures pair.0.transaction in TransactionsOf(ItemsOf(pairs))
    ensures forall p :: p in pairs && p != pair ==> p.0.transaction != pair.0.transaction
  {
    assert pair.0 in ItemsOf(pairs);
    assert forall p :: p in pairs ==> p.0 in ItemsOf(pairs);
  }

  /** Retires the active items that no row matched. */
  method RetireLeft(slots: map<Key, Item>, dropped: set<Item>, tally: Tally)
    returns (after: map<Key, Item>, t: Tally)
    requires DistinctItems(dropped) && InSlots(slots, dropped)
    requires forall e :: e in dropped ==> !e.retired
    ensures after.Keys == slots.Keys
    ensures forall e :: e in dropped ==> e.transaction in after && after[e.transaction] == e.(retired := true)
    ensures forall id :: id in slots && id !in TransactionsOf(dropped) ==> after[id] == slots[id]
    ensures t == tally.(retired := tally.retired + |dropped|)
  {
    after, t := slots, tally;
    var todo := dropped;
    ghost var done: set<Item> := {};
    while todo != {}
      invariant forall e :: e in dropped <==> e in done || e in todo
      invariant done !! todo
      invariant after.Keys == slots.Keys
      invariant forall e :: e in dropped ==>
          e.transaction in after && after[e.transaction] == if e in todo then e else e.(retired := true)
      invariant forall id :: id in slots && id !in TransactionsOf(dropped) ==> after[id] == slots[id]
      invariant t == tally.(retired := tally.retired + |done|)
      decreases todo
    {
      var item :| item in todo;
      todo := todo - {item};
      done := done + {item};
      assert item.transaction in TransactionsOf(dropped);
      if !after[item.transaction].retired {
        after := after[item.transaction := after[item.transaction].(retired := true)];
        t := t.(retired := t.retired + 1);
      }
    }
    assert done == dropped;
  }

  lemma SettlePaired(m: Matching, p: Pair)
    requires OneToOne(m.Pairs()) && p in m.Pairs()
    ensures Settle(m, p.0) == FromRow(p.0, p.1)
  {
    var q :| q in m.Pairs() && q.0 == p.0;
  }

  lemma SettleOther(m: Matching, e: Item)
    requires e !in ItemsOf(m.Pairs())
    ensures Settle(m, e) == if e in m.items then e.(retired := true) else e
  {
    assert forall p :: p in m.Pairs() ==> p.0 in ItemsOf(m.Pairs());
  }

  // Order by order --------------------------------------------------------------------------------------

  lemma MatchStaysInOrder(items: set<Item>, rows: set<Row>, order: Key)
    requires DistinctItems(items) && DistinctRows(rows)
    ensures
      var m := MatchIn(items, rows, order);
      && (forall p :: p in m.Pairs() ==> p.0 in items && p.0.order == order && p.1 in rows && p.1.order == order)
      && (forall e :: e in m.items ==> e in items && e.order == order && !e.retired)
      && (forall r :: r in m.rows ==> r in rows && r.order == order)
      && OneToOne(m.Pairs()) && OneToOne(m.Kept()) && OneToOne(m.restored) && m.Kept() !! m.restored
      && ItemsOf(m.Pairs()) !! m.items && ItemsOf(m.Kept()) !! ItemsOf(m.restored)
      && m.Pairs() == m.Kept() + m.restored
  {
    var m := MatchIn(items, rows, order);
    MatchPartitions(InOrder(items, order), RowsInOrder(rows, order));
    assert forall p :: p in m.Kept() ==> p.0 in ItemsOf(m.Kept()) && p.1 in RowsOf(m.Kept());
    assert forall p :: p in m.restored ==> p.0 in ItemsOf(m.restored) && p.1 in RowsOf(m.restored);
    hide Match;
    assert Active(InOrder(items, order)) !! Retired(InOrder(items, order));
  }

  // One more order adds exactly that order's match.
  lemma OrdersGrow(items: set<Item>, rows: set<Row>, orders: set<Key>, order: Key)
    requires DistinctItems(items) && DistinctRows(rows) && order !in orders
    ensures
      var m := MatchIn(items, rows, order);
      && PairsIn(items, rows, orders + {order}) == PairsIn(items, rows, orders) + m.Kept()
      && PairsIn(items, rows, orders) !! m.Kept()
      && RestoredIn(items, rows, orders + {order}) == RestoredIn(items, rows, orders) + m.restored
      && RestoredIn(items, rows, orders) !! m.restored
      && DroppedIn(items, rows, orders + {order}) == DroppedIn(items, rows, orders) + m.items
      && DroppedIn(items, rows, orders) !! m.items
      && NewIn(items, rows, orders + {order}) == NewIn(items, rows, orders) + m.rows
      && NewIn(items, rows, orders) !! m.rows
  {
    hide MatchIn, OneToOne, DistinctItems, DistinctRows;
    MatchStaysInOrder(items, rows, order);
  }

  lemma EditedUnion(a: set<Pair>, b: set<Pair>)
    requires a !! b
    ensures |Edited(a + b)| == |Edited(a)| + |Edited(b)| && |Edited(a)| <= |a|
  {
    assert Edited(a + b) == Edited(a) + Edited(b);
    assert Edited(a) !! Edited(b);
    SubsetSize(Edited(a), a);
  }

  lemma InsertTotal(rows: set<Row>)
    requires DistinctRows(rows)
    ensures TotalOn(rows, InsertBefore)
  {
  }

  // Rows of later orders do not change the positions of earlier new rows, and follow them in order.
  lemma InsertRanks(earlier: set<Row>, left: seq<Row>, order: Key)
    requires DistinctRows(earlier + Elements(left)) && Sorted(left, RowBefore)
    requires forall r :: r in earlier ==> r.order < order
    requires forall r :: r in left ==> r.order == order
    ensures forall r :: r in earlier ==>
        Rank(r, earlier + Elements(left), InsertBefore) == Rank(r, earlier, InsertBefore)
    ensures forall j :: 0 <= j < |left| ==> Rank(left[j], earlier + Elements(left), InsertBefore) == |earlier| + j
  {
    forall r | r in earlier ensures Rank(r, earlier + Elements(left), InsertBefore) == Rank(r, earlier, InsertBefore) {
      assert Below(r, earlier + Elements(left), InsertBefore) == Below(r, earlier, InsertBefore);
    }
    forall j | 0 <= j < |left| ensures Rank(left[j], earlier + Elements(left), InsertBefore) == |earlier| + j {
      assert DistinctRows(Elements(left));
      RowsTotal(Elements(left));
      RankIsPosition(left, RowBefore, j);
      assert left[j] in Elements(left);
      assert Below(left[j], earlier + Elements(left), InsertBefore) ==
          earlier + Below(left[j], Elements(left), RowBefore);
      assert earlier !! Elements(left);
    }
  }

  // The state of the run after some orders.
  ghost predicate Progress(
    items: set<Item>, rows: set<Row>, done: set<Key>, ids: seq<Key>, sources: seq<Key>,
    slots: map<Key, Item>, added: set<Item>, next: nat, t: Tally)
  {
    && SlotsSettled(items, rows, done, slots)
    && Appended(NewIn(items, rows, done), ids, sources, added, next)
    && TallyRight(items, rows, done, t)
  }

  ghost predicate SlotsSettled(items: set<Item>, rows: set<Row>, done: set<Key>, slots: map<Key, Item>) {
    && slots.Keys == TransactionsOf(items)
    && forall e :: e in items ==> e.transaction in slots && slots[e.transaction] == ItemAfter(items, rows, done, e)
  }

  ghost predicate Appended(rest: set<Row>, ids: seq<Key>, sources: seq<Key>, added: set<Item>, next: nat) {
    && next == |rest| && next <= |ids| && next <= |sources|
    && (forall r :: r in rest ==> Rank(r, rest, InsertBefore) < next)
    && added == NewItems(rest, ids, sources)
  }

  ghost predicate TallyRight(items: set<Item>, rows: set<Row>, done: set<Key>, t: Tally) {
    var kept := PairsIn(items, rows, done);
    && t.updated == |Edited(kept)| && t.same == |kept| - |Edited(kept)|
    && t.restored == |RestoredIn(items, rows, done)|
    && t.retired == |DroppedIn(items, rows, done)|
  }

  lemma ProgressStarts(items: set<Item>, rows: set<Row>, ids: seq<Key>, sources: seq<Key>, slots: map<Key, Item>)
    requires slots.Keys == TransactionsOf(items) && InSlots(slots, items)
    ensures Progress(items, rows, {}, ids, sources, slots, {}, 0, Tally(0, 0, 0, 0))
  {
    assert PairsIn(items, rows, {}) == {} && RestoredIn(items, rows, {}) == {};
    assert DroppedIn(items, rows, {}) == {} && NewIn(items, rows, {}) == {};
    NothingEdited();
  }

  lemma TallyGrows(items: set<Item>, rows: set<Row>, done: set<Key>, order: Key, t: Tally, t': Tally)
    requires DistinctItems(items) && DistinctRows(rows) && order !in done && TallyRight(items, rows, done, t)
    requires
      var m := MatchIn(items, rows, order);
      && t'.updated == t.updated + |Edited(m.Kept())| && t'.same == t.same + |m.Kept()| - |Edited(m.Kept())|
      && t'.restored == t.restored + |m.restored| && t'.retired == t.retired + |m.items|
    ensures TallyRight(items, rows, done + {order}, t')
  {
    hide MatchIn, PairsIn, RestoredIn, DroppedIn, NewIn, Edited, DistinctItems, DistinctRows;
    var m := MatchIn(items, rows, order);
    OrdersGrow(items, rows, done, order);
    EditedUnion(PairsIn(items, rows, done), m.Kept());
  }

  lemma SlotsGrow(items: set<Item>, rows: set<Row>, done: set<Key>, order: Key, slots: map<Key, Item>,
    after: map<Key, Item>)
    requires DistinctItems(items) && DistinctRows(rows) && order !in done && SlotsSettled(items, rows, done, slots)
    requires after.Keys == slots.Keys
    requires
      var m := MatchIn(items, rows, order);
      && (forall p :: p in m.Pairs() ==> p.0.transaction in after && after[p.0.transaction] == FromRow(p.0, p.1))
      && (forall e :: e in m.items ==> e.transaction in after && after[e.transaction] == e.(retired := true))
      && (forall id :: id in slots && id !in TransactionsOf(ItemsOf(m.Pairs()) + m.items) ==> after[id] == slots[id])
    ensures SlotsSettled(items, rows, done + {order}, after)
  {
    hide MatchIn, TransactionsOf;
    var m := MatchIn(items, rows, order);
    MatchStaysInOrder(items, rows, order);
    forall e | e in items ensures e.transaction in after
        && after[e.transaction] == ItemAfter(items, rows, done + {order}, e)
    {
      if e in ItemsOf(m.Pairs()) {
        var p :| p in m.Pairs() && p.0 == e;
        SettlePaired(m, p);
      } else {
        SettleOther(m, e);
        if e !in m.items {
          UntouchedTransaction(items, ItemsOf(m.Pairs()) + m.items, e);
        }
      }
      hide Settle, OneToOne, DistinctItems, DistinctRows;
    }
  }

  lemma UntouchedTransaction(items: set<Item>, touched: set<Item>, e: Item)
    requires DistinctItems(items) && touched <= items && e in items && e !in touched
    ensures e.transaction !in TransactionsOf(touched)
  {
  }

  /** The first `count` listed rows as items that use the identifiers from `next` on. */
  function Allocated(left: seq<Row>, ids: seq<Key>, sources: seq<Key>, next: nat, count: nat): set<Item>
    requires count <= |left| && next + count <= |ids| && next + count <= |sources|
  {
    set j | 0 <= j < count :: Item(ids[next + j], sources[next + j], left[j].order, left[j].facts, false, NO_LOCAL)
  }

  // The positions of all new rows, once those of one more order are appended.
  lemma AppendRanks(earlier: set<Row>, left: seq<Row>, order: Key, next: nat)
    requires next == |earlier| && forall r :: r in earlier ==> Rank(r, earlier, InsertBefore) < next
    requires DistinctRows(earlier + Elements(left)) && Sorted(left, RowBefore) && |left| == |Elements(left)|
    requires forall r :: r in earlier ==> r.order < order
    requires forall r :: r in left ==> r.order == order
    ensures |earlier + Elements(left)| == next + |left|
    ensures forall r :: r in earlier + Elements(left) ==>
        Rank(r, earlier + Elements(left), InsertBefore) < next + |left|
  {
    InsertRanks(earlier, left, order);
    hide DistinctRows, Sorted, Rank, InsertBefore, RowBefore;
    assert earlier !! Elements(left);
    forall r | r in Elements(left) ensures Rank(r, earlier + Elements(left), InsertBefore) < next + |left| {
      var j :| 0 <= j < |left| && left[j] == r;
    }
  }

  lemma AppendItems(earlier: set<Row>, left: seq<Row>, ids: seq<Key>, sources: seq<Key>, next: nat)
    requires next == |earlier| && next + |left| <= |ids| && next + |left| <= |sources|
    requires |earlier + Elements(left)| == next + |left|
    requires forall r :: r in earlier ==> Rank(r, earlier, InsertBefore) < next
    requires forall r :: r in earlier + Elements(left) ==>
        Rank(r, earlier + Elements(left), InsertBefore) < next + |left|
    requires forall r :: r in earlier ==>
        Rank(r, earlier + Elements(left), InsertBefore) == Rank(r, earlier, InsertBefore)
    requires forall j :: 0 <= j < |left| ==> Rank(left[j], earlier + Elements(left), InsertBefore) == next + j
    ensures NewItems(earlier + Elements(left), ids, sources) ==
            NewItems(earlier, ids, sources) + Allocated(left, ids, sources, next, |left|)
  {
    hide Rank, InsertBefore;
    var all := earlier + Elements(left);
    assert NewItems(all, ids, sources) ==
           (set r | r in earlier :: NewItem(all, ids, sources, r)) + (set r | r in left ::
               NewItem(all, ids, sources, r));
    assert (set r | r in earlier :: NewItem(all, ids, sources, r)) == NewItems(earlier, ids, sources);
    LeftItems(all, left, ids, sources, next);
  }

  lemma LeftItems(all: set<Row>, left: seq<Row>, ids: seq<Key>, sources: seq<Key>, next: nat)
    requires next + |left| <= |ids| && next + |left| <= |sources|
    requires forall j :: 0 <= j < |left| ==> Rank(left[j], all, InsertBefore) == next + j
    requires forall r :: r in left ==> Rank(r, all, InsertBefore) < next + |left|
    ensures (set r | r in left :: NewItem(all, ids, sources, r)) == Allocated(left, ids, sources, next, |left|)
  {
    hide Rank, InsertBefore;
    forall j | 0 <= j < |left|
      ensures NewItem(all, ids, sources, left[j]) ==
        Item(ids[next + j], sources[next + j], left[j].order, left[j].facts, false, NO_LOCAL)
    {
    }
  }

  lemma AppendLeft(
    earlier: set<Row>, left: seq<Row>, order: Key, ids: seq<Key>, sources: seq<Key>, added: set<Item>, next: nat)
    requires Appended(earlier, ids, sources, added, next)
    requires next + |left| <= |ids| && next + |left| <= |sources|
    requires DistinctRows(earlier + Elements(left)) && Sorted(left, RowBefore) && |left| == |Elements(left)|
    requires forall r :: r in earlier ==> r.order < order
    requires forall r :: r in left ==> r.order == order
    ensures Appended(earlier + Elements(left), ids, sources, added + Allocated(left, ids, sources, next, |left|),
        next + |left|)
  {
    hide DistinctRows, Sorted, Rank, InsertBefore, RowBefore, NewItem, NewItems, Allocated, Elements;
    AppendRanks(earlier, left, order, next);
    InsertRanks(earlier, left, order);
    AppendItems(earlier, left, ids, sources, next);
  }

  /** Appends a new item for every leftover row, or reports that the proposed identifiers ran out. */
  method InsertRows(left: seq<Row>, ids: seq<Key>, sources: seq<Key>, added: set<Item>, next: nat)
    returns (after: Option<(set<Item>, nat)>)
    requires next <= |ids| && next <= |sources|
    ensures after.None? <==> next + |left| > |ids| || next + |left| > |sources|
    ensures after.Some? ==> after.value == (added + Allocated(left, ids, sources, next, |left|), next + |left|)
  {
    var items, position := added, next;
    for j := 0 to |left|
      invariant position == next + j <= |ids| && position <= |sources|
      invariant items == added + Allocated(left, ids, sources, next, j)
    {
      if position >= |ids| || position >= |sources| {
        return None;
      }
      var item := Item(ids[position], sources[position], left[j].order, left[j].facts, false, NO_LOCAL);
      assert Allocated(left, ids, sources, next, j + 1) == Allocated(left, ids, sources, next, j) + {item};
      items := items + {item};
      position := position + 1;
    }
    return Some((items, position));
  }

  predicate KeyBefore(a: Key, b: Key) {
    a < b
  }

  /** Reconciles one order. */
  method ReconcileOrder(
    items: set<Item>, rows: set<Row>, ghost done: set<Key>, order: Key, ids: seq<Key>, sources: seq<Key>,
    slots: map<Key, Item>, added: set<Item>, next: nat, tally: Tally)
    returns (r: Option<(map<Key, Item>, set<Item>, nat, Tally)>)
    requires DistinctItems(items) && DistinctRows(rows)
    requires forall o :: o in done ==> o < order
    requires Progress(items, rows, done, ids, sources, slots, added, next, tally)
    ensures r.Some? ==>
      Progress(items, rows, done + {order}, ids, sources, r.value.0, r.value.1, r.value.2, r.value.3)
    ensures r.None? ==>
      |NewIn(items, rows, done + {order})| > |ids| || |NewIn(items, rows, done + {order})| > |sources|
  {
    hide MatchIn, DistinctItems, DistinctRows, SlotsSettled, TallyRight, OneToOne, Edited, PairsIn, RestoredIn,
         DroppedIn, NewIn, TransactionsOf;
    ghost var m := MatchIn(items, rows, order);
    MatchStaysInOrder(items, rows, order);
    MatchInFacts(items, rows, order);
    OrderSlots(items, rows, done, order, slots);
    var kept, restored, dropped, left := PairOrder(InOrder(items, order), RowsInOrder(rows, order));
    var after, t := ApplyPairs(slots, kept, false, tally);
    OtherSlots(items, kept, restored, slots, after);
    var afterRestored, t2 := ApplyPairs(after, restored, true, t);
    DroppedSlots(items, kept, restored, dropped, slots, after, afterRestored);
    var settled, t3 := RetireLeft(afterRestored, dropped, t2);
    TallyGrows(items, rows, done, order, tally, t3);
    CombineSlots(items, m, slots, after, afterRestored, settled);
    SlotsGrow(items, rows, done, order, slots, settled);
    OrdersGrow(items, rows, done, order);
    var appended := InsertRows(left, ids, sources, added, next);
    assert |NewIn(items, rows, done + {order})| == next + |left|;
    if appended.None? {
      return None;
    }
    NewRowsDistinct(items, rows, done, order);
    AppendLeft(NewIn(items, rows, done), left, order, ids, sources, added, next);
    r := Some((settled, appended.value.0, appended.value.1, t3));
  }

  lemma NewRowsDistinct(items: set<Item>, rows: set<Row>, done: set<Key>, order: Key)
    requires DistinctItems(items) && DistinctRows(rows) && forall o :: o in done ==> o < order
    ensures DistinctRows(NewIn(items, rows, done) + MatchIn(items, rows, order).rows)
    ensures forall r :: r in NewIn(items, rows, done) ==> r.order < order
    ensures forall r :: r in MatchIn(items, rows, order).rows ==> r.order == order
  {
    MatchStaysInOrder(items, rows, order);
    hide MatchIn;
  }

  lemma MatchInFacts(items: set<Item>, rows: set<Row>, order: Key)
    requires DistinctItems(items) && DistinctRows(rows)
    ensures DistinctItems(InOrder(items, order)) && DistinctRows(RowsInOrder(rows, order))
    ensures MatchIn(items, rows, order) == Match(InOrder(items, order), RowsInOrder(rows, order))
    ensures
      var m := MatchIn(items, rows, order);
      && DistinctItems(ItemsOf(m.Kept())) && DistinctItems(ItemsOf(m.restored)) && DistinctItems(m.items)
      && ItemsOf(m.Kept()) <= items && ItemsOf(m.restored) <= items && m.items <= items
  {
    MatchStaysInOrder(items, rows, order);
    hide MatchIn;
  }

  // The slots of an order not reached yet still hold the stored items.
  lemma OrderSlots(items: set<Item>, rows: set<Row>, done: set<Key>, order: Key, slots: map<Key, Item>)
    requires DistinctItems(items) && DistinctRows(rows) && order !in done && SlotsSettled(items, rows, done, slots)
    ensures InSlots(slots, InOrder(items, order))
    ensures
      var m := MatchIn(items, rows, order);
      InSlots(slots, ItemsOf(m.Kept())) && InSlots(slots, ItemsOf(m.restored)) && InSlots(slots, m.items)
  {
    MatchStaysInOrder(items, rows, order);
    hide MatchIn;
  }

  lemma OtherSlots(items: set<Item>, kept: set<Pair>, restored: set<Pair>, slots: map<Key, Item>, after: map<Key, Item>)
    requires DistinctItems(items) && ItemsOf(kept) <= items && ItemsOf(restored) <= items
        && ItemsOf(kept) !! ItemsOf(restored)
    requires InSlots(slots, ItemsOf(restored)) && after.Keys == slots.Keys
    requires forall id :: id in slots && id !in TransactionsOf(ItemsOf(kept)) ==> after[id] == slots[id]
    ensures InSlots(after, ItemsOf(restored))
  {
    forall e | e in ItemsOf(restored) ensures after[e.transaction] == e {
      UntouchedTransaction(items, ItemsOf(kept), e);
    }
  }

  lemma DroppedSlots(
    items: set<Item>, kept: set<Pair>, restored: set<Pair>, dropped: set<Item>,
    slots: map<Key, Item>, after: map<Key, Item>, afterRestored: map<Key, Item>)
    requires DistinctItems(items) && ItemsOf(kept) <= items && ItemsOf(restored) <= items && dropped <= items
    requires ItemsOf(kept) !! dropped && ItemsOf(restored) !! dropped
    requires InSlots(slots, dropped) && after.Keys == slots.Keys == afterRestored.Keys
    requires forall id :: id in slots && id !in TransactionsOf(ItemsOf(kept)) ==> after[id] == slots[id]
    requires forall id :: id in after && id !in TransactionsOf(ItemsOf(restored)) ==> afterRestored[id] == after[id]
    ensures InSlots(afterRestored, dropped)
  {
    forall e | e in dropped ensures afterRestored[e.transaction] == e {
      UntouchedTransaction(items, ItemsOf(kept), e);
      UntouchedTransaction(items, ItemsOf(restored), e);
    }
  }

  lemma CombineSlots(
    items: set<Item>, m: Matching,
    slots: map<Key, Item>, after: map<Key, Item>, afterRestored: map<Key, Item>, settled: map<Key, Item>)
    requires DistinctItems(items) && ItemsOf(m.Kept()) <= items && ItemsOf(m.restored) <= items && m.items <= items
    requires ItemsOf(m.Kept()) !! m.items && ItemsOf(m.restored) !! m.items && ItemsOf(m.Kept()) !! ItemsOf(m.restored)
    requires m.Pairs() == m.Kept() + m.restored
    requires after.Keys == slots.Keys == afterRestored.Keys == settled.Keys
    requires forall p :: p in m.Kept() ==> p.0.transaction in after && after[p.0.transaction] == FromRow(p.0, p.1)
    requires forall p :: p in m.restored ==>
        p.0.transaction in afterRestored && afterRestored[p.0.transaction] == FromRow(p.0, p.1)
    requires forall e :: e in m.items ==> e.transaction in settled && settled[e.transaction] == e.(retired := true)
    requires forall id :: id in slots && id !in TransactionsOf(ItemsOf(m.Kept())) ==> after[id] == slots[id]
    requires forall id :: id in after && id !in TransactionsOf(ItemsOf(m.restored)) ==> afterRestored[id] == after[id]
    requires forall id :: id in afterRestored && id !in TransactionsOf(m.items) ==> settled[id] == afterRestored[id]
    ensures forall p :: p in m.Pairs() ==> p.0.transaction in settled && settled[p.0.transaction] == FromRow(p.0, p.1)
    ensures forall id :: id in slots && id !in TransactionsOf(ItemsOf(m.Pairs()) + m.items) ==> settled[id] == slots[id]
  {
    assert forall p :: p in m.Kept() ==> p.0 in ItemsOf(m.Kept());
    assert forall p :: p in m.restored ==> p.0 in ItemsOf(m.restored);
    forall p | p in m.Pairs() ensures p.0.transaction in settled && settled[p.0.transaction] == FromRow(p.0, p.1) {
      UntouchedTransaction(items, m.items, p.0);
      if p in m.Kept() {
        UntouchedTransaction(items, ItemsOf(m.restored), p.0);
      }
    }
    assert ItemsOf(m.Pairs()) == ItemsOf(m.Kept()) + ItemsOf(m.restored);
    assert TransactionsOf(ItemsOf(m.Pairs()) + m.items) ==
           TransactionsOf(ItemsOf(m.Kept())) + TransactionsOf(ItemsOf(m.restored)) + TransactionsOf(m.items);
  }

  ghost function Positions(orders: seq<Key>, count: nat): set<Key>
    requires count <= |orders|
  {
    Elements(orders[..count])
  }

  lemma NextPosition(orders: seq<Key>, i: nat)
    requires Sorted(orders, KeyBefore) && i < |orders|
    ensures Positions(orders, i + 1) == Positions(orders, i) + {orders[i]}
    ensures forall o :: o in Positions(orders, i) ==> o < orders[i]
    ensures Positions(orders, i + 1) <= Elements(orders)
  {
    assert orders[..i + 1] == orders[..i] + [orders[i]];
    forall o | o in Positions(orders, i) ensures o < orders[i] {
      var k :| 0 <= k < i && orders[k] == o;
      assert KeyBefore(orders[k], orders[i]);
    }
  }

  lemma NewInGrows(items: set<Item>, rows: set<Row>, some: set<Key>, orders: set<Key>)
    requires some <= orders
    ensures |NewIn(items, rows, some)| <= |NewIn(items, rows, orders)|
  {
    SubsetSize(NewIn(items, rows, some), NewIn(items, rows, orders));
  }

  /** The stored items by transaction. */
  method Slots(existing: seq<Item>) returns (slots: map<Key, Item>)
    requires DistinctItems(Elements(existing))
    ensures slots.Keys == TransactionsOf(Elements(existing)) && InSlots(slots, Elements(existing))
  {
    slots := map[];
    for i := 0 to |existing|
      invariant forall id :: id in slots <==> exists k :: 0 <= k < i && existing[k].transaction == id
      invariant forall k :: 0 <= k < i ==>
          existing[k].transaction in slots && slots[existing[k].transaction] == existing[k]
    {
      forall k | 0 <= k < i && existing[k].transaction == existing[i].transaction ensures existing[k] == existing[i] {
        assert existing[k] in Elements(existing) && existing[i] in Elements(existing);
      }
      slots := slots[existing[i].transaction := existing[i]];
    }
    forall id ensures id in slots <==> id in TransactionsOf(Elements(existing)) {
      if id in slots {
        var k :| 0 <= k < |existing| && existing[k].transaction == id;
        assert existing[k] in Elements(existing);
      }
    }
  }

  lemma SlotValues(items: set<Item>, rows: set<Row>, orders: set<Key>, slots: map<Key, Item>)
    requires SlotsSettled(items, rows, orders, slots)
    ensures slots.Values == set e | e in items :: ItemAfter(items, rows, orders, e)
  {
    hide ItemAfter;
    forall v | v in slots.Values ensures exists e :: e in items && v == ItemAfter(items, rows, orders, e) {
      var id :| id in slots && slots[id] == v;
      var e :| e in items && e.transaction == id;
    }
    forall e | e in items ensures ItemAfter(items, rows, orders, e) in slots.Values {
      assert slots[e.transaction] in slots.Values;
    }
  }

  lemma ItemAfterFacts(items: set<Item>, rows: set<Row>, orders: set<Key>, e: Item)
    requires DistinctItems(items) && DistinctRows(rows) && e in items
    ensures
      var a := ItemAfter(items, rows, orders, e);
      && a.order == e.order && a.transaction == e.transaction && a.source == e.source && a.local == e.local
      && (e.order !in orders ==> a == e)
  {
    if e.order in orders {
      var m := MatchIn(items, rows, e.order);
      MatchStaysInOrder(items, rows, e.order);
      if e in ItemsOf(m.Pairs()) {
        var p :| p in m.Pairs() && p.0 == e;
        SettlePaired(m, p);
      } else {
        SettleOther(m, e);
      }
    }
  }

  lemma StillUnobserved(items: set<Item>, rows: set<Row>, orders: set<Key>, after: set<Item>, added: set<Item>)
    requires DistinctItems(items) && DistinctRows(rows)
    requires after == set e | e in items :: ItemAfter(items, rows, orders, e)
    requires forall e :: e in added ==> e.order in orders
    ensures Unobserved(after + added, orders) == Unobserved(items, orders)
  {
    forall e | e in items
      ensures ItemAfter(items, rows, orders, e).order == e.order
      ensures e.order !in orders ==> ItemAfter(items, rows, orders, e) == e
    {
      ItemAfterFacts(items, rows, orders, e);
    }
    hide ItemAfter, DistinctItems, DistinctRows;
  }

  lemma AddedOrders(items: set<Item>, rows: set<Row>, orders: set<Key>, ids: seq<Key>, sources: seq<Key>,
    added: set<Item>, next: nat)
    requires Appended(NewIn(items, rows, orders), ids, sources, added, next)
    ensures forall e :: e in added ==> e.order in orders
  {
    hide MatchIn, Rank;
  }

  /** Reconciles the stored items with the rows of an export, order by order.

  Reports None exactly when more identifiers are needed than were proposed. */
  method ReconcileRows(existing: seq<Item>, incoming: seq<Row>, observed: seq<Key>, ids: seq<Key>, sources: seq<Key>)
    returns (r: Option<Summary>)
    requires DistinctItems(Elements(existing)) && DistinctRows(Elements(incoming))
    ensures r.None? <==>
      var added := NewIn(Elements(existing), Elements(incoming), Elements(observed));
      |added| > |ids| || |added| > |sources|
    ensures r.Some? ==> Reconciled(Elements(existing), Elements(incoming), Elements(observed), ids, sources, r.value)
  {
    hide MatchIn, DistinctItems, DistinctRows, PairsIn, RestoredIn, DroppedIn, NewIn, ItemAfter, NewItems, Rank, Edited;
    var orders := Sort(Elements(observed), KeyBefore);
    var slots := Slots(existing);
    ghost var items, rows := Elements(existing), Elements(incoming);
    var added: set<Item>, next, tally := {}, 0, Tally(0, 0, 0, 0);
    ProgressStarts(items, rows, ids, sources, slots);
    assert Positions(orders, 0) == {};
    hide Progress;
    for i := 0 to |orders|
      invariant Progress(items, rows, Positions(orders, i), ids, sources, slots, added, next, tally)
    {
      NextPosition(orders, i);
      NewInGrows(items, rows, Positions(orders, i + 1), Elements(orders));
      var step := ReconcileOrder(
        Elements(existing), Elements(incoming), Positions(orders, i), orders[i], ids, sources, slots, added, next,
            tally);
      if step.None? {
        return None;
      }
      slots, added, next, tally := step.value.0, step.value.1, step.value.2, step.value.3;
    }
    assert Positions(orders, |orders|) == Elements(observed) by {
      assert orders[..|orders|] == orders;
    }
    var all := slots.Values + added;
    var idle := set e | e in all && !e.retired && e.order !in observed;
    var result := Summary(all, next, tally.updated, tally.restored, tally.retired, tally.same + |idle|);
    RunFinished(items, rows, Elements(observed), ids, sources, slots, added, next, tally, idle, result);
    return Some(result);
  }

  lemma RunFinished(
    items: set<Item>, rows: set<Row>, orders: set<Key>, ids: seq<Key>, sources: seq<Key>,
    slots: map<Key, Item>, added: set<Item>, next: nat, tally: Tally, idle: set<Item>, s: Summary)
    requires DistinctItems(items) && DistinctRows(rows)
    requires Progress(items, rows, orders, ids, sources, slots, added, next, tally)
    requires idle == Unobserved(slots.Values + added, orders)
    requires s == Summary(slots.Values + added, next, tally.updated, tally.restored, tally.retired, tally.same + |idle|)
    ensures Reconciled(items, rows, orders, ids, sources, s)
  {
    hide MatchIn, DistinctItems, DistinctRows, PairsIn, RestoredIn, DroppedIn, NewIn, ItemAfter, NewItems, Rank, Edited,
         Unobserved;
    SlotValues(items, rows, orders, slots);
    AddedOrders(items, rows, orders, ids, sources, added, next);
    StillUnobserved(items, rows, orders, slots.Values, added);
  }
}
