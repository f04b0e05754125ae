/** Whole runs of the Amazon reconciliation: what one run conserves, and what repeating it does. */
module AmazonRuns {
  import opened Ranking
  import opened AmazonReconcile

  /** Proposed identifiers are distinct and new. */
  ghost predicate Proposed(items: set<Item>, ids: seq<Key>) {
    && (forall i, j :: 0 <= i < j < |ids| ==> ids[i] != ids[j])
    && (forall i :: 0 <= i < |ids| ==> ids[i] !in TransactionsOf(items))
  }

  function Observed(items: set<Item>, orders: set<Key>): set<Item> {
    set e | e in items && !e.retired && e.order in orders
  }

  function RowsOfOrders(rows: set<Row>, orders: set<Key>): set<Row> {
    set r | r in rows && r.order in orders
  }

  // Sizes -------------------------------------------------------------------------------------------

  ghost function Image<A, B>(s: set<A>, f: A -> B): set<B> {
    set x | x in s :: f(x)
  }

  lemma {:induction false} ImageSize<A, B>(s: set<A>, f: A -> B)
    requires forall x, y :: x in s && y in s && f(x) == f(y) ==> x == y
    ensures |Image(s, f)| == |s|
    decreases |s|
  {
    if s == {} {
      assert Image(s, f) == {};
    } else {
      var x :| x in s;
      var rest := s - {x};
      ImageSize(rest, f);
      assert Image(s, f) == Image(rest, f) + {f(x)};
    }
  }

  lemma PairSizes(pairs: set<Pair>)
    requires OneToOne(pairs)
    ensures |ItemsOf(pairs)| == |pairs| == |RowsOf(pairs)|
  {
    ImageSize(pairs, (p: Pair) => p.0);
    ImageSize(pairs, (p: Pair) => p.1);
    assert Image(pairs, (p: Pair) => p.0) == ItemsOf(pairs);
    assert Image(pairs, (p: Pair) => p.1) == RowsOf(pairs);
  }

  // The matches of all observed orders together -----------------------------------------------------

  ghost function Matched(items: set<Item>, rows: set<Row>, orders: set<Key>): set<Pair> {
    PairsIn(items, rows, orders) + RestoredIn(items, rows, orders)
  }

  lemma MatchedIn(items: set<Item>, rows: set<Row>, orders: set<Key>, p: Pair)
    requires DistinctItems(items) && DistinctRows(rows)
    ensures p in PairsIn(items, rows, orders) <==> p.0.order in orders && p in MatchIn(items, rows, p.0.order).Kept()
    ensures p in RestoredIn(items, rows, orders) <==>
        p.0.order in orders && p in MatchIn(items, rows, p.0.order).restored
    ensures p in Matched(items, rows, orders) <==> p.0.order in orders && p in MatchIn(items, rows, p.0.order).Pairs()
    ensures p in Matched(items, rows, orders) ==> p.0 in items && p.1 in rows && p.1.order == p.0.order
  {
    MatchStaysInOrder(items, rows, p.0.order);
    hide MatchIn, DistinctItems, DistinctRows;
  }

  lemma MatchedOneToOne(items: set<Item>, rows: set<Row>, orders: set<Key>)
    requires DistinctItems(items) && DistinctRows(rows)
    ensures OneToOne(Matched(items, rows, orders))
    ensures PairsIn(items, rows, orders) !! RestoredIn(items, rows, orders)
  {
    var all := Matched(items, rows, orders);
    forall p, q | p in all && q in all && (p.0 == q.0 || p.1 == q.1) ensures p == q {
      MatchedIn(items, rows, orders, p);
      MatchedIn(items, rows, orders, q);
      MatchStaysInOrder(items, rows, p.0.order);
      hide MatchIn;
    }
    forall p | p in PairsIn(items, rows, orders) && p in RestoredIn(items, rows, orders) ensures false {
      MatchStaysInOrder(items, rows, p.0.order);
      hide MatchIn;
    }
  }

  lemma SubsetOneToOne(a: set<Pair>, b: set<Pair>)
    requires a <= b && OneToOne(b)
    ensures OneToOne(a)
  {
  }

  // One order's partition, item by item and row by row.
  lemma ItemFate(items: set<Item>, rows: set<Row>, orders: set<Key>, e: Item)
    requires DistinctItems(items) && DistinctRows(rows) && e in items
    ensures e in ItemsOf(PairsIn(items, rows, orders)) <==>
            e.order in orders && e in ItemsOf(MatchIn(items, rows, e.order).Kept())
    ensures e in ItemsOf(RestoredIn(items, rows, orders)) <==>
            e.order in orders && e in ItemsOf(MatchIn(items, rows, e.order).restored)
    ensures e in DroppedIn(items, rows, orders) <==> e.order in orders && e in MatchIn(items, rows, e.order).items
  {
    var m := MatchIn(items, rows, e.order);
    hide MatchIn, DistinctItems, DistinctRows;
    if e in ItemsOf(PairsIn(items, rows, orders)) {
      var p :| p in PairsIn(items, rows, orders) && p.0 == e;
      MatchedIn(items, rows, orders, p);
    }
    if e.order in orders && e in ItemsOf(m.Kept()) {
      var p :| p in m.Kept() && p.0 == e;
      MatchedIn(items, rows, orders, p);
    }
    if e in ItemsOf(RestoredIn(items, rows, orders)) {
      var p :| p in RestoredIn(items, rows, orders) && p.0 == e;
      MatchedIn(items, rows, orders, p);
    }
    if e.order in orders && e in ItemsOf(m.restored) {
      var p :| p in m.restored && p.0 == e;
      MatchedIn(items, rows, orders, p);
    }
  }

  lemma OrderPartition(items: set<Item>, rows: set<Row>, order: Key)
    requires DistinctItems(items) && DistinctRows(rows)
    ensures
      var m := MatchIn(items, rows, order);
      && Active(InOrder(items, order)) == ItemsOf(m.Kept()) + m.items && ItemsOf(m.Kept()) !! m.items
      && ItemsOf(m.restored) <= Retired(InOrder(items, order))
      && RowsInOrder(rows, order) == RowsOf(m.Pairs()) + m.rows && RowsOf(m.Pairs()) !! m.rows
  {
    MatchStaysInOrder(items, rows, order);
    MatchPartitions(InOrder(items, order), RowsInOrder(rows, order));
    var m := MatchIn(items, rows, order);
    hide Match, Active, Retired, InOrder, RowsInOrder, DistinctItems, DistinctRows;
    assert RowsOf(m.Pairs()) == RowsOf(m.Kept()) + RowsOf(m.restored);
  }

  /** The active items of observed orders are those kept and those retired. */
  lemma ActivePartition(items: set<Item>, rows: set<Row>, orders: set<Key>)
    requires DistinctItems(items) && DistinctRows(rows)
    ensures Observed(items, orders) == ItemsOf(PairsIn(items, rows, orders)) + DroppedIn(items, rows, orders)
    ensures ItemsOf(PairsIn(items, rows, orders)) !! DroppedIn(items, rows, orders)
    ensures forall e :: e in ItemsOf(RestoredIn(items, rows, orders)) ==> e in items && e.retired && e.order in orders
  {
    forall e | e in items
      ensures e in Observed(items, orders) <==>
          e in ItemsOf(PairsIn(items, rows, orders)) || e in DroppedIn(items, rows, orders)
      ensures !(e in ItemsOf(PairsIn(items, rows, orders)) && e in DroppedIn(items, rows, orders))
      ensures e in ItemsOf(RestoredIn(items, rows, orders)) ==> e.retired && e.order in orders
    {
      ItemFate(items, rows, orders, e);
      OrderPartition(items, rows, e.order);
      hide MatchIn, PairsIn, RestoredIn, DroppedIn, ItemsOf, RowsOf, DistinctItems, DistinctRows;
    }
    hide MatchIn, DistinctItems, DistinctRows;
  }

  /** Every row of an observed order is matched or new. */
  lemma RowPartition(items: set<Item>, rows: set<Row>, orders: set<Key>)
    requires DistinctItems(items) && DistinctRows(rows)
    ensures RowsOfOrders(rows, orders) == RowsOf(Matched(items, rows, orders)) + NewIn(items, rows, orders)
    ensures RowsOf(Matched(items, rows, orders)) !! NewIn(items, rows, orders)
  {
    forall r | r in rows
      ensures r in RowsOf(Matched(items, rows, orders)) <==>
        r.order in orders && r in RowsOf(MatchIn(items, rows, r.order).Pairs())
      ensures r.order in orders <==> r in RowsOf(Matched(items, rows, orders)) || r in NewIn(items, rows, orders)
      ensures !(r in RowsOf(Matched(items, rows, orders)) && r in NewIn(items, rows, orders))
    {
      RowFate(items, rows, orders, r);
      OrderPartition(items, rows, r.order);
      hide MatchIn, Matched, PairsIn, RestoredIn, DroppedIn, ItemsOf, RowsOf, DistinctItems, DistinctRows;
    }
    hide MatchIn, DistinctItems, DistinctRows;
  }

  lemma RowFate(items: set<Item>, rows: set<Row>, orders: set<Key>, r: Row)
    requires DistinctItems(items) && DistinctRows(rows) && r in rows
    ensures r in RowsOf(Matched(items, rows, orders)) <==>
            r.order in orders && r in RowsOf(MatchIn(items, rows, r.order).Pairs())
  {
    var m := MatchIn(items, rows, r.order);
    MatchStaysInOrder(items, rows, r.order);
    hide MatchIn, Matched, DistinctItems, DistinctRows;
    if r in RowsOf(Matched(items, rows, orders)) {
      var p :| p in Matched(items, rows, orders) && p.1 == r;
      MatchedIn(items, rows, orders, p);
    }
    if r.order in orders && r in RowsOf(m.Pairs()) {
      var p :| p in m.Pairs() && p.1 == r;
      MatchedIn(items, rows, orders, p);
    }
  }

  // What each stored item becomes, read off the matches.
  lemma AfterFate(items: set<Item>, rows: set<Row>, orders: set<Key>, e: Item)
    requires DistinctItems(items) && DistinctRows(rows) && e in items
    ensures forall p :: p in Matched(items, rows, orders) && p.0 == e ==>
        ItemAfter(items, rows, orders, e) == FromRow(e, p.1)
    ensures e in DroppedIn(items, rows, orders) ==> ItemAfter(items, rows, orders, e) == e.(retired := true)
    ensures e !in ItemsOf(Matched(items, rows, orders)) && e !in DroppedIn(items, rows, orders) ==>
              ItemAfter(items, rows, orders, e) == e
  {
    var m := MatchIn(items, rows, e.order);
    MatchStaysInOrder(items, rows, e.order);
    ItemFate(items, rows, orders, e);
    UnionItems(PairsIn(items, rows, orders), RestoredIn(items, rows, orders));
    UnionItems(m.Kept(), m.restored);
    forall p | p in Matched(items, rows, orders) && p.0 == e
        ensures ItemAfter(items, rows, orders, e) == FromRow(e, p.1)
    {
      MatchedIn(items, rows, orders, p);
      SettlePaired(m, p);
    }
    if e !in ItemsOf(m.Pairs()) {
      SettleOther(m, e);
    }
    hide MatchIn, DistinctItems, DistinctRows, OneToOne, Settle, FromRow, PairsIn, RestoredIn, DroppedIn;
  }

  lemma UnionItems(a: set<Pair>, b: set<Pair>)
    ensures ItemsOf(a + b) == ItemsOf(a) + ItemsOf(b)
  {
  }

  lemma InItems(pairs: set<Pair>, p: Pair)
    requires p in pairs
    ensures p.0 in ItemsOf(pairs) && p.1 in RowsOf(pairs)
  {
  }

  /** Each matched or new row with the item that holds it after the run. */
  ghost function Holders(items: set<Item>, rows: set<Row>, orders: set<Key>, ids: seq<Key>,
    sources: seq<Key>): set<Pair>
    requires |NewIn(items, rows, orders)| <= |ids| && |NewIn(items, rows, orders)| <= |sources|
    requires Ranked(NewIn(items, rows, orders))
  {
    Restated(Matched(items, rows, orders)) + Inserted(NewIn(items, rows, orders), ids, sources)
  }

  ghost predicate Ranked(added: set<Row>) {
    forall r :: r in added ==> Rank(r, added, InsertBefore) < |added|
  }

  ghost function Restated(pairs: set<Pair>): set<Pair> {
    set p | p in pairs :: (FromRow(p.0, p.1), p.1)
  }

  ghost function Inserted(added: set<Row>, ids: seq<Key>, sources: seq<Key>): set<Pair>
    requires |added| <= |ids| && |added| <= |sources| && Ranked(added)
  {
    set r | r in added :: (NewItem(added, ids, sources, r), r)
  }

  /** The active items of the observed orders and the observed rows correspond one to one, and each
  such item holds exactly what its row says. */
  ghost predicate Mirror(items: set<Item>, rows: set<Row>, orders: set<Key>, holders: set<Pair>) {
    && OneToOne(holders)
    && ItemsOf(holders) == Observed(items, orders) && RowsOf(holders) == RowsOfOrders(rows, orders)
    && forall p :: p in holders ==> p.0.order == p.1.order && p.0.facts == p.1.facts
  }

  lemma RestatedOneToOne(items: set<Item>, pairs: set<Pair>)
    requires DistinctItems(items) && ItemsOf(pairs) <= items && OneToOne(pairs)
    ensures OneToOne(Restated(pairs)) && RowsOf(Restated(pairs)) == RowsOf(pairs)
    ensures TransactionsOf(ItemsOf(Restated(pairs))) <= TransactionsOf(items)
  {
    assert forall p :: p in pairs ==> p.0 in ItemsOf(pairs);
    forall q | q in Restated(pairs) ensures q.1 in RowsOf(pairs) {
      var p :| p in pairs && q == (FromRow(p.0, p.1), p.1);
    }
    forall p | p in pairs ensures p.1 in RowsOf(Restated(pairs)) {
      assert (FromRow(p.0, p.1), p.1) in Restated(pairs);
    }
  }

  lemma InsertedOneToOne(items: set<Item>, added: set<Row>, ids: seq<Key>, sources: seq<Key>)
    requires DistinctRows(added) && Proposed(items, ids)
    requires |added| <= |ids| && |added| <= |sources| && Ranked(added)
    ensures OneToOne(Inserted(added, ids, sources)) && RowsOf(Inserted(added, ids, sources)) == added
    ensures TransactionsOf(ItemsOf(Inserted(added, ids, sources))) !! TransactionsOf(items)
    ensures ItemsOf(Inserted(added, ids, sources)) == NewItems(added, ids, sources)
  {
    InsertTotal(added);
    var pairs := Inserted(added, ids, sources);
    forall p | p in pairs ensures p.1 in added && p.0 == NewItem(added, ids, sources, p.1) {
    }
    forall p, q | p in pairs && q in pairs && p.0 == q.0 ensures p == q {
      RankInjective(p.1, q.1, added, InsertBefore);
    }
    hide Rank, InsertBefore, DistinctRows;
    forall r | r in added ensures r in RowsOf(pairs) && NewItem(added, ids, sources, r) in ItemsOf(pairs) {
      InItems(pairs, (NewItem(added, ids, sources, r), r));
    }
  }

  lemma DisjointTransactions(a: set<Item>, b: set<Item>)
    requires TransactionsOf(a) !! TransactionsOf(b)
    ensures a !! b
  {
    assert forall e :: e in a ==> e.transaction in TransactionsOf(a);
    assert forall e :: e in b ==> e.transaction in TransactionsOf(b);
  }

  lemma HoldersOneToOne(items: set<Item>, rows: set<Row>, orders: set<Key>, ids: seq<Key>, sources: seq<Key>)
    requires DistinctItems(items) && DistinctRows(rows) && Proposed(items, ids)
    requires |NewIn(items, rows, orders)| <= |ids| && |NewIn(items, rows, orders)| <= |sources|
    requires Ranked(NewIn(items, rows, orders))
    ensures OneToOne(Holders(items, rows, orders, ids, sources))
    ensures RowsOf(Holders(items, rows, orders, ids, sources)) == RowsOfOrders(rows, orders)
    ensures |Holders(items, rows, orders, ids, sources)| ==
            |PairsIn(items, rows, orders)| + |RestoredIn(items, rows, orders)| + |NewIn(items, rows, orders)|
  {
    var matched, added := Matched(items, rows, orders), NewIn(items, rows, orders);
    var known, extra := Restated(matched), Inserted(added, ids, sources);
    MatchedOneToOne(items, rows, orders);
    RowPartition(items, rows, orders);
    MatchedWithin(items, rows, orders);
    assert DistinctRows(added) by { hide MatchIn; }
    hide DistinctItems, DistinctRows, Matched, NewIn, Restated, Inserted, Ranked, OneToOne, ItemsOf, RowsOf,
         TransactionsOf, Proposed, NewItems, RowsOfOrders;
    RestatedOneToOne(items, matched);
    InsertedOneToOne(items, added, ids, sources);
    DisjointTransactions(ItemsOf(known), ItemsOf(extra));
    UnionOneToOne(known, extra);
    PairSizes(matched);
    PairSizes(known);
    PairSizes(extra);
    MatchedSize(items, rows, orders);
  }

  lemma MatchedSize(items: set<Item>, rows: set<Row>, orders: set<Key>)
    requires DistinctItems(items) && DistinctRows(rows)
    ensures |Matched(items, rows, orders)| == |PairsIn(items, rows, orders)| + |RestoredIn(items, rows, orders)|
  {
    MatchedOneToOne(items, rows, orders);
    hide PairsIn, RestoredIn, DistinctItems, DistinctRows, OneToOne;
  }

  lemma MatchedWithin(items: set<Item>, rows: set<Row>, orders: set<Key>)
    requires DistinctItems(items) && DistinctRows(rows)
    ensures ItemsOf(Matched(items, rows, orders)) <= items
  {
    forall p | p in Matched(items, rows, orders) ensures p.0 in items {
      MatchedIn(items, rows, orders, p);
    }
  }

  // An item is active in an observed order after the run exactly when it holds a row.
  lemma HoldersAreActive(items: set<Item>, rows: set<Row>, orders: set<Key>, ids: seq<Key>, sources: seq<Key>,
    s: Summary)
    requires DistinctItems(items) && DistinctRows(rows) && Proposed(items, ids)
    requires Reconciled(items, rows, orders, ids, sources, s)
    ensures Ranked(NewIn(items, rows, orders))
    ensures ItemsOf(Holders(items, rows, orders, ids, sources)) == Observed(s.items, orders)
  {
    var matched, added := Matched(items, rows, orders), NewIn(items, rows, orders);
    assert Ranked(added) by { hide MatchIn, Rank; }
    assert DistinctRows(added) by { hide MatchIn; }
    AddedOrders(items, rows, orders, ids, sources, NewItems(added, ids, sources), |added|);
    InsertedOneToOne(items, added, ids, sources);
    UnionItems(Restated(matched), Inserted(added, ids, sources));
    RestatedAreActive(items, rows, orders);
    hide Reconciled, DistinctItems, DistinctRows, Matched, NewIn, Restated, Inserted, Ranked, OneToOne, TransactionsOf,
         Proposed, ItemsOf;
    ReconciledItems(items, rows, orders, ids, sources, s);
    NewAreActive(added, ids, sources);
    hide NewItems;
    assert Observed(s.items, orders) ==
           Observed(AfterItems(items, rows, orders), orders) + NewItems(added, ids, sources) by { hide AfterItems; }
  }

  ghost function AfterItems(items: set<Item>, rows: set<Row>, orders: set<Key>): set<Item> {
    set e | e in items :: ItemAfter(items, rows, orders, e)
  }

  lemma ReconciledItems(items: set<Item>, rows: set<Row>, orders: set<Key>, ids: seq<Key>, sources: seq<Key>,
    s: Summary)
    requires Reconciled(items, rows, orders, ids, sources, s)
    ensures |NewIn(items, rows, orders)| <= |ids| && |NewIn(items, rows, orders)| <= |sources|
        && Ranked(NewIn(items, rows, orders))
    ensures s.items == AfterItems(items, rows, orders) + NewItems(NewIn(items, rows, orders), ids, sources)
  {
  }

  lemma NewAreActive(added: set<Row>, ids: seq<Key>, sources: seq<Key>)
    requires |added| <= |ids| && |added| <= |sources| && Ranked(added)
    ensures forall e :: e in NewItems(added, ids, sources) ==> !e.retired
  {
    hide Rank;
  }

  lemma RestatedAreActive(items: set<Item>, rows: set<Row>, orders: set<Key>)
    requires DistinctItems(items) && DistinctRows(rows)
    ensures ItemsOf(Restated(Matched(items, rows, orders))) == Observed(AfterItems(items, rows, orders), orders)
  {
    var matched := Matched(items, rows, orders);
    forall x | x in ItemsOf(Restated(matched)) ensures x in Observed(AfterItems(items, rows, orders), orders) {
      var q :| q in Restated(matched) && q.0 == x;
      var p :| p in matched && q == (FromRow(p.0, p.1), p.1);
      MatchedIn(items, rows, orders, p);
      AfterFate(items, rows, orders, p.0);
      assert x == ItemAfter(items, rows, orders, p.0);
    }
    ActivePartition(items, rows, orders);
    UnionItems(PairsIn(items, rows, orders), RestoredIn(items, rows, orders));
    forall x | x in Observed(AfterItems(items, rows, orders), orders) ensures x in ItemsOf(Restated(matched)) {
      var e :| e in items && x == ItemAfter(items, rows, orders, e);
      hide ItemAfter, Restated, MatchIn, PairsIn, RestoredIn, DroppedIn, DistinctItems, DistinctRows;
      AfterFate(items, rows, orders, e);
      ItemAfterFacts(items, rows, orders, e);
      var p :| p in matched && p.0 == e;
      RestatedHas(matched, p);
    }
  }

  lemma RestatedHas(pairs: set<Pair>, p: Pair)
    requires p in pairs
    ensures FromRow(p.0, p.1) in ItemsOf(Restated(pairs))
  {
    assert (FromRow(p.0, p.1), p.1) in Restated(pairs);
  }

  lemma HoldersHold(items: set<Item>, rows: set<Row>, orders: set<Key>, ids: seq<Key>, sources: seq<Key>)
    requires DistinctItems(items) && DistinctRows(rows)
    requires |NewIn(items, rows, orders)| <= |ids| && |NewIn(items, rows, orders)| <= |sources|
    requires Ranked(NewIn(items, rows, orders))
    ensures forall p :: p in Holders(items, rows, orders, ids, sources) ==>
        p.0.order == p.1.order && p.0.facts == p.1.facts
  {
    hide MatchIn, Matched, NewIn, Rank;
  }

  /** After any run the active items of the observed orders mirror the observed rows. */
  lemma RunMirrorsRows(items: set<Item>, rows: set<Row>, orders: set<Key>, ids: seq<Key>, sources: seq<Key>, s: Summary)
    returns (holders: set<Pair>)
    requires DistinctItems(items) && DistinctRows(rows) && Proposed(items, ids)
    requires Reconciled(items, rows, orders, ids, sources, s)
    ensures Mirror(s.items, rows, orders, holders)
    ensures |holders| == s.inserted + s.restored + |PairsIn(items, rows, orders)|
  {
    HoldersAreActive(items, rows, orders, ids, sources, s);
    holders := Holders(items, rows, orders, ids, sources);
    HoldersOneToOne(items, rows, orders, ids, sources);
    HoldersHold(items, rows, orders, ids, sources);
    hide Holders, NewIn, PairsIn, RestoredIn, DroppedIn, OneToOne, ItemsOf, RowsOf, Ranked;
  }

  // Conservation --------------------------------------------------------------------------------------

  lemma ActiveSplit(items: set<Item>, orders: set<Key>)
    ensures |Active(items)| == |Observed(items, orders)| + |Unobserved(items, orders)|
  {
    assert Active(items) == Observed(items, orders) + Unobserved(items, orders);
  }

  lemma ObservedSize(items: set<Item>, rows: set<Row>, orders: set<Key>)
    requires DistinctItems(items) && DistinctRows(rows)
    ensures |Observed(items, orders)| == |PairsIn(items, rows, orders)| + |DroppedIn(items, rows, orders)|
  {
    ActivePartition(items, rows, orders);
    MatchedOneToOne(items, rows, orders);
    SubsetOneToOne(PairsIn(items, rows, orders), Matched(items, rows, orders));
    PairSizes(PairsIn(items, rows, orders));
  }

  lemma UnobservedStays(items: set<Item>, rows: set<Row>, orders: set<Key>, ids: seq<Key>, sources: seq<Key>,
    s: Summary)
    requires DistinctItems(items) && DistinctRows(rows) && Reconciled(items, rows, orders, ids, sources, s)
    ensures Unobserved(s.items, orders) == Unobserved(items, orders)
    ensures forall e :: e in items && e.order !in orders ==> e in s.items
  {
    ReconciledItems(items, rows, orders, ids, sources, s);
    var added := NewItems(NewIn(items, rows, orders), ids, sources);
    AddedOrders(items, rows, orders, ids, sources, added, |NewIn(items, rows, orders)|);
    StillUnobserved(items, rows, orders, AfterItems(items, rows, orders), added);
    hide Reconciled, MatchIn, NewIn, NewItems, Unobserved;
    forall e | e in items && e.order !in orders ensures e in AfterItems(items, rows, orders) {
      ItemAfterFacts(items, rows, orders, e);
      assert e == ItemAfter(items, rows, orders, e);
    }
  }

  /** One run conserves items: what was active, inserted or restored is what is active now or retired
  by this run, and every active item was counted once. */
  lemma RunConserves(items: set<Item>, rows: set<Row>, orders: set<Key>, ids: seq<Key>, sources: seq<Key>, s: Summary)
    requires DistinctItems(items) && DistinctRows(rows) && Proposed(items, ids)
    requires Reconciled(items, rows, orders, ids, sources, s)
    ensures |Active(items)| + s.inserted + s.restored == |Active(s.items)| + s.retired
    ensures |Active(s.items)| == s.inserted + s.updated + s.restored + s.same
  {
    var holders := RunMirrorsRows(items, rows, orders, ids, sources, s);
    PairSizes(holders);
    ActiveSplit(items, orders);
    ActiveSplit(s.items, orders);
    UnobservedStays(items, rows, orders, ids, sources, s);
    ObservedSize(items, rows, orders);
    hide MatchIn, NewIn, PairsIn, RestoredIn, DroppedIn, OneToOne, DistinctItems, DistinctRows, Observed, Active,
         Unobserved, Edited, NewItems, ItemAfter;
  }

  lemma AfterItemsDistinct(items: set<Item>, rows: set<Row>, orders: set<Key>)
    requires DistinctItems(items) && DistinctRows(rows)
    ensures DistinctItems(AfterItems(items, rows, orders))
    ensures TransactionsOf(AfterItems(items, rows, orders)) == TransactionsOf(items)
  {
    forall e | e in items
      ensures ItemAfter(items, rows, orders, e).transaction == e.transaction
      ensures ItemAfter(items, rows, orders, e) in AfterItems(items, rows, orders)
    {
      ItemAfterFacts(items, rows, orders, e);
    }
    hide ItemAfter;
    forall id | id in TransactionsOf(items) ensures id in TransactionsOf(AfterItems(items, rows, orders)) {
      var e :| e in items && e.transaction == id;
      assert ItemAfter(items, rows, orders, e).transaction == id;
    }
    forall a | a in AfterItems(items, rows, orders)
      ensures exists e :: e in items && a == ItemAfter(items, rows, orders, e) && e.transaction == a.transaction
    {
      var e :| e in items && a == ItemAfter(items, rows, orders, e);
    }
  }

  lemma NewItemsDistinct(items: set<Item>, added: set<Row>, ids: seq<Key>, sources: seq<Key>)
    requires DistinctRows(added) && Proposed(items, ids)
    requires |added| <= |ids| && |added| <= |sources| && Ranked(added)
    ensures DistinctItems(NewItems(added, ids, sources))
    ensures TransactionsOf(NewItems(added, ids, sources)) == Elements(ids[..|added|])
    ensures TransactionsOf(NewItems(added, ids, sources)) !! TransactionsOf(items)
  {
    InsertTotal(added);
    InsertedOneToOne(items, added, ids, sources);
    forall a, b | a in NewItems(added, ids, sources) && b in NewItems(added, ids, sources)
        && a.transaction == b.transaction
      ensures a == b
    {
      var q :| q in added && a == NewItem(added, ids, sources, q);
      var r :| r in added && b == NewItem(added, ids, sources, r);
      RankInjective(q, r, added, InsertBefore);
    }
    NewTransactions(added, ids, sources);
  }

  lemma NewTransactions(added: set<Row>, ids: seq<Key>, sources: seq<Key>)
    requires |added| <= |ids| && |added| <= |sources| && Ranked(added) && TotalOn(added, InsertBefore)
    ensures TransactionsOf(NewItems(added, ids, sources)) == Elements(ids[..|added|])
  {
    hide InsertBefore, TotalOn, Rank;
    forall id | id in Elements(ids[..|added|]) ensures id in TransactionsOf(NewItems(added, ids, sources)) {
      var k :| 0 <= k < |added| && ids[k] == id;
      var r := ElementOfRank(added, InsertBefore, k);
      assert NewItem(added, ids, sources, r) in NewItems(added, ids, sources);
    }
    forall e | e in NewItems(added, ids, sources) ensures e.transaction in Elements(ids[..|added|]) {
      var r :| r in added && e == NewItem(added, ids, sources, r);
      assert ids[..|added|][Rank(r, added, InsertBefore)] == e.transaction;
    }
  }

  lemma DistinctUnion(a: set<Item>, b: set<Item>)
    requires DistinctItems(a) && DistinctItems(b) && TransactionsOf(a) !! TransactionsOf(b)
    ensures DistinctItems(a + b) && TransactionsOf(a + b) == TransactionsOf(a) + TransactionsOf(b)
  {
    assert forall e :: e in a ==> e.transaction in TransactionsOf(a);
    assert forall e :: e in b ==> e.transaction in TransactionsOf(b);
  }

  /** No identity is lost or duplicated: every stored item keeps its transaction, source, order and
  local fields, and each inserted row takes the next proposed identifier. */
  lemma RunKeepsIdentities(items: set<Item>, rows: set<Row>, orders: set<Key>, ids: seq<Key>, sources: seq<Key>,
    s: Summary)
    requires DistinctItems(items) && DistinctRows(rows) && Proposed(items, ids)
    requires Reconciled(items, rows, orders, ids, sources, s)
    ensures DistinctItems(s.items)
    ensures s.inserted <= |ids| && TransactionsOf(s.items) == TransactionsOf(items) + Elements(ids[..s.inserted])
    ensures TransactionsOf(items) !! Elements(ids[..s.inserted])
    ensures forall e :: e in items ==>
              exists a ::
                  a in s.items && a.transaction == e.transaction && a.source == e.source && a.order == e.order
                  && a.local == e.local
  {
    ReconciledItems(items, rows, orders, ids, sources, s);
    var added := NewIn(items, rows, orders);
    assert DistinctRows(added) by { hide MatchIn; }
    assert s.inserted == |added| by { hide MatchIn, Rank; }
    AfterItemsDistinct(items, rows, orders);
    NewItemsDistinct(items, added, ids, sources);
    DistinctUnion(AfterItems(items, rows, orders), NewItems(added, ids, sources));
    hide Reconciled, MatchIn, NewIn, NewItems, DistinctItems, DistinctRows, TransactionsOf, Proposed, Ranked;
    forall e | e in items
      ensures exists a ::
          a in s.items && a.transaction == e.transaction && a.source == e.source && a.order == e.order
          && a.local == e.local
    {
      ItemAfterFacts(items, rows, orders, e);
      var a := ItemAfter(items, rows, orders, e);
      assert a in AfterItems(items, rows, orders) && a in s.items;
    }
  }

  /** One proposed identifier per row of the export is always enough. */
  lemma OneIdPerRowSuffices(items: set<Item>, incoming: seq<Row>, orders: set<Key>)
    ensures |NewIn(items, Elements(incoming), orders)| <= |incoming|
  {
    SubsetSize(NewIn(items, Elements(incoming), orders), Elements(incoming));
    ElementsSize(incoming);
  }

  // Repeating an import ------------------------------------------------------------------------------

  // Every active item pairs exactly, and nothing is left for the later passes.
  ghost predicate QuietMatch(items: set<Item>, m: Matching) {
    && ItemsOf(m.exact) == Active(items)
    && m.restored == {} && m.sole == {} && m.asinless == {} && m.items == {} && m.rows == {}
  }

  ghost predicate Quiet(items: set<Item>, rows: set<Row>, orders: set<Key>) {
    forall o :: o in orders ==> QuietMatch(InOrder(items, o), MatchIn(items, rows, o))
  }

  ghost predicate EqualCounts(items: set<Item>, rows: set<Row>) {
    forall f :: |Alike(items, f)| == |AlikeRows(rows, f)|
  }

  lemma MirrorCounts(items: set<Item>, rows: set<Row>, pairs: set<Pair>)
    requires OneToOne(pairs) && ItemsOf(pairs) == items && RowsOf(pairs) == rows
    requires forall p :: p in pairs ==> p.0.facts == p.1.facts
    ensures EqualCounts(items, rows)
  {
    forall f ensures |Alike(items, f)| == |AlikeRows(rows, f)| {
      var some := set p | p in pairs && p.0.facts.identity == f;
      assert ItemsOf(some) == Alike(items, f);
      assert RowsOf(some) == AlikeRows(rows, f);
      SubsetOneToOne(some, pairs);
      PairSizes(some);
    }
  }

  lemma CountsPairAll(items: set<Item>, rows: set<Row>)
    requires DistinctItems(items) && DistinctRows(rows) && EqualCounts(items, rows)
    ensures ItemsOf(ExactPairs(items, rows)) == items && RowsOf(ExactPairs(items, rows)) == rows
  {
    ExactIsOneToOne(items, rows);
    forall e | e in items ensures e in ItemsOf(ExactPairs(items, rows)) {
      ItemsTotal(Alike(items, e.facts.identity));
      RankBelowSize(e, Alike(items, e.facts.identity), ItemBefore);
      RankedItemIsPaired(items, rows, e);
    }
    forall r | r in rows ensures r in RowsOf(ExactPairs(items, rows)) {
      RowsTotal(AlikeRows(rows, r.facts.identity));
      RankBelowSize(r, AlikeRows(rows, r.facts.identity), RowBefore);
      RankedRowIsPaired(items, rows, r);
    }
  }

  lemma CountsAreQuiet(items: set<Item>, rows: set<Row>)
    requires DistinctItems(items) && DistinctRows(rows) && EqualCounts(Active(items), rows)
    ensures QuietMatch(items, Match(items, rows))
  {
    CountsPairAll(Active(items), rows);
    hide ExactMatch, SoleMatch, DistinctItems, DistinctRows, EqualCounts;
    var m := Match(items, rows);
    assert m.exact == ExactPairs(Active(items), rows);
    assert ExactPairs(Retired(items), {}) == {};
    assert SolePairs({}, {}, true) == {} && SolePairs({}, {}, false) == {};
  }

  /** Once the active items mirror the rows, the same rows leave nothing to insert, restore or retire. */
  lemma MirrorIsQuiet(items: set<Item>, rows: set<Row>, orders: set<Key>, holders: set<Pair>)
    requires DistinctItems(items) && DistinctRows(rows) && Mirror(items, rows, orders, holders)
    ensures Quiet(items, rows, orders)
  {
    forall o | o in orders ensures QuietMatch(InOrder(items, o), MatchIn(items, rows, o)) {
      var some := set p | p in holders && p.0.order == o;
      assert ItemsOf(some) == Active(InOrder(items, o)) by {
        assert forall e :: e in ItemsOf(some) <==> e in ItemsOf(holders) && e.order == o;
      }
      assert RowsOf(some) == RowsInOrder(rows, o) by {
        assert forall r :: r in RowsOf(some) <==> r in RowsOf(holders) && r.order == o;
      }
      SubsetOneToOne(some, holders);
      MirrorCounts(Active(InOrder(items, o)), RowsInOrder(rows, o), some);
      hide EqualCounts, QuietMatch, Match;
      CountsAreQuiet(InOrder(items, o), RowsInOrder(rows, o));
    }
  }

  lemma QuietRun(items: set<Item>, rows: set<Row>, orders: set<Key>, ids: seq<Key>, sources: seq<Key>, s: Summary)
    requires DistinctItems(items) && DistinctRows(rows) && Quiet(items, rows, orders)
    requires Reconciled(items, rows, orders, ids, sources, s)
    ensures s.inserted == 0 && s.restored == 0 && s.retired == 0
    ensures s.items == AfterItems(items, rows, orders)
  {
    assert RestoredIn(items, rows, orders) == {} by { hide MatchIn; }
    assert DroppedIn(items, rows, orders) == {} by { hide MatchIn; }
    assert NewIn(items, rows, orders) == {} by { hide MatchIn; }
    ReconciledItems(items, rows, orders, ids, sources, s);
    assert NewItems({}, ids, sources) == {};
  }

  // What a quiet run does to one item.
  lemma QuietAfter(items: set<Item>, rows: set<Row>, orders: set<Key>, e: Item)
    requires DistinctItems(items) && DistinctRows(rows) && Quiet(items, rows, orders) && e in items
    ensures ItemAfter(items, rows, orders, e).retired == e.retired
    ensures ItemAfter(items, rows, orders, e).order == e.order
        && ItemAfter(items, rows, orders, e).transaction == e.transaction
    ensures e.retired || e.order !in orders ==> ItemAfter(items, rows, orders, e) == e
    ensures forall p :: p in MatchIn(items, rows, e.order).exact && p.0 == e && e.order in orders ==>
              ItemAfter(items, rows, orders, e) == FromRow(e, p.1)
    ensures !e.retired && e.order in orders ==> exists p :: p in MatchIn(items, rows, e.order).exact && p.0 == e
  {
    ItemAfterFacts(items, rows, orders, e);
    if e.order in orders {
      var m := MatchIn(items, rows, e.order);
      assert QuietMatch(InOrder(items, e.order), m);
      MatchStaysInOrder(items, rows, e.order);
      assert m.Pairs() == m.exact;
      assert e in ItemsOf(m.exact) <==> !e.retired;
      hide MatchIn, Quiet, QuietMatch;
      if e.retired {
        SettleOther(m, e);
      } else {
        var p :| p in m.exact && p.0 == e;
        SettlePaired(m, p);
      }
    }
  }

  /** The state in which every paired item already says what its row says. */
  ghost predicate Steady(items: set<Item>, rows: set<Row>, orders: set<Key>) {
    && Quiet(items, rows, orders)
    && forall o, p :: o in orders && p in MatchIn(items, rows, o).exact ==> FromRow(p.0, p.1) == p.0
  }

  // A map that keeps transactions keeps ranks.
  lemma RankOfImage(s: set<Item>, f: Item -> Item, e: Item)
    requires DistinctItems(s) && e in s && forall x :: x in s ==> f(x).transaction == x.transaction
    ensures Rank(f(e), Image(s, f), ItemBefore) == Rank(e, s, ItemBefore)
  {
    assert Below(f(e), Image(s, f), ItemBefore) == Image(Below(e, s, ItemBefore), f);
    ImageSize(Below(e, s, ItemBefore), f);
  }

  lemma ExactPairFacts(items: set<Item>, rows: set<Row>, order: Key, p: Pair)
    requires p in MatchIn(items, rows, order).exact
    ensures ExactMatch(Active(InOrder(items, order)), RowsInOrder(rows, order), p.0, p.1)
  {
  }

  lemma QuietKeepsIdentity(items: set<Item>, rows: set<Row>, orders: set<Key>, e: Item)
    requires DistinctItems(items) && DistinctRows(rows) && Quiet(items, rows, orders) && e in items
    ensures ItemAfter(items, rows, orders, e).facts.identity == e.facts.identity
  {
    QuietAfter(items, rows, orders, e);
    if !e.retired && e.order in orders {
      var p :| p in MatchIn(items, rows, e.order).exact && p.0 == e;
      ExactPairFacts(items, rows, e.order, p);
    }
  }

  lemma AlikeAfter(items: set<Item>, rows: set<Row>, orders: set<Key>, o: Key, f: Key)
    requires DistinctItems(items) && DistinctRows(rows) && Quiet(items, rows, orders) && o in orders
    ensures Alike(Active(InOrder(AfterItems(items, rows, orders), o)), f) ==
            Image(Alike(Active(InOrder(items, o)), f), (e: Item) => ItemAfter(items, rows, orders, e))
  {
    var g := (e: Item) => ItemAfter(items, rows, orders, e);
    forall e | e in items
      ensures g(e).retired == e.retired && g(e).order == e.order && g(e).facts.identity == e.facts.identity
    {
      QuietAfter(items, rows, orders, e);
      QuietKeepsIdentity(items, rows, orders, e);
    }
    assert AfterItems(items, rows, orders) == Image(items, g);
    hide ItemAfter, MatchIn, Quiet, DistinctItems, DistinctRows, AfterItems;
    AlikeImage(items, g, o, f);
  }

  lemma AlikeImage(items: set<Item>, g: Item -> Item, o: Key, f: Key)
    requires forall e :: e in items ==>
               g(e).retired == e.retired && g(e).order == e.order && g(e).facts.identity == e.facts.identity
    ensures Alike(Active(InOrder(Image(items, g), o)), f) == Image(Alike(Active(InOrder(items, o)), f), g)
  {
  }

  lemma QuietThenSteady(items: set<Item>, rows: set<Row>, orders: set<Key>, o: Key, p: Pair)
    requires DistinctItems(items) && DistinctRows(rows) && Quiet(items, rows, orders) && o in orders
    requires p in MatchIn(AfterItems(items, rows, orders), rows, o).exact
    ensures FromRow(p.0, p.1) == p.0
  {
    ExactPairFacts(AfterItems(items, rows, orders), rows, o, p);
    var e :| e in items && p.0 == ItemAfter(items, rows, orders, e);
    QuietAfter(items, rows, orders, e);
    var q :| q in MatchIn(items, rows, o).exact && q.0 == e;
    ExactPairFacts(items, rows, o, q);
    var f := e.facts.identity;
    var some := Alike(Active(InOrder(items, o)), f);
    AlikeAfter(items, rows, orders, o, f);
    forall x | x in some ensures ItemAfter(items, rows, orders, x).transaction == x.transaction {
      QuietAfter(items, rows, orders, x);
    }
    hide MatchIn, Quiet, ItemAfter;
    RankOfImage(some, (x: Item) => ItemAfter(items, rows, orders, x), e);
    RowsTotal(AlikeRows(RowsInOrder(rows, o), f));
    hide Rank, Alike, Active, InOrder, DistinctItems;
    RankInjective(p.1, q.1, AlikeRows(RowsInOrder(rows, o), f), RowBefore);
  }

  lemma SteadyRun(items: set<Item>, rows: set<Row>, orders: set<Key>, ids: seq<Key>, sources: seq<Key>, s: Summary)
    requires DistinctItems(items) && DistinctRows(rows) && Steady(items, rows, orders)
    requires Reconciled(items, rows, orders, ids, sources, s)
    ensures s.items == items
    ensures s.inserted == 0 && s.updated == 0 && s.restored == 0 && s.retired == 0
  {
    QuietRun(items, rows, orders, ids, sources, s);
    forall e | e in items ensures ItemAfter(items, rows, orders, e) == e {
      QuietAfter(items, rows, orders, e);
      hide MatchIn, Quiet;
    }
    assert AfterItems(items, rows, orders) == items by { hide ItemAfter; }
    NothingToEdit(items, rows, orders);
  }

  lemma NothingToEdit(items: set<Item>, rows: set<Row>, orders: set<Key>)
    requires DistinctItems(items) && DistinctRows(rows) && Steady(items, rows, orders)
    ensures Edited(PairsIn(items, rows, orders)) == {}
  {
    forall p | p in PairsIn(items, rows, orders) ensures p.0.facts.full == p.1.facts.full {
      MatchedIn(items, rows, orders, p);
      assert QuietMatch(InOrder(items, p.0.order), MatchIn(items, rows, p.0.order));
      assert p in MatchIn(items, rows, p.0.order).exact;
      hide MatchIn;
    }
  }

  lemma QuietSettles(items: set<Item>, rows: set<Row>, orders: set<Key>)
    requires DistinctItems(items) && DistinctRows(rows) && Quiet(items, rows, orders)
    requires Quiet(AfterItems(items, rows, orders), rows, orders)
    ensures Steady(AfterItems(items, rows, orders), rows, orders)
  {
    forall o, p | o in orders && p in MatchIn(AfterItems(items, rows, orders), rows, o).exact
      ensures FromRow(p.0, p.1) == p.0
    {
      QuietThenSteady(items, rows, orders, o, p);
    }
  }

  lemma SpareIdentifiers(items: set<Item>, rows: set<Row>, orders: set<Key>, ids: seq<Key>, sources: seq<Key>,
    s: Summary)
    requires Reconciled(items, rows, orders, ids, sources, s) && s.inserted == 0
    ensures Reconciled(items, rows, orders, [], [], s)
  {
    assert NewIn(items, rows, orders) == {} by { hide MatchIn; }
    assert NewItems({}, ids, sources) == NewItems({}, [], []);
    hide MatchIn, ItemAfter, PairsIn, RestoredIn, DroppedIn;
  }

  // A quiet run leads to a steady state.
  lemma QuietRunSettles(items: set<Item>, rows: set<Row>, orders: set<Key>, ids: seq<Key>, sources: seq<Key>,
    s: Summary)
    requires DistinctItems(items) && DistinctRows(rows) && Quiet(items, rows, orders)
    requires Reconciled(items, rows, orders, ids, sources, s)
    ensures DistinctItems(s.items) && Steady(s.items, rows, orders)
  {
    hide Reconciled, DistinctItems, DistinctRows, Quiet, Steady, MatchIn, Mirror;
    QuietRun(items, rows, orders, ids, sources, s);
    SpareIdentifiers(items, rows, orders, ids, sources, s);
    AfterItemsDistinct(items, rows, orders);
    var holders := RunMirrorsRows(items, rows, orders, [], [], s);
    MirrorIsQuiet(s.items, rows, orders, holders);
    QuietSettles(items, rows, orders);
  }

  function StateBefore(items: set<Item>, runs: seq<Summary>, i: nat): set<Item>
    requires i <= |runs|
  {
    if i == 0 then items else runs[i - 1].items
  }

  /** `runs` imports the same rows again and again, starting from `items`. */
  ghost predicate Repeated(
    items: set<Item>, rows: set<Row>, orders: set<Key>, ids: seq<seq<Key>>, sources: seq<seq<Key>>, runs: seq<Summary>)
  {
    && |ids| == |sources| == |runs|
    && forall i :: 0 <= i < |runs| ==>
         Reconciled(StateBefore(items, runs, i), rows, orders, ids[i], sources[i], runs[i])
  }

  /** Importing the same rows again and again reaches a fixed point: from the second run on nothing is
  inserted, restored or retired, and from the third run on nothing changes at all. */
  lemma {:induction false} RepeatingReachesFixedPoint(
    items: set<Item>, rows: set<Row>, orders: set<Key>, ids: seq<seq<Key>>, sources: seq<seq<Key>>, runs: seq<Summary>,
    k: nat)
    requires DistinctItems(items) && DistinctRows(rows) && Repeated(items, rows, orders, ids, sources, runs)
    requires 1 <= k < |runs| && Proposed(items, ids[0])
    ensures runs[k].inserted == 0 && runs[k].restored == 0 && runs[k].retired == 0
    ensures k >= 2 ==> runs[k].updated == 0 && runs[k].items == runs[1].items
    ensures DistinctItems(runs[k].items) && Steady(runs[k].items, rows, orders)
    decreases k
  {
    hide Reconciled, DistinctItems, DistinctRows, Quiet, Steady, MatchIn, Mirror;
    assert Reconciled(StateBefore(items, runs, k), rows, orders, ids[k], sources[k], runs[k]);
    if k == 1 {
      assert Reconciled(StateBefore(items, runs, 0), rows, orders, ids[0], sources[0], runs[0]);
      var holders := RunMirrorsRows(items, rows, orders, ids[0], sources[0], runs[0]);
      RunKeepsIdentities(items, rows, orders, ids[0], sources[0], runs[0]);
      MirrorIsQuiet(runs[0].items, rows, orders, holders);
      QuietRun(runs[0].items, rows, orders, ids[1], sources[1], runs[1]);
      QuietRunSettles(runs[0].items, rows, orders, ids[1], sources[1], runs[1]);
    } else {
      RepeatingReachesFixedPoint(items, rows, orders, ids, sources, runs, k - 1);
      SteadyRun(runs[k - 1].items, rows, orders, ids[k], sources[k], runs[k]);
    }
  }

  /** Before an import, item by item: the row of equal rank with the item's fingerprint says what the item
  already says. */
  ghost predicate InStep(items: set<Item>, rows: set<Row>, orders: set<Key>) {
    forall o, e, r :: o in orders && ExactMatch(Active(InOrder(items, o)), RowsInOrder(rows, o), e, r) ==>
                        e.facts.full == r.facts.full
  }

  lemma QuietPair(items: set<Item>, rows: set<Row>, orders: set<Key>, o: Key, e: Item, r: Row)
    requires DistinctItems(items) && DistinctRows(rows) && Quiet(items, rows, orders) && o in orders
    ensures ExactMatch(Active(InOrder(items, o)), RowsInOrder(rows, o), e, r) <==>
        e.order == o && (e, r) in PairsIn(items, rows, orders)
  {
    MatchedIn(items, rows, orders, (e, r));
    assert QuietMatch(InOrder(items, o), MatchIn(items, rows, o));
    hide ExactMatch, Quiet, DistinctItems, DistinctRows, PairsIn;
  }

  /** A run that inserts, restores and retires nothing updates nothing exactly when items and rows are in step. */
  lemma QuietRunUpdates(items: set<Item>, rows: set<Row>, orders: set<Key>, ids: seq<Key>, sources: seq<Key>,
    s: Summary)
    requires DistinctItems(items) && DistinctRows(rows) && Quiet(items, rows, orders)
    requires Reconciled(items, rows, orders, ids, sources, s)
    ensures s.updated == 0 <==> InStep(items, rows, orders)
  {
    UpdatedIsEdited(items, rows, orders, ids, sources, s);
    hide Reconciled, DistinctItems, DistinctRows, Quiet, ExactMatch, PairsIn;
    forall o, e, r | o in orders
      ensures ExactMatch(Active(InOrder(items, o)), RowsInOrder(rows, o), e, r) <==>
          e.order == o && (e, r) in PairsIn(items, rows, orders)
    {
      QuietPair(items, rows, orders, o, e, r);
    }
    forall p | p in PairsIn(items, rows, orders) ensures p.0.order in orders {
      MatchedIn(items, rows, orders, p);
    }
    if InStep(items, rows, orders) {
      assert Edited(PairsIn(items, rows, orders)) == {};
    } else {
      var o, e, r :| o in orders && ExactMatch(Active(InOrder(items, o)), RowsInOrder(rows, o), e, r)
          && e.facts.full != r.facts.full;
      assert (e, r) in Edited(PairsIn(items, rows, orders));
    }
  }

  /** Importing the same rows a second time updates nothing if and only if, after the first import, items and
  rows of equal fingerprint and rank agree. */
  lemma SecondRunIsIdle(
    items: set<Item>, rows: set<Row>, orders: set<Key>, ids: seq<Key>, sources: seq<Key>, s: Summary,
    ids': seq<Key>, sources': seq<Key>, s': Summary)
    requires DistinctItems(items) && DistinctRows(rows) && Proposed(items, ids)
    requires Reconciled(items, rows, orders, ids, sources, s) && Reconciled(s.items, rows, orders, ids', sources', s')
    ensures s'.updated == 0 <==> InStep(s.items, rows, orders)
    ensures s'.inserted == 0 && s'.restored == 0 && s'.retired == 0
  {
    hide Reconciled, DistinctItems, DistinctRows, Quiet, Proposed, InStep, Mirror;
    var holders := RunMirrorsRows(items, rows, orders, ids, sources, s);
    RunKeepsIdentities(items, rows, orders, ids, sources, s);
    MirrorIsQuiet(s.items, rows, orders, holders);
    QuietRun(s.items, rows, orders, ids', sources', s');
    QuietRunUpdates(s.items, rows, orders, ids', sources', s');
  }

  lemma SameElements<T>(a: seq<T>, b: seq<T>)
    requires multiset(a) == multiset(b)
    ensures Elements(a) == Elements(b)
  {
    forall x ensures x in Elements(a) <==> x in Elements(b) {
      assert x in multiset(a) <==> x in multiset(b);
    }
  }

  /** Neither the order of the stored items nor that of the rows matters. */
  lemma ListingOrderIsIrrelevant(
    existing: seq<Item>, existing': seq<Item>, incoming: seq<Row>, incoming': seq<Row>, observed: seq<Key>,
    observed': seq<Key>,
    ids: seq<Key>, sources: seq<Key>, s: Summary, s': Summary)
    requires multiset(existing) == multiset(existing') && multiset(incoming) == multiset(incoming')
    requires Elements(observed) == Elements(observed')
    requires Reconciled(Elements(existing), Elements(incoming), Elements(observed), ids, sources, s)
    requires Reconciled(Elements(existing'), Elements(incoming'), Elements(observed'), ids, sources, s')
    ensures s == s'
  {
    SameElements(existing, existing');
    SameElements(incoming, incoming');
    hide ItemAfter, NewItems, MatchIn, PairsIn, RestoredIn, DroppedIn, NewIn, Elements, Rank;
  }

  // Why the third run and not the second --------------------------------------------------------------

  lemma FirstRunInserts(first: Row, second: Row, ids: seq<Key>, sources: seq<Key>, s: Summary)
    requires first.order == second.order && RowBefore(first, second) && |ids| == |sources| == 2
    requires Reconciled({}, {first, second}, {first.order}, ids, sources, s)
    ensures s.items == {Item(ids[0], sources[0], first.order, first.facts, false, NO_LOCAL),
                        Item(ids[1], sources[1], second.order, second.facts, false, NO_LOCAL)}
  {
    var rows, orders := {first, second}, {first.order};
    FirstRunPairsNothing(rows, orders);
    ReconciledItems({}, rows, orders, ids, sources, s);
    hide Reconciled, NewIn;
    assert AfterItems({}, rows, orders) == {};
    TwoNewItems(first, second, ids, sources);
    hide AfterItems, NewItems, Ranked;
  }

  lemma TwoNewItems(first: Row, second: Row, ids: seq<Key>, sources: seq<Key>)
    requires first.order == second.order && RowBefore(first, second) && |ids| == |sources| == 2
    requires |{first, second}| <= 2 && Ranked({first, second})
    ensures NewItems({first, second}, ids, sources) ==
            {Item(ids[0], sources[0], first.order, first.facts, false, NO_LOCAL),
             Item(ids[1], sources[1], second.order, second.facts, false, NO_LOCAL)}
  {
    TwoRanks(first, second);
    hide Rank, InsertBefore, RowBefore;
  }

  lemma TwoRanks(first: Row, second: Row)
    requires first.order == second.order && RowBefore(first, second)
    ensures Rank(first, {first, second}, InsertBefore) == 0 && Rank(second, {first, second}, InsertBefore) == 1
  {
    assert Below(first, {first, second}, InsertBefore) == {};
    assert Below(second, {first, second}, InsertBefore) == {first};
  }

  lemma UpdatedIsEdited(items: set<Item>, rows: set<Row>, orders: set<Key>, ids: seq<Key>, sources: seq<Key>,
    s: Summary)
    requires Reconciled(items, rows, orders, ids, sources, s)
    ensures s.updated == |Edited(PairsIn(items, rows, orders))|
  {
  }

  lemma FirstRunPairsNothing(rows: set<Row>, orders: set<Key>)
    requires DistinctRows(rows) && forall r :: r in rows ==> r.order in orders
    ensures NewIn({}, rows, orders) == rows
  {
    RowPartition({}, rows, orders);
    hide MatchIn;
    assert Matched({}, rows, orders) == {};
  }

  lemma LeastPair(items: set<Item>, rows: set<Row>, order: Key, e: Item, r: Row)
    requires e in items && !e.retired && r in rows && e.facts.identity == r.facts.identity
        && e.facts.full != r.facts.full
    requires e.order == order && r.order == order
    requires forall x :: x in items ==> !ItemBefore(x, e)
    requires forall x :: x in rows ==> !RowBefore(x, r)
    ensures |Edited(PairsIn(items, rows, {order}))| > 0 && !InStep(items, rows, {order})
  {
    var active, these := Active(InOrder(items, order)), RowsInOrder(rows, order);
    assert Below(e, Alike(active, e.facts.identity), ItemBefore) == {};
    assert Below(r, AlikeRows(these, r.facts.identity), RowBefore) == {};
    assert ExactMatch(active, these, e, r);
    assert (e, r) in MatchIn(items, rows, order).exact;
    hide MatchIn, ExactMatch, Rank, Below;
    assert (e, r) in Edited(PairsIn(items, rows, {order}));
  }

  /** Items and rows can be out of step after an import: two new rows with one fingerprint whose proposed
  identifiers sort the other way round. Importing the same rows a second time then updates items. */
  lemma SecondRunMayUpdate(
    first: Row, second: Row, ids: seq<Key>, sources: seq<Key>, s: Summary, ids': seq<Key>, sources': seq<Key>,
    s': Summary)
    requires first.order == second.order && RowBefore(first, second)
    requires first.facts.identity == second.facts.identity && first.facts.full != second.facts.full
    requires |ids| == |sources| == 2 && ids[1] < ids[0]
    requires Reconciled({}, {first, second}, {first.order}, ids, sources, s)
    requires Reconciled(s.items, {first, second}, {first.order}, ids', sources', s')
    ensures s'.updated > 0 && !InStep(s.items, {first, second}, {first.order})
  {
    hide Reconciled, Edited, PairsIn, InStep;
    FirstRunInserts(first, second, ids, sources, s);
    UpdatedIsEdited(s.items, {first, second}, {first.order}, ids', sources', s');
    LeastPair(s.items, {first, second}, first.order,
              Item(ids[1], sources[1], second.order, second.facts, false, NO_LOCAL), first);
  }
}