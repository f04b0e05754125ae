/** What the ledger shows after an Amazon import: one transaction per row of the observed orders, with the
row's date and amount, and plain user fields for what is new. */
module AmazonLedger {
  import opened Wrappers
  import opened Ranking
  import opened MergeChains
  import opened AmazonReconcile
  import opened AmazonRuns
  import opened AmazonProfile
  import opened AmazonNaming
  import opened AmazonMaterialize
  import opened AmazonHistory

  /** The transaction shows where the item came from, when it was ordered and what it cost, and the user fields
  that the item remembers. */
  ghost predicate Shows(t: Transaction, e: Item) {
    && t.source == e.source && t.date == e.facts.date
    && t.amount == e.facts.amount && t.currency == e.facts.currency && t.scale == e.facts.scale
    && t.account == e.local.account && t.merchant == e.local.merchant && e.local.category == Some(t.category)
    && t.notes == e.local.notes && t.hidden == e.local.hidden
  }

  lemma NextShows(c: Lookup, e: Item)
    requires c.Covers(e) && !e.retired
    ensures Shows(NextTransaction(c, e), Finished(c, e))
    ensures Finished(c, e).order == e.order && Finished(c, e).facts == e.facts && Finished(c, e).source == e.source
    ensures !Finished(c, e).retired
    ensures e.transaction !in c.before.transactions && e.local.category.None? ==>
      var t := NextTransaction(c, e);
      && Some(t.account) == c.Account(e) && Some(t.merchant) == c.Merchant(e)
      && t.category == UNCATEGORIZED && t.notes == NO_LOCAL.notes && !t.hidden
  {
    hide Lookup.Account, Lookup.Merchant, Destination, StillProviderMerchant;
  }

  /** After an import every active item has its transaction, which shows the item. */
  lemma TransactionsShowItems(s: Store, ev: Event, s': Store, e: Item)
    requires ev.Import? && Imported(s, ev, s') && e in s'.items && !e.retired
    ensures e.transaction in s'.profile.transactions && Shows(s'.profile.transactions[e.transaction], e)
  {
    var a := FinishedItem(s, ev, s', e);
    hide Imported, Shows, NextTransaction, Finished, Lookup.Covers;
    var c := Lookup(s.profile, s.items, s'.profile.identities);
    var r := Remembered(a, s.profile.transactions);
    RememberedKeeps(a, s.profile.transactions);
    hide Remembered;
    NextShows(c, r);
    assert s'.profile.transactions[a.transaction] == NextTransaction(c, r);
  }

  // An item that was not stored before comes from a row that matched none.
  lemma UnstoredIsNew(items: set<Item>, rows: set<Row>, orders: set<Key>, ids: seq<Key>, sources: seq<Key>, s: Summary,
    a: Item)
    requires Reconciled(items, rows, orders, ids, sources, s) && a in s.items && a.transaction !in TransactionsOf(items)
    ensures a.local == NO_LOCAL && !a.retired && a.transaction in ids
  {
    var added := NewIn(items, rows, orders);
    forall x | x in items ensures ItemAfter(items, rows, orders, x) != a {
      assert ItemAfter(items, rows, orders, x).transaction == x.transaction;
    }
    assert a in NewItems(added, ids, sources);
    hide NewIn, MatchIn, Rank;
  }

  /** The transaction of an item that was never stored before: the account and merchant that its order and
  product name, no category, no notes, and visible. */
  lemma NewItemsArePlain(s: Store, ev: Event, s': Store, e: Item)
    requires ev.Import? && Imported(s, ev, s') && e in s'.items && e.transaction !in TransactionsOf(s.items)
    ensures !e.retired && e.transaction in s'.profile.transactions
    ensures
      var t := s'.profile.transactions[e.transaction];
      && Resolve(s'.profile.identities, AccountKind, OrderExternal(e.order)) == Some(t.account)
      && Resolve(s'.profile.identities, MerchantKind, ProductExternal(Product(e))) == Some(t.merchant)
      && t.category == UNCATEGORIZED && t.notes == NO_LOCAL.notes && !t.hidden
  {
    var a := FinishedItem(s, ev, s', e);
    UnstoredIsNew(s.items, ev.rows, ev.orders, ev.ids, ev.sources, ev.summary, a);
    assert Remembered(a, s.profile.transactions) == a;
    hide Imported, NextTransaction, Finished, Remembered, Resolve;
    NextShows(Lookup(s.profile, s.items, s'.profile.identities), a);
  }

  /** The ledger mirrors the export: the rows of the observed orders correspond one to one to the transactions of
  the active items of those orders, and each transaction has its row's date and amount. */
  ghost predicate LedgerMirrors(s: Store, rows: set<Row>, orders: set<Key>, shown: map<Row, Key>) {
    && shown.Keys == RowsOfOrders(rows, orders) && shown.Values == TransactionsOf(Observed(s.items, orders))
    && (forall q, r :: q in shown && r in shown && shown[q] == shown[r] ==> q == r)
    && forall r :: r in shown ==> shown[r] in s.profile.transactions && ShowsRow(s.profile.transactions[shown[r]], r)
  }

  ghost predicate ShowsRow(t: Transaction, r: Row) {
    t.date == r.facts.date && t.amount == r.facts.amount && t.currency == r.facts.currency && t.scale == r.facts.scale
  }

  // An item as it was reconciled and as it was stored have the same order and facts.
  lemma SameAsReconciled(s: Store, ev: Event, s': Store, a: Item) returns (e: Item)
    requires ev.Import? && Imported(s, ev, s') && a in ev.summary.items && !a.retired
    ensures e in s'.items && e.transaction == a.transaction && e.order == a.order && e.facts == a.facts && !e.retired
    ensures e.transaction in s'.profile.transactions && Shows(s'.profile.transactions[e.transaction], e)
  {
    e := ListedItem(s, ev, s', a);
    RememberedKeeps(a, s.profile.transactions);
    var c := Lookup(s.profile, s.items, s'.profile.identities);
    hide Imported, NextTransaction, Finished, Shows, Lookup.Covers;
    NextShows(c, Remembered(a, s.profile.transactions));
    hide Remembered;
    TransactionsShowItems(s, ev, s', e);
  }

  ghost function HolderOf(holders: set<Pair>, r: Row): Item
    requires r in RowsOf(holders)
  {
    var p :| p in holders && p.1 == r; p.0
  }

  ghost function Shown(holders: set<Pair>, rows: set<Row>, orders: set<Key>): map<Row, Key>
    requires RowsOf(holders) == RowsOfOrders(rows, orders)
  {
    map r | r in RowsOfOrders(rows, orders) :: HolderOf(holders, r).transaction
  }

  lemma HolderHolds(holders: set<Pair>, r: Row)
    requires r in RowsOf(holders)
    ensures (HolderOf(holders, r), r) in holders && HolderOf(holders, r) in ItemsOf(holders)
  {
    var p := (HolderOf(holders, r), r);
    assert p in holders;
  }

  // The rows and the transactions of the items that hold them.
  lemma ShownByHolders(items: set<Item>, rows: set<Row>, orders: set<Key>, holders: set<Pair>)
    requires DistinctItems(items) && Mirror(items, rows, orders, holders)
    ensures
      var shown := Shown(holders, rows, orders);
      && (forall r :: r in shown ==>
            var a := HolderOf(holders, r);
            a in Observed(items, orders) && shown[r] == a.transaction && a.facts == r.facts)
      && (forall q, r :: q in shown && r in shown && shown[q] == shown[r] ==> q == r)
      && (forall a :: a in Observed(items, orders) ==> a.transaction in shown.Values)
  {
    var shown := Shown(holders, rows, orders);
    hide HolderOf;
    forall r | r in shown ensures (HolderOf(holders, r), r) in holders && HolderOf(holders, r) in ItemsOf(holders) {
      HolderHolds(holders, r);
    }
    forall a | a in Observed(items, orders) ensures a.transaction in shown.Values {
      assert a in ItemsOf(holders);
      var p :| p in holders && p.0 == a;
      assert p.1 in RowsOf(holders);
      assert (HolderOf(holders, p.1), p.1) in holders;
      assert shown[p.1] == a.transaction;
    }
  }

  lemma HolderShows(s: Store, ev: Event, s': Store, a: Item, r: Row)
    requires ev.Import? && Imported(s, ev, s') && a in Observed(ev.summary.items, ev.orders) && a.facts == r.facts
    ensures a.transaction in s'.profile.transactions && ShowsRow(s'.profile.transactions[a.transaction], r)
    ensures a.transaction in TransactionsOf(Observed(s'.items, ev.orders))
  {
    hide Imported;
    var e := SameAsReconciled(s, ev, s', a);
    assert e in Observed(s'.items, ev.orders);
  }

  lemma ObservedWasReconciled(s: Store, ev: Event, s': Store, id: Key) returns (a: Item)
    requires ev.Import? && Imported(s, ev, s') && id in TransactionsOf(Observed(s'.items, ev.orders))
    ensures a in Observed(ev.summary.items, ev.orders) && a.transaction == id
  {
    var e :| e in Observed(s'.items, ev.orders) && e.transaction == id;
    a := FinishedItem(s, ev, s', e);
    SameOrder(s, s', a, e);
    hide Imported, Follows;
  }

  /** After an import the ledger mirrors the export. */
  lemma RowsBecomeTransactions(s: Store, ev: Event, s': Store) returns (shown: map<Row, Key>)
    requires ev.Import? && Linked(s) && Imported(s, ev, s')
    ensures LedgerMirrors(s', ev.rows, ev.orders, shown)
  {
    hide *;
    var items := ev.summary.items;
    var holders := ImportMirrors(s, ev, s');
    ShownByHolders(items, ev.rows, ev.orders, holders);
    ShownKeys(items, ev.rows, ev.orders, holders);
    shown := Shown(holders, ev.rows, ev.orders);
    forall r | r in shown
      ensures shown[r] in s'.profile.transactions && ShowsRow(s'.profile.transactions[shown[r]], r)
      ensures shown[r] in TransactionsOf(Observed(s'.items, ev.orders))
    {
      HolderShows(s, ev, s', HolderOf(holders, r), r);
    }
    forall id | id in TransactionsOf(Observed(s'.items, ev.orders)) ensures id in shown.Values {
      var a := ObservedWasReconciled(s, ev, s', id);
    }
    Mirrored(s', ev.rows, ev.orders, shown);
  }

  lemma Mirrored(s: Store, rows: set<Row>, orders: set<Key>, shown: map<Row, Key>)
    requires shown.Keys == RowsOfOrders(rows, orders)
    requires forall r :: r in shown ==> shown[r] in TransactionsOf(Observed(s.items, orders))
    requires forall id :: id in TransactionsOf(Observed(s.items, orders)) ==> id in shown.Values
    requires forall q, r :: q in shown && r in shown && shown[q] == shown[r] ==> q == r
    requires forall r :: r in shown ==>
      shown[r] in s.profile.transactions && ShowsRow(s.profile.transactions[shown[r]], r)
    ensures LedgerMirrors(s, rows, orders, shown)
  {
    hide RowsOfOrders, ShowsRow;
    var ids := TransactionsOf(Observed(s.items, orders));
    hide TransactionsOf, Observed;
    forall id ensures id in shown.Values <==> id in ids {
      if id in shown.Values {
        var r :| r in shown && shown[r] == id;
      }
    }
    assert shown.Values == ids;
  }

  lemma ImportMirrors(s: Store, ev: Event, s': Store) returns (holders: set<Pair>)
    requires ev.Import? && Linked(s) && Imported(s, ev, s')
    ensures DistinctItems(ev.summary.items) && Mirror(ev.summary.items, ev.rows, ev.orders, holders)
  {
    holders := RunMirrorsRows(s.items, ev.rows, ev.orders, ev.ids, ev.sources, ev.summary);
    ItemsStayDistinct(s, ev, s');
    hide *;
  }

  lemma ShownKeys(items: set<Item>, rows: set<Row>, orders: set<Key>, holders: set<Pair>)
    requires Mirror(items, rows, orders, holders)
    ensures RowsOf(holders) == RowsOfOrders(rows, orders)
    ensures Shown(holders, rows, orders).Keys == RowsOfOrders(rows, orders)
  {
    hide HolderOf;
  }

  lemma SameOrder(s: Store, s': Store, a: Item, e: Item)
    requires Follows(s, s', a, a, e)
    ensures e.order == a.order
  {
    RememberedKeeps(a, s.profile.transactions);
    hide Remembered, NextTransaction, NextLocal, Lookup.Covers;
  }
}
