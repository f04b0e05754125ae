/** Histories of Amazon imports and user edits: which transactions are live, which edits survive a
re-import, and what an item gets back when it is retired and later restored. */
module AmazonHistory {
  import opened Wrappers
  import opened Ranking
  import opened MergeChains
  import opened AmazonReconcile
  import opened AmazonRuns
  import opened AmazonProfile
  import opened AmazonNaming
  import opened AmazonMaterialize
  import opened AmazonTaxonomy

  datatype Store = Store(profile: Profile, items: set<Item>)

  /** An import, with the reconciled items before and after materializing; or a user edit. */
  datatype Event =
    | Import(rows: set<Row>, orders: set<Key>, ids: seq<Key>, sources: seq<Key>, summary: Summary, list: seq<Item>,
        finished: seq<Item>)
    | Edit

  ghost predicate Imported(s: Store, e: Event, s': Store)
    requires e.Import?
  {
    && DistinctRows(e.rows) && Proposed(s.items, e.ids) && (forall id :: id in e.ids ==> id !in s.profile.transactions)
    && Reconciled(s.items, e.rows, e.orders, e.ids, e.sources, e.summary)
    && Elements(e.list) == e.summary.items && DistinctTransactions(e.list)
    && Materialized(s.profile, s.items, e.list, s'.profile, e.finished)
    && s'.items == Elements(e.finished) && References(s'.profile)
  }

  /** A user edit may rewrite every table and every live transaction, and delete transactions, but it
  creates none and does not reach the stored items. */
  ghost predicate UserEdited(s: Store, s': Store) {
    s'.items == s.items && s'.profile.transactions.Keys <= s.profile.transactions.Keys
  }

  ghost predicate Step(s: Store, e: Event, s': Store) {
    if e.Import? then Imported(s, e, s') else UserEdited(s, s')
  }

  ghost predicate Linked(s: Store) {
    && DistinctItems(s.items)
    && forall e :: e in s.items && e.retired ==> e.transaction !in s.profile.transactions
  }

  // What an import makes of one stored item.
  ghost predicate Follows(s: Store, s': Store, e: Item, a: Item, e': Item) {
    && a.transaction == e.transaction && a.local == e.local && a.source == e.source && a.order == e.order
    && var c := Lookup(s.profile, s.items, s'.profile.identities);
       var r := Remembered(a, s.profile.transactions);
       && (!a.retired ==> c.Covers(r) && e.transaction in s'.profile.transactions
                          && s'.profile.transactions[e.transaction] == NextTransaction(c, r))
       && e' == Finished(c, r) && e' in s'.items
  }

  lemma ListedItem(s: Store, ev: Event, s': Store, a: Item) returns (e': Item)
    requires ev.Import? && Imported(s, ev, s') && a in ev.summary.items
    ensures Follows(s, s', a, a, e')
  {
    assert a in Elements(ev.list);
    var k :| 0 <= k < |ev.list| && ev.list[k] == a;
    var c := Lookup(s.profile, s.items, s'.profile.identities);
    assert ItemsFinished(c, ev.list, ev.finished) && TransactionsWritten(c, ev.list, s'.profile.transactions);
    RememberedKeeps(a, s.profile.transactions);
    hide Reconciled, NextTransaction, NextLocal, Remembered, Finished, Lookup.Covers, TablesGrow, Proposed,
         DistinctTransactions;
    e' := ev.finished[k];
    assert e' in Elements(ev.finished);
  }

  lemma StoredItem(s: Store, ev: Event, s': Store, e: Item) returns (a: Item, e': Item)
    requires ev.Import? && Linked(s) && Imported(s, ev, s') && e in s.items
    ensures a in ev.summary.items && Follows(s, s', e, a, e') && DistinctItems(ev.summary.items)
  {
    assert Reconciled(s.items, ev.rows, ev.orders, ev.ids, ev.sources, ev.summary);
    hide Reconciled, Materialized, DistinctItems, Proposed;
    RunKeepsIdentities(s.items, ev.rows, ev.orders, ev.ids, ev.sources, ev.summary);
    a :| a in ev.summary.items && a.transaction == e.transaction && a.source == e.source && a.order == e.order
        && a.local == e.local;
    e' := ListedItem(s, ev, s', a);
    hide NextTransaction, NextLocal, Remembered, Finished, Lookup.Covers;
  }

  // The finished items carry the transactions and states of the reconciled ones.
  lemma FinishedItem(s: Store, ev: Event, s': Store, e': Item) returns (a: Item)
    requires ev.Import? && Imported(s, ev, s') && e' in s'.items
    ensures a in ev.summary.items && a.transaction == e'.transaction && a.retired == e'.retired
    ensures Follows(s, s', a, a, e')
  {
    var k :| 0 <= k < |ev.finished| && ev.finished[k] == e';
    a := ev.list[k];
    assert a in Elements(ev.list);
    var c := Lookup(s.profile, s.items, s'.profile.identities);
    assert ItemsFinished(c, ev.list, ev.finished) && TransactionsWritten(c, ev.list, s'.profile.transactions);
    RememberedKeeps(a, s.profile.transactions);
    hide Reconciled, NextTransaction, NextLocal, Remembered, Lookup.Covers, TablesGrow, Proposed, DistinctTransactions;
  }

  lemma ItemsStayDistinct(s: Store, ev: Event, s': Store)
    requires ev.Import? && Linked(s) && Imported(s, ev, s')
    ensures DistinctItems(s'.items) && DistinctItems(ev.summary.items)
  {
    assert Reconciled(s.items, ev.rows, ev.orders, ev.ids, ev.sources, ev.summary);
    RunKeepsIdentities(s.items, ev.rows, ev.orders, ev.ids, ev.sources, ev.summary);
    assert DistinctItems(s'.items) by {
      forall x, y | x in s'.items && y in s'.items && x.transaction == y.transaction ensures x == y {
        var a := FinishedItem(s, ev, s', x);
        var b := FinishedItem(s, ev, s', y);
        assert a == b;
        hide Reconciled, NextTransaction, NextLocal, Remembered, Lookup.Covers, Materialized, Linked;
      }
    }
  }

  lemma LiveTransactions(s: Store, ev: Event, s': Store, id: Key)
    requires ev.Import? && Imported(s, ev, s')
    ensures id in s'.profile.transactions <==>
            id in ActiveIds(ev.list) || (id in s.profile.transactions && id !in ActiveTransactions(s.items))
    ensures id in s'.profile.transactions && id !in ActiveIds(ev.list) ==>
              s'.profile.transactions[id] == s.profile.transactions[id]
  {
    var c := Lookup(s.profile, s.items, s'.profile.identities);
    assert TransactionsWritten(c, ev.list, s'.profile.transactions);
    hide Reconciled, NextTransaction, NextLocal, Remembered, Lookup.Covers, TablesGrow, ItemsFinished;
  }

  /** After every import the live transactions of Amazon items are exactly those of unretired items,
  and every other transaction is untouched. */
  lemma LiveAreUnretired(s: Store, ev: Event, s': Store)
    requires ev.Import? && Linked(s) && Imported(s, ev, s')
    ensures forall e :: e in s'.items ==> (e.transaction in s'.profile.transactions <==> !e.retired)
    ensures forall id :: id !in TransactionsOf(s'.items) ==>
              (id in s'.profile.transactions <==> id in s.profile.transactions)
              && (id in s.profile.transactions ==> s'.profile.transactions[id] == s.profile.transactions[id])
    ensures Linked(s')
  {
    ItemsStayDistinct(s, ev, s');
    hide Imported, NextTransaction, NextLocal, Remembered, Finished, Lookup.Covers;
    forall e | e in s'.items ensures e.transaction in s'.profile.transactions <==> !e.retired {
      var a := FinishedItem(s, ev, s', e);
      LiveTransactions(s, ev, s', e.transaction);
      if e.retired {
        RetiredIsGone(s, ev, s', a);
      }
    }
    forall id | id !in TransactionsOf(s'.items)
      ensures (id in s'.profile.transactions <==> id in s.profile.transactions)
      ensures id in s.profile.transactions ==> s'.profile.transactions[id] == s.profile.transactions[id]
    {
      LiveTransactions(s, ev, s', id);
      UnknownId(s, ev, s', id);
    }
  }

  lemma RetiredIsGone(s: Store, ev: Event, s': Store, a: Item)
    requires ev.Import? && Linked(s) && Imported(s, ev, s') && DistinctItems(ev.summary.items)
    requires a in ev.summary.items && a.retired
    ensures a.transaction !in ActiveIds(ev.list)
    ensures a.transaction in s.profile.transactions ==> a.transaction in ActiveTransactions(s.items)
  {
    assert Reconciled(s.items, ev.rows, ev.orders, ev.ids, ev.sources, ev.summary);
    RunKeepsIdentities(s.items, ev.rows, ev.orders, ev.ids, ev.sources, ev.summary);
    hide Reconciled, Materialized;
    forall x | x in ev.list && x.transaction == a.transaction ensures x == a {
      assert x in Elements(ev.list);
    }
    if a.transaction in TransactionsOf(s.items) {
      var e :| e in s.items && e.transaction == a.transaction;
    } else {
      assert a.transaction in TransactionsOf(ev.summary.items);
      assert a.transaction in ev.ids;
    }
  }

  lemma UnknownId(s: Store, ev: Event, s': Store, id: Key)
    requires ev.Import? && Linked(s) && Imported(s, ev, s') && id !in TransactionsOf(s'.items)
    ensures id !in ActiveIds(ev.list) && id !in ActiveTransactions(s.items)
  {
    if id in ActiveIds(ev.list) {
      var a :| a in ev.list && !a.retired && a.transaction == id;
      assert a in Elements(ev.list);
      var e' := ListedItem(s, ev, s', a);
      RememberedKeeps(a, s.profile.transactions);
    }
    if id in ActiveTransactions(s.items) {
      var e :| e in s.items && !e.retired && e.transaction == id;
      var a, e' := StoredItem(s, ev, s', e);
      RememberedKeeps(a, s.profile.transactions);
    }
  }

  lemma EditStaysLinked(s: Store, s': Store)
    requires Linked(s) && UserEdited(s, s')
    ensures Linked(s')
  {
  }

  lemma StepStaysLinked(s: Store, ev: Event, s': Store)
    requires Linked(s) && Step(s, ev, s')
    ensures Linked(s')
  {
    hide Linked, Imported, UserEdited;
    if ev.Import? {
      LiveAreUnretired(s, ev, s');
    } else {
      EditStaysLinked(s, s');
    }
  }

  // Edits survive a re-import ------------------------------------------------------------------------

  /** An item that stays active keeps the user's account, category, notes and visibility; its merchant
  changes only if it still was the one its previous product maps to, and then to the one its new
  product maps to. Date and amount follow the row. */
  lemma EditsSurvive(s: Store, ev: Event, s': Store, e: Item)
    requires ev.Import? && Linked(s) && Imported(s, ev, s')
    requires e in s.items && e.transaction in s.profile.transactions && e.transaction in s'.profile.transactions
    ensures exists e' :: e' in s'.items && e'.transaction == e.transaction && !e'.retired
              && var c := Lookup(s.profile, s.items, s'.profile.identities);
                 var t, t' := s.profile.transactions[e.transaction], s'.profile.transactions[e.transaction];
                 && t'.account == t.account && t'.category == t.category && t'.notes == t.notes && t'.hidden == t.hidden
                 && t'.date == e'.facts.date && t'.amount == e'.facts.amount
                 && (c.Merchant(e) == Some(t.merchant) ==> c.Merchant(e') == Some(t'.merchant))
                 && (c.Merchant(e) != Some(t.merchant) ==> t'.merchant == t.merchant)
  {
    LiveAreUnretired(s, ev, s');
    var a, e' := StoredItem(s, ev, s', e);
    hide Imported, NextTransaction, NextLocal, Lookup.Covers;
    var c := Lookup(s.profile, s.items, s'.profile.identities);
    var r := Remembered(a, s.profile.transactions);
    RememberedKeeps(a, s.profile.transactions);
    OnlyPrior(c, e, s.profile.transactions[e.transaction].merchant);
    hide StillProviderMerchant, Linked, Remembered;
    assert !e'.retired && e'.transaction == e.transaction;
    NextOfLive(c, r, e');
  }

  lemma NextOfLive(c: Lookup, r: Item, e': Item)
    requires c.Covers(r) && r.transaction in c.before.transactions && e'.order == r.order && e'.facts == r.facts
    ensures
      var t, t' := c.before.transactions[r.transaction], NextTransaction(c, r);
      && t'.account == t.account && t'.category == t.category && t'.notes == t.notes && t'.hidden == t.hidden
      && t'.date == e'.facts.date && t'.amount == e'.facts.amount
      && Some(t'.merchant) == if StillProviderMerchant(c, r, t.merchant) then c.Merchant(e') else Some(t.merchant)
  {
    hide StillProviderMerchant, Resolve;
    assert Product(e') == Product(r);
  }

  lemma OnlyPrior(c: Lookup, e: Item, merchant: Id)
    requires DistinctItems(c.prior) && e in c.prior
    ensures forall a: Item :: a.transaction == e.transaction ==>
              (StillProviderMerchant(c, a, merchant) <==> c.Merchant(e) == Some(merchant))
  {
  }

  // Retirement and restoration ---------------------------------------------------------------------

  ghost predicate Holds(s: Store, e: Item, retired: bool) {
    e in s.items && e.retired == retired
  }

  // Retiring an item stores the user fields of its transaction.
  lemma RetiringRemembers(s: Store, ev: Event, s': Store, e: Item, e': Item)
    requires Linked(s) && Step(s, ev, s')
    requires Holds(s, e, false) && Holds(s', e', true) && e'.transaction == e.transaction
    requires e.transaction in s.profile.transactions
    ensures e'.local == LocalOf(s.profile.transactions[e.transaction])
  {
    if ev.Import? {
      var a, b := StoredItem(s, ev, s', e);
      RememberedKeeps(a, s.profile.transactions);
      ItemsStayDistinct(s, ev, s');
      hide Imported;
      assert b == e';
    }
  }

  // A retired item keeps them.
  lemma RetiredKeeps(s: Store, ev: Event, s': Store, e: Item, e': Item)
    requires Linked(s) && Step(s, ev, s')
    requires Holds(s, e, true) && Holds(s', e', true) && e'.transaction == e.transaction
    ensures e'.local == e.local
  {
    if ev.Import? {
      var a, b := StoredItem(s, ev, s', e);
      RememberedKeeps(a, s.profile.transactions);
      ItemsStayDistinct(s, ev, s');
      hide Imported;
      assert b == e';
    }
  }

  /** The transaction a restored item gets for remembered user fields: each reference resolved through
  the merges made meanwhile. */
  ghost predicate RestoredFrom(s: Store, s': Store, local: Local, e': Item, t': Transaction)
    requires local.category.Some?
  {
    var c := Lookup(s.profile, s.items, s'.profile.identities);
    && c.Covers(e')
    && t'.account == ActiveAccount(s.profile.accounts, local.account, c.Account(e').value)
    && t'.merchant == Destination(s.profile.merchants, local.merchant, c.Merchant(e').value)
    && t'.category == Destination(s.profile.categories, local.category.value, UNCATEGORIZED)
    && t'.notes == local.notes && t'.hidden == local.hidden
  }

  /** The end of the merge chain, or the fallback when no chain ends in an active entity. */
  ghost predicate Followed(t: Table, from: Id, fallback: Id, to: Id) {
    LeadsTo(t, from, to) || (to == fallback && forall x :: !LeadsTo(t, from, x))
  }

  /** A transaction came back as it was before its item was retired: notes and visibility unchanged, the account
  unless it is no longer active, merchant and category followed through merges. */
  ghost predicate ComesBack(s: Store, s': Store, t: Transaction, e': Item, t': Transaction) {
    var c := Lookup(s.profile, s.items, s'.profile.identities);
    && c.Covers(e') && t'.notes == t.notes && t'.hidden == t.hidden
    && t'.account == (if MergeChains.Active(s.profile.accounts, t.account) then t.account else c.Account(e').value)
    && Followed(s.profile.merchants, t.merchant, c.Merchant(e').value, t'.merchant)
    && Followed(s.profile.categories, t.category, UNCATEGORIZED, t'.category)
  }

  lemma DestinationFollows(t: Table, from: Id, fallback: Id)
    ensures Followed(t, from, fallback, Destination(t, from, fallback))
  {
    hide LeadsTo;
  }

  lemma RestoredComesBack(s: Store, s': Store, t: Transaction, e': Item, t': Transaction)
    requires RestoredFrom(s, s', LocalOf(t), e', t')
    ensures ComesBack(s, s', t, e', t')
  {
    var c := Lookup(s.profile, s.items, s'.profile.identities);
    DestinationFollows(s.profile.merchants, t.merchant, c.Merchant(e').value);
    DestinationFollows(s.profile.categories, t.category, UNCATEGORIZED);
    hide Destination, Followed;
  }

  // Restoring an item reads them back.
  lemma RestoringReads(s: Store, ev: Event, s': Store, e: Item, e': Item)
    requires Linked(s) && Step(s, ev, s') && e.local.category.Some?
    requires Holds(s, e, true) && Holds(s', e', false) && e'.transaction == e.transaction
    ensures e.transaction in s'.profile.transactions
    ensures RestoredFrom(s, s', e.local, e', s'.profile.transactions[e.transaction])
  {
    if ev.Import? {
      var a, b := StoredItem(s, ev, s', e);
      RememberedKeeps(a, s.profile.transactions);
      ItemsStayDistinct(s, ev, s');
      hide Imported, NextTransaction, Lookup.Covers, NextLocal, RestoredFrom;
      assert b == e';
      var c := Lookup(s.profile, s.items, s'.profile.identities);
      assert Remembered(a, s.profile.transactions) == a;
      NextOfRestored(s, s', c, a, e');
    }
  }

  lemma NextOfRestored(s: Store, s': Store, c: Lookup, a: Item, e': Item)
    requires c == Lookup(s.profile, s.items, s'.profile.identities) && c.Covers(a)
    requires a.transaction !in s.profile.transactions && a.local.category.Some?
    requires e'.order == a.order && e'.facts == a.facts
    ensures RestoredFrom(s, s', a.local, e', NextTransaction(c, a))
  {
    hide Destination, Resolve;
    assert Product(e') == Product(a);
  }

  ghost predicate History(states: seq<Store>, events: seq<Event>) {
    && |states| == |events| + 1
    && forall i :: 0 <= i < |events| ==> Step(states[i], events[i], states[i + 1])
  }

  lemma HistoryStep(states: seq<Store>, events: seq<Event>, k: nat)
    requires History(states, events) && k < |events|
    ensures |states| == |events| + 1 && Step(states[k], events[k], states[k + 1])
  {
    hide Step;
  }

  lemma HistoryLength(states: seq<Store>, events: seq<Event>)
    requires History(states, events)
    ensures |states| == |events| + 1
  {
    hide Step;
  }

  lemma {:induction false} HistoryStaysLinked(states: seq<Store>, events: seq<Event>, k: nat)
    requires History(states, events) && k < |states| && Linked(states[0])
    ensures Linked(states[k])
  {
    hide Linked, Step, History;
    HistoryLength(states, events);
    if k > 0 {
      HistoryStaysLinked(states, events, k - 1);
      HistoryStep(states, events, k - 1);
      StepStaysLinked(states[k - 1], events[k - 1], states[k]);
    }
  }

  // `items[j]` is one item's record in every state from `i` to `k`, retired from `i + 1` on.
  ghost predicate RetiredBetween(states: seq<Store>, items: seq<Item>, i: nat, k: nat) {
    && i < k < |states| && |items| == |states|
    && Holds(states[i], items[i], false)
    && (forall j :: i < j <= k ==> Holds(states[j], items[j], true))
    && (forall j :: i <= j <= k ==> items[j].transaction == items[i].transaction)
  }

  lemma {:induction false} RememberedThroughout(states: seq<Store>, events: seq<Event>, items: seq<Item>, i: nat,
    k: nat)
    requires History(states, events) && RetiredBetween(states, items, i, k) && Linked(states[0])
    requires items[i].transaction in states[i].profile.transactions
    ensures items[k].local == LocalOf(states[i].profile.transactions[items[i].transaction])
    decreases k
  {
    hide Linked, Step, History;
    HistoryLength(states, events);
    HistoryStaysLinked(states, events, k - 1);
    HistoryStep(states, events, k - 1);
    if k == i + 1 {
      RetiringRemembers(states[i], events[i], states[k], items[i], items[k]);
    } else {
      RememberedThroughout(states, events, items, i, k - 1);
      RetiredKeeps(states[k - 1], events[k - 1], states[k], items[k - 1], items[k]);
    }
  }

  /** Retiring and later restoring an item is a round trip, whatever imports and edits happen while it
  is retired: the same transaction comes back with the category, merchant, account, notes and
  visibility it had, each reference followed through merges made meanwhile. */
  lemma RetireRestoreRoundTrip(states: seq<Store>, events: seq<Event>, items: seq<Item>, i: nat, k: nat, restored: Item)
    requires History(states, events) && RetiredBetween(states, items, i, k) && k < |events| && Linked(states[0])
    requires items[i].transaction in states[i].profile.transactions
    requires Holds(states[k + 1], restored, false) && restored.transaction == items[i].transaction
    ensures restored.transaction in states[k + 1].profile.transactions
    ensures ComesBack(states[k], states[k + 1], states[i].profile.transactions[items[i].transaction], restored,
                      states[k + 1].profile.transactions[restored.transaction])
  {
    hide Linked, Step, RestoredFrom, ComesBack, History;
    HistoryLength(states, events);
    HistoryStaysLinked(states, events, k);
    RememberedThroughout(states, events, items, i, k);
    HistoryStep(states, events, k);
    RestoringReads(states[k], events[k], states[k + 1], items[k], restored);
    RestoredComesBack(states[k], states[k + 1], states[i].profile.transactions[items[i].transaction], restored,
                      states[k + 1].profile.transactions[restored.transaction]);
  }

  /** In particular references that are still active come back unchanged. */
  lemma ActiveReferencesComeBack(s: Store, s': Store, t: Transaction, e': Item, t': Transaction)
    requires ComesBack(s, s', t, e', t')
    ensures MergeChains.Active(s.profile.categories, t.category) ==> t'.category == t.category
    ensures MergeChains.Active(s.profile.merchants, t.merchant) ==> t'.merchant == t.merchant
    ensures MergeChains.Active(s.profile.accounts, t.account) ==> t'.account == t.account
  {
    if MergeChains.Active(s.profile.categories, t.category) {
      ActiveLeadsToItself(s.profile.categories, t.category);
    }
    if MergeChains.Active(s.profile.merchants, t.merchant) {
      ActiveLeadsToItself(s.profile.merchants, t.merchant);
    }
  }

  // One import as the program builds it --------------------------------------------------------------

  predicate SourceBefore(a: Item, b: Item) {
    a.source < b.source
  }

  ghost predicate DistinctSources(items: set<Item>) {
    forall a, b :: a in items && b in items && a.source == b.source ==> a == b
  }

  ghost predicate ProposedSources(items: set<Item>, sources: seq<Key>) {
    && (forall i, j :: 0 <= i < j < |sources| ==> sources[i] != sources[j])
    && (forall i, e :: 0 <= i < |sources| && e in items ==> sources[i] != e.source)
  }

  lemma NewSources(items: set<Item>, added: set<Row>, ids: seq<Key>, sources: seq<Key>)
    requires |added| <= |ids| && |added| <= |sources| && Ranked(added) && DistinctRows(added)
    requires ProposedSources(items, sources)
    ensures DistinctSources(NewItems(added, ids, sources))
    ensures forall e, x :: e in items && x in NewItems(added, ids, sources) ==> e.source != x.source
  {
    InsertTotal(added);
    hide DistinctRows, InsertBefore;
    forall x, y | x in NewItems(added, ids, sources) && y in NewItems(added, ids, sources) && x.source == y.source
        ensures x == y
    {
      var q :| q in added && x == NewItem(added, ids, sources, q);
      var r :| r in added && y == NewItem(added, ids, sources, r);
      RankInjective(q, r, added, InsertBefore);
    }
  }

  lemma OldSources(items: set<Item>, rows: set<Row>, orders: set<Key>)
    requires DistinctItems(items) && DistinctRows(rows) && DistinctSources(items)
    ensures DistinctSources(AfterItems(items, rows, orders))
    ensures forall x :: x in AfterItems(items, rows, orders) ==> exists e :: e in items && e.source == x.source
  {
    forall e | e in items ensures ItemAfter(items, rows, orders, e).source == e.source {
      ItemAfterFacts(items, rows, orders, e);
    }
    hide ItemAfter, DistinctItems, DistinctRows;
  }

  /** Source identities stay unique, so the result can be listed by source. */
  lemma RunKeepsSources(items: set<Item>, rows: set<Row>, orders: set<Key>, ids: seq<Key>, sources: seq<Key>,
    s: Summary)
    requires DistinctItems(items) && DistinctRows(rows) && DistinctSources(items) && ProposedSources(items, sources)
    requires Reconciled(items, rows, orders, ids, sources, s)
    ensures DistinctSources(s.items)
  {
    var added := NewIn(items, rows, orders);
    assert DistinctRows(added) by { hide MatchIn; }
    ReconciledItems(items, rows, orders, ids, sources, s);
    hide Reconciled, MatchIn, NewIn, NewItems, DistinctItems, DistinctRows, Ranked, AfterItems;
    NewSources(items, added, ids, sources);
    OldSources(items, rows, orders);
  }

  lemma ListedDistinct(items: set<Item>, list: seq<Item>)
    requires DistinctItems(items) && Elements(list) == items && Sorted(list, SourceBefore)
    ensures DistinctTransactions(list)
  {
    forall i, j | 0 <= i < j < |list| ensures list[i].transaction != list[j].transaction {
      assert list[i] in Elements(list) && list[j] in Elements(list);
      assert SourceBefore(list[i], list[j]);
    }
  }

  // Proposed identifiers are enough ---------------------------------------------------------------------

  ghost predicate NamedItem(p: Profile, e: Item) {
    && Resolve(p.identities, AccountKind, OrderExternal(e.order)).Some?
    && Resolve(p.identities, MerchantKind, ProductExternal(Product(e))).Some?
  }

  /** Every active item's order and product name an account and a merchant. */
  ghost predicate Named(s: Store) {
    forall e :: e in s.items && !e.retired ==> NamedItem(s.profile, e)
  }

  /** Every import leaves all active items named. */
  lemma ImportNames(s: Store, ev: Event, s': Store)
    requires ev.Import? && Imported(s, ev, s')
    ensures Named(s')
  {
    var c := Lookup(s.profile, s.items, s'.profile.identities);
    assert ItemsFinished(c, ev.list, ev.finished);
    forall e | e in s'.items && !e.retired
      ensures NamedItem(s'.profile, e)
    {
      var k :| 0 <= k < |ev.finished| && ev.finished[k] == e;
      var a := Remembered(ev.list[k], s.profile.transactions);
      assert !a.retired && c.Covers(a) && e == Finished(c, a);
      hide Reconciled, NextLocal, TablesGrow, TransactionsWritten, Remembered, Resolve;
    }
  }

  // After a run an active item of an order that was not observed is as it was stored.
  lemma UnobservedIsStored(items: set<Item>, rows: set<Row>, orders: set<Key>, ids: seq<Key>, sources: seq<Key>,
    s: Summary, e: Item)
    requires DistinctItems(items) && DistinctRows(rows)
    requires Reconciled(items, rows, orders, ids, sources, s) && e in s.items && e.order !in orders
    ensures e in items
  {
    var added := NewIn(items, rows, orders);
    if e !in NewItems(added, ids, sources) {
      var x :| x in items && ItemAfter(items, rows, orders, x) == e;
      SettledOrder(items, rows, x);
    }
  }

  lemma SettledOrder(items: set<Item>, rows: set<Row>, e: Item)
    requires DistinctItems(items) && DistinctRows(rows)
    ensures Settle(MatchIn(items, rows, e.order), e).order == e.order
  {
    MatchStaysInOrder(items, rows, e.order);
    hide MatchIn, DistinctItems, DistinctRows, OneToOne;
  }

  ghost function RowProduct(r: Row): External {
    ProductExternal(if r.facts.asin.Some? then Asin(r.facts.asin.value) else Asinless(r.facts.asinlessKey))
  }

  lemma {:induction false} ImageAtMost<A, B>(s: set<A>, f: A -> B)
    ensures |Image(s, f)| <= |s|
    decreases |s|
  {
    if s == {} {
      assert Image(s, f) == {};
    } else {
      var x :| x in s;
      ImageAtMost(s - {x}, f);
      assert Image(s, f) == Image(s - {x}, f) + {f(x)};
    }
  }

  /** The row's order or product label has no collision key. */
  ghost predicate UnnameableRow(r: Row, orderLabel: Key -> string, productLabel: Key -> string,
    collisionKey: string -> Option<string>)
  {
    Unnameable(orderLabel(r.order), collisionKey) || Unnameable(productLabel(r.facts.product), collisionKey)
  }

  lemma UnnameableComesFromRow(
    s: Store, rows: set<Row>, orders: set<Key>, ids: seq<Key>, sources: seq<Key>, summary: Summary, list: seq<Item>,
    orderLabel: Key -> string, productLabel: Key -> string, collisionKey: string -> Option<string>)
    returns (r: Row)
    requires Named(s) && DistinctItems(s.items) && DistinctRows(rows) && Proposed(s.items, ids)
    requires Reconciled(s.items, rows, orders, ids, sources, summary) && Elements(list) == summary.items
    requires UnnameableItem(s.profile, list, orderLabel, productLabel, collisionKey)
    ensures r in rows && UnnameableRow(r, orderLabel, productLabel, collisionKey)
  {
    hide Reconciled, DistinctItems, DistinctRows, Proposed, Resolve, RowProduct, OneToOne, Unnameable;
    var holders := RunMirrorsRows(s.items, rows, orders, ids, sources, summary);
    var e :| e in list && !e.retired && UnnameableAs(s.profile, e, orderLabel, productLabel, collisionKey);
    assert e in Elements(list) && !NamedItem(s.profile, e);
    if e.order !in orders {
      UnobservedIsStored(s.items, rows, orders, ids, sources, summary, e);
    }
    r := HolderOf(summary.items, rows, orders, holders, e);
  }

  /** Between imports, one account identifier per observed order and one merchant identifier per row are
  always enough. */
  lemma ProposalsSuffice(
    s: Store, rows: set<Row>, orders: set<Key>, ids: seq<Key>, sources: seq<Key>, summary: Summary, list: seq<Item>)
    requires Named(s) && DistinctItems(s.items) && DistinctRows(rows) && Proposed(s.items, ids)
    requires Reconciled(s.items, rows, orders, ids, sources, summary) && Elements(list) == summary.items
    ensures |NewOrders(s.profile, list)| <= |orders| && |NewProducts(s.profile, list)| <= |rows|
  {
    hide Reconciled, DistinctItems, DistinctRows, Proposed, Resolve, NewOrders, NewProducts, RowProduct, OneToOne;
    var holders := RunMirrorsRows(s.items, rows, orders, ids, sources, summary);
    forall e | e in list && !e.retired && !NamedItem(s.profile, e)
      ensures e.order in orders && exists r :: r in rows && RowProduct(r) == ProductExternal(Product(e))
    {
      assert e in Elements(list);
      if e.order !in orders {
        UnobservedIsStored(s.items, rows, orders, ids, sources, summary, e);
      }
      var r := HolderOf(summary.items, rows, orders, holders, e);
    }
    var orderKeys, productKeys := Image(orders, o => OrderExternal(o)), Image(rows, r => RowProduct(r));
    ImageAtMost(orders, o => OrderExternal(o));
    ImageAtMost(rows, r => RowProduct(r));
    forall x | x in NewOrders(s.profile, list)
      ensures x in orderKeys
    {
      var e := NewOrderOf(s.profile, list, x);
    }
    forall x | x in NewProducts(s.profile, list)
      ensures x in productKeys
    {
      var e := NewProductOf(s.profile, list, x);
    }
    SubsetSize(NewOrders(s.profile, list), orderKeys);
    SubsetSize(NewProducts(s.profile, list), productKeys);
  }

  lemma HolderOf(items: set<Item>, rows: set<Row>, orders: set<Key>, holders: set<Pair>, e: Item) returns (r: Row)
    requires Mirror(items, rows, orders, holders) && e in items && !e.retired && e.order in orders
    ensures r in rows && RowProduct(r) == ProductExternal(Product(e)) && r.order == e.order && r.facts == e.facts
  {
    assert e in ItemsOf(holders);
    var p :| p in holders && p.0 == e;
    r := p.1;
    assert r in RowsOf(holders);
  }

  lemma NewOrderOf(p: Profile, list: seq<Item>, x: External) returns (e: Item)
    requires x in NewOrders(p, list)
    ensures e in list && !e.retired && !NamedItem(p, e) && x == OrderExternal(e.order)
  {
    e :| e in list && !e.retired && Resolve(p.identities, AccountKind, OrderExternal(e.order)).None?
        && x == OrderExternal(e.order);
  }

  lemma NewProductOf(p: Profile, list: seq<Item>, x: External) returns (e: Item)
    requires x in NewProducts(p, list)
    ensures e in list && !e.retired && !NamedItem(p, e) && x == ProductExternal(Product(e))
  {
    e :| e in list && !e.retired && Resolve(p.identities, MerchantKind, ProductExternal(Product(e))).None?
         && x == ProductExternal(Product(e));
  }

  // Merged merchants refuse imports -----------------------------------------------------------------------

  /** No import is refused for its references while every order's account and every product's merchant is active. */
  lemma UnmergedIsAccepted(p: Profile, prior: set<Item>, items: seq<Item>)
    requires forall x :: x in p.identities ==>
               && (p.identities[x].kind == AccountKind ==> MergeChains.Active(p.accounts, p.identities[x].entity))
               && (p.identities[x].kind == MerchantKind ==> MergeChains.Active(p.merchants, p.identities[x].entity))
    ensures NoneTakesRetired(p, prior, items)
  {
    hide TakesProviderAccount, TakesProviderMerchant, Remembered, MergeChains.Active;
  }

  /** A completed import gave no item a retired merchant or account. */
  lemma ImportedTakesNothingRetired(s: Store, ev: Event, s': Store)
    requires ev.Import? && Imported(s, ev, s') && References(s.profile) && IdentitiesFit(s.profile)
    requires MergeChains.Active(s.profile.categories, UNCATEGORIZED)
    ensures NoneTakesRetired(s.profile, s.items, ev.list)
  {
    hide Reconciled, Materialized, NoneTakesRetired, References, IdentitiesFit;
    ReferencesStayActive(s.profile, s.items, ev.list, s'.profile, ev.finished);
  }

  /** After the user merged a product's merchant into another one, every import that brings a new item of that product
  leaves a live transaction of a retired merchant, so it is refused. */
  lemma MergedProductIsRefused(
    q: Profile, source: Id, target: Id, p: Profile, prior: set<Item>, items: seq<Item>, k: nat, p': Profile,
    items': seq<Item>)
    requires MergeChains.Active(q.merchants, source)
    requires p.merchants == Merged(q.merchants, source, target) && p.identities == q.identities
    requires References(p) && IdentitiesFit(p) && MergeChains.Active(p.categories, UNCATEGORIZED)
    requires k < |items| && !items[k].retired && items[k].transaction !in p.transactions
        && items[k].local.category.None?
    requires Resolve(p.identities, MerchantKind, ProductExternal(Product(items[k]))) == Some(source)
    requires Materialized(p, prior, items, p', items')
    ensures !NoneTakesRetired(p, prior, items) && !References(p')
  {
    ReferencesStayActive(p, prior, items, p', items');
    hide Materialized, References, IdentitiesFit;
    assert TakesRetired(p, prior, Remembered(items[k], p.transactions));
  }

  const KEYS: string -> Option<string> :=
    text => if text == "Uncategorized" then Some("uncategorized") else if text == "Split" then Some("split")
        else Some(text)
  const SOLD := Facts(Some(1), 0, 0, 0, 1, 0, None, 0, 0, 0, 0, 0, 0)
  const OLD_ITEM := Item(1, 1, 1, SOLD, false, NO_LOCAL)
  const NEW_ITEM := Item(2, 2, 1, SOLD, false, NO_LOCAL)
  const ORDER := Entity("order", "order", false, None)
  const LAMP := Entity("lamp", "lamp", false, None)
  const LAMPS := Entity("lamps", "lamps", false, None)

  /** A profile with one sale, the product's merchant `first` and another merchant `second`. */
  function Shop(merchants: Table, merchant: Id): Profile {
    Profile(
      map["account" := ORDER], merchants, PROTECTED_GROUPS, PROTECTED_CATEGORIES,
      map[UNCATEGORIZED := UNCATEGORIZED_GROUP, SPLIT := UNCATEGORIZED_GROUP],
      map[OrderExternal(1) := Identity(AccountKind, "account"),
          ProductExternal(Asin(1)) := Identity(MerchantKind, "first")],
      map[1 := Transaction(1, "account", merchant, UNCATEGORIZED, 0, 0, 0, 0, 0, false)])
  }

  const LAMP_SHOP := Shop(map["first" := LAMP, "second" := LAMPS], "first")
  const MERGED_SHOP := Shop(Merged(map["first" := LAMP, "second" := LAMPS], "first", "second"), "second")

  /** Such an input: a valid profile with one sale, the same profile after a merge, and a second item of the
  product. */
  lemma MergedShopIsRefused()
    ensures ValidProfile(LAMP_SHOP, KEYS) && ValidProfile(MERGED_SHOP, KEYS)
    ensures MERGED_SHOP.merchants == Merged(LAMP_SHOP.merchants, "first", "second")
    ensures UserEdited(Store(LAMP_SHOP, {OLD_ITEM}), Store(MERGED_SHOP, {OLD_ITEM}))
    ensures NoneTakesRetired(LAMP_SHOP, {OLD_ITEM}, [OLD_ITEM, NEW_ITEM])
    ensures !NoneTakesRetired(MERGED_SHOP, {OLD_ITEM}, [OLD_ITEM, NEW_ITEM])
  {
    assert |"first"| != |"second"| && |LAMP.key| != |LAMPS.key|;
    hide LabelsFit, DistinctKeys, MergesFit, TaxonomyFits, ValidProfile, Merged;
    TwoEntitiesFit(LAMP_SHOP.merchants, "first", LAMP, "second", LAMPS, KEYS);
    ShopIsValid(LAMP_SHOP.merchants, "first");
    MergedPairFits("first", LAMP, "second", LAMPS, KEYS);
    ShopIsValid(MERGED_SHOP.merchants, "second");
    UnmergedIsAccepted(LAMP_SHOP, {OLD_ITEM}, [OLD_ITEM, NEW_ITEM]);
    NewItemTakesRetired();
  }

  lemma NewItemTakesRetired()
    ensures !NoneTakesRetired(MERGED_SHOP, {OLD_ITEM}, [OLD_ITEM, NEW_ITEM])
  {
    MergedPairFits("first", LAMP, "second", LAMPS, KEYS);
    hide Merged, LabelsFit, DistinctKeys, MergesFit;
    assert TakesRetired(MERGED_SHOP, {OLD_ITEM}, Remembered(NEW_ITEM, MERGED_SHOP.transactions));
    assert [OLD_ITEM, NEW_ITEM][1] == NEW_ITEM;
    hide TakesRetired;
  }

  lemma ShopIsValid(merchants: Table, merchant: Id)
    requires LabelsFit(merchants, KEYS) && DistinctKeys(merchants) && MergesFit(merchants)
    requires "first" in merchants && merchant in merchants && !merchants[merchant].retired
    ensures ValidProfile(Shop(merchants, merchant), KEYS)
  {
    hide LabelsFit, DistinctKeys, MergesFit, TaxonomyFits;
    ProtectedAreValid(Shop(merchants, merchant), KEYS);
    TwoEntitiesFit(map["account" := ORDER], "account", ORDER, "account", ORDER, KEYS);
  }

  // The plan ------------------------------------------------------------------------------------------------

  datatype Settings = Settings(currency: Key, scale: int)

  datatype Request = Request(rows: seq<Row>, observed: seq<Key>, settings: Settings, clone: Option<Taxonomy>)

  /** The identifiers the store drew for an import. */
  datatype Proposals = Proposals(
    ids: seq<Key>, sources: seq<Key>, accountIds: seq<Id>, merchantIds: seq<Id>, groupIds: seq<Id>,
    categoryIds: seq<Id>)

  /** Later imports use the first one's settings, and only the first one may copy a taxonomy. */
  predicate SettingsFit(current: Option<Settings>, request: Request, validCurrency: Key -> bool) {
    && validCurrency(request.settings.currency) && request.settings.scale <= 9
    && (current.Some? ==> current.value == request.settings && request.clone.None?)
  }

  /** The program proposes one identifier per row, and one account per observed order. */
  ghost predicate EnoughProposed(request: Request, proposed: Proposals) {
    && |proposed.ids| >= |request.rows| && |proposed.sources| >= |request.rows|
       && |proposed.merchantIds| >= |request.rows|
    && |proposed.accountIds| >= |request.observed|
  }

  ghost predicate FreshProposals(profile: Profile, items: set<Item>, proposed: Proposals) {
    && Proposed(items, proposed.ids) && (forall id :: id in proposed.ids ==> id !in profile.transactions)
    && ProposedSources(items, proposed.sources)
    && SpareIds(proposed.accountIds, 0, profile.accounts) && SpareIds(proposed.merchantIds, 0, profile.merchants)
    && Unused(proposed.groupIds) && Unused(proposed.categoryIds)
  }

  /** The profile an import starts from: the saved one, with a taxonomy if it has no Amazon settings yet. */
  ghost predicate StartsFrom(profile: Profile, current: Option<Settings>, request: Request, proposed: Proposals,
    start: Profile)
  {
    if current.Some? then start == profile
    else exists groups, categories ::
           Initialized(profile, request.clone, proposed.groupIds, proposed.categoryIds, groups, categories, start)
  }

  lemma StartKeeps(profile: Profile, current: Option<Settings>, request: Request, proposed: Proposals, start: Profile)
    requires StartsFrom(profile, current, request, proposed, start)
    ensures start == profile.(groups := start.groups, categories := start.categories, groupOf := start.groupOf)
  {
  }

  /** Reconciles the stored items with an export and materializes the result.  `event` records the step for the
  histories above, `start` the profile it starts from and `candidate` the one that was validated. */
  method BuildImportPlan(
    profile: Profile, existing: seq<Item>, current: Option<Settings>, emptyJournal: bool, request: Request,
    proposed: Proposals,
    naming: Naming, validCurrency: Key -> bool, rebases: (Profile, Profile) -> bool)
    returns (r: Result<(Profile, seq<Item>, Summary), Refusal>, ghost event: Event, ghost start: Profile,
        ghost candidate: Profile)
    requires Linked(Store(profile, Elements(existing))) && DistinctSources(Elements(existing))
        && DistinctRows(Elements(request.rows))
    requires FreshProposals(profile, Elements(existing), proposed)
    requires Digests(naming)
    ensures r == Failure(SettingsRefused) <==> !SettingsFit(current, request, validCurrency)
    ensures r != Failure(SettingsRefused) ==>
      && validCurrency(request.settings.currency) && request.settings.scale <= 9
      && (current.Some? ==> current.value == request.settings && request.clone.None?)
    ensures r == Failure(SettingsRefused) && validCurrency(request.settings.currency) && request.settings.scale <= 9 ==>
      current.Some? && (current.value != request.settings || request.clone.Some?)
    ensures r == Failure(ItemsExhausted) ==> !EnoughProposed(request, proposed)
    ensures r == Failure(TaxonomyRefused) ==>
      current.None? && CopyFails(request.clone, proposed.groupIds, proposed.categoryIds)
    ensures r == Failure(Unassigned) && Named(Store(profile, Elements(existing))) ==>
      || !EnoughProposed(request, proposed)
      || exists row ::
           row in request.rows && UnnameableRow(row, naming.orderLabel, naming.productLabel, naming.collisionKey)
    ensures r.Success? || r == Failure(InvalidProfile) || r == Failure(RebaseRefused) ==>
      && StartsFrom(profile, current, request, proposed, start)
      && event.Import? && event.rows == Elements(request.rows) && event.orders == Elements(request.observed)
      && Materialized(start, Elements(existing), event.list, candidate, event.finished)
      && NewOnesCalled(start, event.list, candidate, naming)
      && Elements(event.list) == event.summary.items
      && Reconciled(Elements(existing), event.rows, event.orders, proposed.ids, proposed.sources, event.summary)
    ensures r == Failure(InvalidProfile) ==> !ValidProfile(candidate, naming.collisionKey)
    ensures r.Success? || r == Failure(InvalidProfile) || r == Failure(RebaseRefused) ==>
      ValidProfile(start, naming.collisionKey) ==>
        (r == Failure(InvalidProfile) <==>
         !NoneTakesRetired(start, Elements(existing), event.list) || LabelsClash(candidate, naming.collisionKey))
    ensures r == Failure(RebaseRefused) ==>
      !rebases(profile, candidate) && !(current.None? && profile.transactions == map[] && emptyJournal)
    ensures r.Success? ==>
      rebases(profile, candidate) || (current.None? && profile.transactions == map[] && emptyJournal)
    ensures r.Success? ==>
      && r.value.0 == candidate && r.value.2 == event.summary && ValidProfile(candidate, naming.collisionKey)
      && Step(Store(start, Elements(existing)), event, Store(r.value.0, Elements(r.value.1)))
  {
    hide Named, NewOrders, NewProducts, UnnameableItem, NewIn, ValidProfile, NoneTakesRetired, LabelsClash, CopyFails,
         Initialized, NewOnesCalled;
    ElementsSize(request.rows);
    ElementsSize(request.observed);
    OneIdPerRowSuffices(Elements(existing), request.rows, Elements(request.observed));
    hide Proposed, DistinctRows, DistinctSources, ProposedSources, SpareIds, Reconciled, Materialized,
         DistinctTransactions, DistinctKeys,
         OutOfSuffixes, Unused, References, StartsFrom;
    event, start, candidate := Edit, profile, profile;
    if !SettingsFit(current, request, validCurrency) {
      return Failure(SettingsRefused), event, start, candidate;
    }
    var summary := ReconcileRows(existing, request.rows, request.observed, proposed.ids, proposed.sources);
    if summary.None? {
      return Failure(ItemsExhausted), event, start, candidate;
    }
    var committed := profile;
    if current.None? {
      var taxonomy, groups, categories :=
          InitializeTaxonomy(profile, request.clone, proposed.groupIds, proposed.categoryIds);
      if taxonomy.None? {
        return Failure(TaxonomyRefused), event, start, candidate;
      }
      committed := taxonomy.value;
      StartIs(profile, request, proposed, groups, categories, committed);
    } else {
      StartIsSaved(profile, current, request, proposed);
    }
    start := committed;
    StartKeeps(profile, current, request, proposed, start);
    RunKeepsIdentities(Elements(existing), Elements(request.rows), Elements(request.observed), proposed.ids,
        proposed.sources, summary.value);
    RunKeepsSources(Elements(existing), Elements(request.rows), Elements(request.observed), proposed.ids,
        proposed.sources, summary.value);
    SourcesTotal(summary.value.items);
    var list := Sort(summary.value.items, SourceBefore);
    ListedDistinct(summary.value.items, list);
    var made;
    ghost var finished;
    made, candidate, finished := Materialize(
      committed, existing, list, proposed.accountIds, proposed.merchantIds, naming);
    event := Import(
      Elements(request.rows), Elements(request.observed), proposed.ids, proposed.sources, summary.value, list,
          finished);
    if made.Failure? {
      if made.error == Unassigned && Named(Store(profile, Elements(existing))) {
        NamedStart(profile, start, Elements(existing));
        ProposalsSuffice(Store(start, Elements(existing)), event.rows, event.orders, proposed.ids, proposed.sources,
            summary.value, list);
        if UnnameableItem(start, list, naming.orderLabel, naming.productLabel, naming.collisionKey) {
          ghost var row := UnnameableComesFromRow(
            Store(start, Elements(existing)), event.rows, event.orders, proposed.ids, proposed.sources, summary.value,
                list,
            naming.orderLabel, naming.productLabel, naming.collisionKey);
          assert row in request.rows;
        }
      }
      return Failure(made.error), event, start, candidate;
    }
    AcceptedReferences(candidate, naming.collisionKey);
    if !(current.None? && profile.transactions == map[] && emptyJournal) && !rebases(profile, made.value.0) {
      return Failure(RebaseRefused), event, start, candidate;
    }
    return Success((made.value.0, made.value.1, summary.value)), event, start, candidate;
  }

  lemma StartIs(
    profile: Profile, request: Request, proposed: Proposals, groups: seq<Id>, categories: seq<Id>, start: Profile)
    requires Initialized(profile, request.clone, proposed.groupIds, proposed.categoryIds, groups, categories, start)
    ensures StartsFrom(profile, None, request, proposed, start)
  {
    hide Initialized;
  }

  lemma StartIsSaved(profile: Profile, current: Option<Settings>, request: Request, proposed: Proposals)
    requires current.Some?
    ensures StartsFrom(profile, current, request, proposed, profile)
  {
  }

  lemma NamedStart(profile: Profile, start: Profile, items: set<Item>)
    requires Named(Store(profile, items)) && start.identities == profile.identities
    ensures Named(Store(start, items))
  {
    hide Resolve;
    forall e | e in items && !e.retired ensures NamedItem(start, e) {
      assert NamedItem(profile, e);
    }
  }

  lemma AcceptedReferences(p: Profile, collisionKey: string -> Option<string>)
    requires ValidProfile(p, collisionKey)
    ensures References(p)
  {
    hide LabelsFit, MergesFit, TaxonomyFits, References, IdentitiesFit, DistinctKeys;
  }

  lemma SourcesTotal(items: set<Item>)
    requires DistinctSources(items)
    ensures TotalOn(items, SourceBefore)
  {
  }
}
