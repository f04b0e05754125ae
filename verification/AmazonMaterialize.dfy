/** From reconciled Amazon items to the committed profile: provider accounts and merchants, the
transactions of the active items, and the user fields that survive retirement. */
module AmazonMaterialize {
  import opened Wrappers
  import opened Ranking
  import opened MergeChains
  import opened AmazonReconcile
  import opened AmazonProfile
  import opened AmazonNaming

  // Where user fields go ----------------------------------------------------------------------------

  function LocalOf(t: Transaction): Local {
    Local(t.account, t.merchant, Some(t.category), t.notes, t.hidden)
  }

  /** An item with a live transaction remembers that transaction's user fields. */
  function Remembered(e: Item, transactions: map<Key, Transaction>): Item {
    if e.transaction in transactions then e.(local := LocalOf(transactions[e.transaction])) else e
  }

  /** The active entity `from` was merged into, or the fallback. */
  ghost function Destination(t: Table, from: Id, fallback: Id): Id {
    if exists to :: LeadsTo(t, from, to) then
      var to :| LeadsTo(t, from, to); to
    else fallback
  }

  lemma DestinationIs(t: Table, from: Id, fallback: Id, to: Id)
    requires LeadsTo(t, from, to)
    ensures Destination(t, from, fallback) == to
  {
    LeadsToUnique(t, from, to, Destination(t, from, fallback));
  }

  function ActiveAccount(accounts: Table, requested: Id, fallback: Id): Id {
    if requested in accounts && !accounts[requested].retired then requested else fallback
  }

  /** What the materializer looks up while it writes transactions. */
  datatype Lookup = Lookup(before: Profile, prior: set<Item>, identities: map<External, Identity>) {
    function Account(e: Item): Option<Id> {
      Resolve(identities, AccountKind, OrderExternal(e.order))
    }

    function Merchant(e: Item): Option<Id> {
      Resolve(identities, MerchantKind, ProductExternal(Product(e)))
    }

    predicate Covers(e: Item) {
      Account(e).Some? && Merchant(e).Some?
    }
  }

  /** The prior product of a live item names this merchant, so the user never chose another one. */
  ghost predicate StillProviderMerchant(c: Lookup, e: Item, merchant: Id) {
    exists q :: q in c.prior && q.transaction == e.transaction && c.Merchant(q) == Some(merchant)
  }

  /** The user fields of the transaction an active item gets. */
  ghost function NextLocal(c: Lookup, e: Item): Local
    requires c.Covers(e)
  {
    if e.transaction in c.before.transactions then
      var previous := c.before.transactions[e.transaction];
      LocalOf(previous).(merchant :=
        if StillProviderMerchant(c, e, previous.merchant) then c.Merchant(e).value else previous.merchant)
    else if e.local.category.Some? then
      Local(ActiveAccount(c.before.accounts, e.local.account, c.Account(e).value),
            Destination(c.before.merchants, e.local.merchant, c.Merchant(e).value),
            Some(Destination(c.before.categories, e.local.category.value, UNCATEGORIZED)),
            e.local.notes, e.local.hidden)
    else
      Local(c.Account(e).value, c.Merchant(e).value, Some(UNCATEGORIZED), 0, false)
  }

  function TransactionFor(e: Item, local: Local): Transaction
    requires local.category.Some?
  {
    Transaction(e.source, local.account, local.merchant, local.category.value,
                e.facts.date, e.facts.amount, e.facts.currency, e.facts.scale, local.notes, local.hidden)
  }

  ghost function NextTransaction(c: Lookup, e: Item): Transaction
    requires c.Covers(e)
  {
    TransactionFor(e, NextLocal(c, e))
  }

  ghost function Finished(c: Lookup, e: Item): Item
    requires !e.retired ==> c.Covers(e)
  {
    if e.retired then e else e.(local := NextLocal(c, e))
  }

  ghost predicate DistinctTransactions(items: seq<Item>) {
    forall i, j :: 0 <= i < j < |items| ==> items[i].transaction != items[j].transaction
  }

  function ActiveIds(items: seq<Item>): set<Key> {
    set e | e in items && !e.retired :: e.transaction
  }

  // Remembering ---------------------------------------------------------------------------------------

  /** Copies the user fields of live transactions into their items, in place. */
  method Remember(items: seq<Item>, transactions: map<Key, Transaction>) returns (after: seq<Item>)
    ensures |after| == |items|
    ensures forall i :: 0 <= i < |items| ==> after[i] == Remembered(items[i], transactions)
  {
    after := items;
    for i := 0 to |items|
      invariant |after| == |items|
      invariant forall k :: 0 <= k < |items| ==>
          after[k] == if k < i then Remembered(items[k], transactions) else items[k]
    {
      if after[i].transaction in transactions {
        after := after[i := after[i].(local := LocalOf(transactions[after[i].transaction]))];
      }
    }
  }

  // Provider accounts and merchants -----------------------------------------------------------------

  /** One kind of provider entity while identifiers are being assigned. */
  datatype Directory = Directory(table: Table, identities: map<External, Identity>, reserved: set<string>, cursor: nat)

  /** Some label whose plain form and all 31 suffixed forms are taken. */
  ghost predicate OutOfSuffixes(reserved: set<string>, collisionKey: string -> Option<string>) {
    exists text, material :: NoSuffixFree(text, material, reserved, collisionKey)
  }

  ghost predicate NoSuffixFree(text: string, material: string, reserved: set<string>,
    collisionKey: string -> Option<string>)
  {
    && |material| == DIGEST_LENGTH && collisionKey(text).Some? && collisionKey(text).value in reserved
    && AllReserved(text, material, reserved, collisionKey, DIGEST_LENGTH + 1)
  }

  lemma OutOfSuffixesGrows(some: set<string>, reserved: set<string>, collisionKey: string -> Option<string>)
    requires some <= reserved && OutOfSuffixes(some, collisionKey)
    ensures OutOfSuffixes(reserved, collisionKey)
  {
    var text, material :| NoSuffixFree(text, material, some, collisionKey);
    assert NoSuffixFree(text, material, reserved, collisionKey);
  }

  /** Identifiers not used yet are distinct and unknown to the table. */
  ghost predicate SpareIds(ids: seq<Id>, cursor: nat, t: Table) {
    && (forall i, j :: cursor <= i < j < |ids| ==> ids[i] != ids[j])
    && (forall i :: cursor <= i < |ids| ==> ids[i] !in t)
  }

  // Finding an entity changes nothing; creating one only adds to the table, the identities of its
  // kind and the reserved labels.
  ghost predicate Grows(kind: Kind, d: Directory, d': Directory, ids: seq<Id>, collisionKey: string -> Option<string>) {
    && Extends(d.table, d'.table) && d.cursor <= d'.cursor && SpareIds(ids, d'.cursor, d'.table)
    && IdentitiesKept(kind, d.identities, d'.identities)
    && d'.reserved == d.reserved + ActiveKeys(d'.table)
    && NewOnesFit(d.table, d'.table, collisionKey) && NamesFresh(kind, d, d')
    && (DistinctKeys(d.table) ==> DistinctKeys(d'.table) || OutOfSuffixes(d'.reserved, collisionKey))
  }

  /** New entities are active and carry the key of their label. */
  ghost predicate NewOnesFit(before: Table, after: Table, collisionKey: string -> Option<string>) {
    forall id :: id in after && id !in before ==>
      !after[id].retired && after[id].destination.None? && collisionKey(after[id].text) == Some(after[id].key)
  }

  // New external identities are of one kind and name new entities.
  ghost predicate NamesFresh(kind: Kind, d: Directory, d': Directory) {
    && d.identities.Keys <= d'.identities.Keys
    && forall x :: x in d'.identities ==>
         || (x in d.identities && d'.identities[x] == d.identities[x])
         || (KindOf(x) == kind && d'.identities[x].kind == kind
             && d'.identities[x].entity !in d.table && d'.identities[x].entity in d'.table)
  }

  ghost predicate IdentitiesKept(kind: Kind, before: map<External, Identity>, after: map<External, Identity>) {
    && (forall x :: Resolve(before, kind, x).Some? ==> Resolve(after, kind, x) == Resolve(before, kind, x))
    && (forall x, k :: KindOf(x) != kind ==> Resolve(after, k, x) == Resolve(before, k, x))
  }

  lemma NothingGrows(kind: Kind, d: Directory, ids: seq<Id>, collisionKey: string -> Option<string>)
    requires SpareIds(ids, d.cursor, d.table) && ActiveKeys(d.table) <= d.reserved
    ensures Grows(kind, d, d, ids, collisionKey)
  {
  }

  lemma EntityAdded(
    kind: Kind, d: Directory, ids: seq<Id>, collisionKey: string -> Option<string>,
    external: External, text: string, material: string, allocation: Allocation, d': Directory)
    requires SpareIds(ids, d.cursor, d.table) && ActiveKeys(d.table) <= d.reserved && d.cursor < |ids|
    requires Resolve(d.identities, kind, external).None? && KindOf(external) == kind && |material| == DIGEST_LENGTH
    requires collisionKey(text).Some? && collisionKey(allocation.text) == Some(allocation.key)
    requires allocation.key in d.reserved ==>
      collisionKey(text).value in d.reserved && AllReserved(text, material, d.reserved, collisionKey, DIGEST_LENGTH + 1)
    requires d' == Directory(
      d.table[ids[d.cursor] := Entity(allocation.text, allocation.key, false, None)],
      d.identities[external := Identity(kind, ids[d.cursor])], d.reserved + {allocation.key}, d.cursor + 1)
    ensures Grows(kind, d, d', ids, collisionKey)
    ensures Resolve(d'.identities, kind, external) == Some(ids[d.cursor])
  {
    var id := ids[d.cursor];
    assert ActiveKeys(d'.table) == ActiveKeys(d.table) + {allocation.key} by {
      assert forall x :: x in d.table ==> d'.table[x] == d.table[x];
      assert d'.table[id].key == allocation.key && !d'.table[id].retired;
    }
    if allocation.key in d.reserved {
      assert NoSuffixFree(text, material, d'.reserved, collisionKey);
    } else {
      assert forall x :: x in d.table && !d.table[x].retired ==> d.table[x].key in ActiveKeys(d.table);
    }
  }

  /** One new active entity: its label is the text, or the shortest free suffixed form. */
  ghost predicate Creates(
    d: Directory, d': Directory, kind: Kind, external: External, text: string, id: Id,
    collisionKey: string -> Option<string>, digest: (External, Id) -> string)
    requires forall x, y :: |digest(x, y)| == DIGEST_LENGTH
  {
    && id in d'.table && d'.table == d.table[id := d'.table[id]] && d'.cursor == d.cursor + 1
    && d'.identities == d.identities[external := Identity(kind, id)]
    && var e := d'.table[id];
    && !e.retired && e.destination.None? && collisionKey(e.text) == Some(e.key)
    && Chosen(text, digest(external, id), d.reserved, collisionKey, e.text)
  }

  /** Finds the entity an external key names, or creates one with a free label when possible. */
  method Provide(
    d: Directory, kind: Kind, external: External, text: string, ids: seq<Id>,
    collisionKey: string -> Option<string>, digest: (External, Id) -> string)
    returns (r: Option<(Id, Directory)>)
    requires SpareIds(ids, d.cursor, d.table) && ActiveKeys(d.table) <= d.reserved && KindOf(external) == kind
    requires forall x, id :: |digest(x, id)| == DIGEST_LENGTH
    ensures r.Some? ==>
      && Grows(kind, d, r.value.1, ids, collisionKey)
      && Resolve(r.value.1.identities, kind, external) == Some(r.value.0)
    ensures Resolve(d.identities, kind, external).Some? ==> r == Some((Resolve(d.identities, kind, external).value, d))
    ensures r.Some? && Resolve(d.identities, kind, external).None? ==>
      d.cursor < |ids| && r.value.0 == ids[d.cursor]
          && Creates(d, r.value.1, kind, external, text, r.value.0, collisionKey, digest)
    ensures r.None? ==>
        Resolve(d.identities, kind, external).None? && (d.cursor >= |ids| || Unnameable(text, collisionKey))
  {
    hide AllReserved, Grows, SpareIds, ActiveKeys, Chosen, Unnameable;
    var found := Resolve(d.identities, kind, external);
    if found.Some? {
      NothingGrows(kind, d, ids, collisionKey);
      return Some((found.value, d));
    }
    if d.cursor >= |ids| {
      return None;
    }
    var id := ids[d.cursor];
    var chosen := AllocateLabel(text, digest(external, id), d.reserved, collisionKey);
    if chosen.None? {
      return None;
    }
    var after := Directory(
      d.table[id := Entity(chosen.value.text, chosen.value.key, false, None)],
      d.identities[external := Identity(kind, id)], d.reserved + {chosen.value.key}, d.cursor + 1);
    assert collisionKey(text).Some?;
    EntityAdded(kind, d, ids, collisionKey, external, text, digest(external, id), chosen.value, after);
    return Some((id, after));
  }

  datatype Providers = Providers(
    accounts: Table, merchants: Table, identities: map<External, Identity>,
    accountFor: map<Key, Id>, merchantFor: map<ProductKey, Id>)

  function ItemsUpTo(items: seq<Item>, count: nat): set<Item>
    requires count <= |items|
  {
    set e | e in items[..count] && !e.retired
  }

  ghost predicate Assigned(items: set<Item>, r: Providers) {
    && (forall o :: o in r.accountFor ==> Resolve(r.identities, AccountKind, OrderExternal(o)) == Some(r.accountFor[o]))
    && (forall k :: k in r.merchantFor ==>
       Resolve(r.identities, MerchantKind, ProductExternal(k)) == Some(r.merchantFor[k]))
    && (forall e :: e in items ==> e.order in r.accountFor && Product(e) in r.merchantFor)
  }

  ghost predicate AllIdentitiesKept(before: map<External, Identity>, after: map<External, Identity>) {
    forall x :: Resolve(before, KindOf(x), x).Some? ==> Resolve(after, KindOf(x), x) == Resolve(before, KindOf(x), x)
  }

  /** Every external identity is as it was, or names a new active entity of its kind. */
  ghost predicate NamesFollow(p: Profile, accounts: Table, merchants: Table, identities: map<External, Identity>) {
    && p.identities.Keys <= identities.Keys
    && forall x :: x in identities ==> NameFollows(p, accounts, merchants, x, identities[x])
  }

  ghost predicate NameFollows(p: Profile, accounts: Table, merchants: Table, x: External, n: Identity) {
    (x in p.identities && n == p.identities[x]) || FreshName(p, accounts, merchants, KindOf(x), n)
  }

  ghost predicate FreshName(p: Profile, accounts: Table, merchants: Table, kind: Kind, n: Identity) {
    && n.kind == kind
    && if kind == AccountKind then n.entity !in p.accounts && MergeChains.Active(accounts, n.entity)
       else n.entity !in p.merchants && MergeChains.Active(merchants, n.entity)
  }

  // The state of the loop over the active items.
  ghost predicate Providing(
    p: Profile, items: set<Item>, r: Providers, reserved: set<string>, collisionKey: string -> Option<string>)
  {
    && Extends(p.accounts, r.accounts) && Extends(p.merchants, r.merchants)
    && reserved == ActiveKeys(r.accounts) + ActiveKeys(r.merchants)
    && AllIdentitiesKept(p.identities, r.identities) && Assigned(items, r)
    && NamesFollow(p, r.accounts, r.merchants, r.identities)
    && NewOnesFit(p.accounts, r.accounts, collisionKey) && NewOnesFit(p.merchants, r.merchants, collisionKey)
    && LabelsHold(p, r.accounts, r.merchants, reserved, collisionKey)
  }

  lemma AccountAssigned(items: set<Item>, r: Providers, identities: map<External, Identity>, order: Key, account: Id)
    requires Assigned(items, r) && IdentitiesKept(AccountKind, r.identities, identities)
    requires Resolve(identities, AccountKind, OrderExternal(order)) == Some(account)
    ensures Assigned(items, r.(identities := identities, accountFor := r.accountFor[order := account]))
  {
    hide Resolve;
    forall o | o in r.accountFor && o != order
      ensures Resolve(identities, AccountKind, OrderExternal(o)) == Some(r.accountFor[o])
    {
      assert Resolve(r.identities, AccountKind, OrderExternal(o)).Some?;
    }
    forall k | k in r.merchantFor
        ensures Resolve(identities, MerchantKind, ProductExternal(k)) == Some(r.merchantFor[k])
    {
      assert KindOf(ProductExternal(k)) == MerchantKind;
    }
  }

  lemma MerchantAssigned(items: set<Item>, r: Providers, identities: map<External, Identity>, product: ProductKey,
    merchant: Id)
    requires Assigned(items, r) && IdentitiesKept(MerchantKind, r.identities, identities)
    requires Resolve(identities, MerchantKind, ProductExternal(product)) == Some(merchant)
    ensures Assigned(items, r.(identities := identities, merchantFor := r.merchantFor[product := merchant]))
  {
    hide Resolve;
    forall k | k in r.merchantFor && k != product
      ensures Resolve(identities, MerchantKind, ProductExternal(k)) == Some(r.merchantFor[k])
    {
      assert Resolve(r.identities, MerchantKind, ProductExternal(k)).Some?;
    }
    forall o | o in r.accountFor ensures Resolve(identities, AccountKind, OrderExternal(o)) == Some(r.accountFor[o]) {
      assert KindOf(OrderExternal(o)) == AccountKind;
    }
  }

  lemma IdentitiesKeptOn(before: map<External, Identity>, now: map<External, Identity>, after: map<External, Identity>,
    kind: Kind)
    requires AllIdentitiesKept(before, now) && IdentitiesKept(kind, now, after)
    ensures AllIdentitiesKept(before, after)
  {
    hide Resolve;
  }

  lemma NewOnesFitOn(before: Table, now: Table, after: Table, collisionKey: string -> Option<string>)
    requires Extends(before, now) && Extends(now, after)
    requires NewOnesFit(before, now, collisionKey) && NewOnesFit(now, after, collisionKey)
    ensures NewOnesFit(before, after, collisionKey) && Extends(before, after)
  {
  }

  // Labels stay distinct, or suffixes ran out.
  ghost predicate LabelsHold(p: Profile, accounts: Table, merchants: Table, reserved: set<string>,
    collisionKey: string -> Option<string>)
  {
    DistinctKeys(p.accounts) && DistinctKeys(p.merchants) ==>
      (DistinctKeys(accounts) && DistinctKeys(merchants)) || OutOfSuffixes(reserved, collisionKey)
  }

  lemma LabelsHoldOn(
    p: Profile, r: Providers, reserved: set<string>, collisionKey: string -> Option<string>, kind: Kind, cursor: nat,
    d: Directory, ids: seq<Id>)
    requires LabelsHold(p, r.accounts, r.merchants, reserved, collisionKey)
    requires reserved == ActiveKeys(r.accounts) + ActiveKeys(r.merchants)
    requires Grows(kind, Directory(if kind == AccountKind then r.accounts else r.merchants, r.identities, reserved,
        cursor), d, ids,
                   collisionKey)
    ensures
      var accounts, merchants := if kind == AccountKind then d.table else r.accounts,
          if kind == AccountKind then r.merchants else d.table;
      && LabelsHold(p, accounts, merchants, d.reserved, collisionKey)
      && d.reserved == ActiveKeys(accounts) + ActiveKeys(merchants)
  {
    KeysGrow(if kind == AccountKind then r.accounts else r.merchants, d.table);
    hide SpareIds, IdentitiesKept, NamesFresh, NewOnesFit, DistinctKeys, ActiveKeys, Extends;
    if OutOfSuffixes(reserved, collisionKey) {
      OutOfSuffixesGrows(reserved, d.reserved, collisionKey);
    }
    hide OutOfSuffixes;
  }

  lemma ProvidingAccount(
    p: Profile, items: set<Item>, r: Providers, reserved: set<string>, collisionKey: string -> Option<string>,
    ids: seq<Id>, cursor: nat, order: Key, account: Id, d: Directory)
    requires Providing(p, items, r, reserved, collisionKey)
    requires Grows(AccountKind, Directory(r.accounts, r.identities, reserved, cursor), d, ids, collisionKey)
    requires Resolve(d.identities, AccountKind, OrderExternal(order)) == Some(account)
    ensures
      var r' := r.(accounts := d.table, identities := d.identities, accountFor := r.accountFor[order := account]);
      Providing(p, items, r', d.reserved, collisionKey) && order in r'.accountFor
  {
    hide Assigned, AllIdentitiesKept, DistinctKeys, Resolve, NamesFollow, NamesFresh, OutOfSuffixes, NewOnesFit,
         Extends, ActiveKeys,
         IdentitiesKept, SpareIds, LabelsHold;
    var r' := r.(accounts := d.table, identities := d.identities, accountFor := r.accountFor[order := account]);
    AccountAssigned(items, r, d.identities, order, account);
    SameAssignment(items, r.(identities := d.identities, accountFor := r'.accountFor), r');
    IdentitiesKeptOn(p.identities, r.identities, d.identities, AccountKind);
    NewOnesFitOn(p.accounts, r.accounts, d.table, collisionKey);
    NamesFollowOn(p, r, r', ids, AccountKind, cursor, reserved, d, collisionKey);
    LabelsHoldOn(p, r, reserved, collisionKey, AccountKind, cursor, d, ids);
  }

  lemma ProvidingMerchant(
    p: Profile, items: set<Item>, r: Providers, reserved: set<string>, collisionKey: string -> Option<string>,
    ids: seq<Id>, cursor: nat, product: ProductKey, merchant: Id, d: Directory)
    requires Providing(p, items, r, reserved, collisionKey)
    requires Grows(MerchantKind, Directory(r.merchants, r.identities, reserved, cursor), d, ids, collisionKey)
    requires Resolve(d.identities, MerchantKind, ProductExternal(product)) == Some(merchant)
    ensures
      var r' := r.(merchants := d.table, identities := d.identities, merchantFor := r.merchantFor[product := merchant]);
      Providing(p, items, r', d.reserved, collisionKey) && product in r'.merchantFor
  {
    hide Assigned, AllIdentitiesKept, DistinctKeys, Resolve, NamesFollow, NamesFresh, OutOfSuffixes, NewOnesFit,
         Extends, ActiveKeys,
         IdentitiesKept, SpareIds, LabelsHold;
    var r' := r.(merchants := d.table, identities := d.identities, merchantFor := r.merchantFor[product := merchant]);
    MerchantAssigned(items, r, d.identities, product, merchant);
    SameAssignment(items, r.(identities := d.identities, merchantFor := r'.merchantFor), r');
    IdentitiesKeptOn(p.identities, r.identities, d.identities, MerchantKind);
    NewOnesFitOn(p.merchants, r.merchants, d.table, collisionKey);
    NamesFollowOn(p, r, r', ids, MerchantKind, cursor, reserved, d, collisionKey);
    LabelsHoldOn(p, r, reserved, collisionKey, MerchantKind, cursor, d, ids);
  }

  lemma SameAssignment(items: set<Item>, r: Providers, r': Providers)
    requires Assigned(items, r)
    requires r'.identities == r.identities && r'.accountFor == r.accountFor && r'.merchantFor == r.merchantFor
    ensures Assigned(items, r')
  {
  }

  // Entities that were new stay new and active while others are added.
  lemma NamesFollowOn(
    p: Profile, r: Providers, r': Providers, ids: seq<Id>, kind: Kind, cursor: nat, reserved: set<string>, d: Directory,
    collisionKey: string -> Option<string>)
    requires Extends(p.accounts, r.accounts) && Extends(p.merchants, r.merchants)
    requires NamesFollow(p, r.accounts, r.merchants, r.identities)
    requires kind == AccountKind || kind == MerchantKind
    requires Grows(kind, Directory(if kind == AccountKind then r.accounts else r.merchants, r.identities, reserved,
        cursor), d, ids,
                   collisionKey)
    requires r' == r.(accountFor := r'.accountFor, merchantFor := r'.merchantFor, identities := d.identities,
                      accounts := if kind == AccountKind then d.table else r.accounts,
                      merchants := if kind == AccountKind then r.merchants else d.table)
    ensures NamesFollow(p, r'.accounts, r'.merchants, r'.identities)
  {
    hide SpareIds, IdentitiesKept, DistinctKeys, OutOfSuffixes, ActiveKeys;
    forall x | x in r'.identities ensures NameFollows(p, r'.accounts, r'.merchants, x, r'.identities[x]) {
      if x in r.identities && r'.identities[x] == r.identities[x] {
        assert NameFollows(p, r.accounts, r.merchants, x, r.identities[x]);
      }
    }
  }

  lemma KeysGrow(before: Table, after: Table)
    requires Extends(before, after)
    ensures ActiveKeys(before) <= ActiveKeys(after)
  {
    forall k | k in ActiveKeys(before) ensures k in ActiveKeys(after) {
      var id :| id in before && !before[id].retired && before[id].key == k;
      assert after[id] == before[id];
    }
  }

  lemma GrowsSpares(kind: Kind, d: Directory, d': Directory, ids: seq<Id>, collisionKey: string -> Option<string>)
    requires Grows(kind, d, d', ids, collisionKey)
    ensures SpareIds(ids, d'.cursor, d'.table)
  {
  }

  lemma ProvidingCovers(
    p: Profile, items: set<Item>, more: set<Item>, r: Providers, reserved: set<string>,
    collisionKey: string -> Option<string>, e: Item)
    requires Providing(p, items, r, reserved, collisionKey) && e.order in r.accountFor && Product(e) in r.merchantFor
    requires more <= items + {e}
    ensures Providing(p, more, r, reserved, collisionKey)
  {
  }

  // Proposed identifiers are enough --------------------------------------------------------------------

  /** The external keys of active items that name nothing yet. */
  ghost function NewOrders(p: Profile, items: seq<Item>): set<External> {
    set e | e in items && !e.retired && Resolve(p.identities, AccountKind, OrderExternal(e.order)).None? ::
        OrderExternal(e.order)
  }

  ghost function NewProducts(p: Profile, items: seq<Item>): set<External> {
    set e | e in items && !e.retired && Resolve(p.identities, MerchantKind, ProductExternal(Product(e))).None? ::
        ProductExternal(Product(e))
  }

  /** Some active item needs a new account or merchant whose label has no collision key. */
  ghost predicate UnnameableItem(
    p: Profile, items: seq<Item>, orderLabel: Key -> string, productLabel: Key -> string,
    collisionKey: string -> Option<string>)
  {
    exists e :: e in items && !e.retired && UnnameableAs(p, e, orderLabel, productLabel, collisionKey)
  }

  ghost predicate UnnameableAs(
    p: Profile, e: Item, orderLabel: Key -> string, productLabel: Key -> string, collisionKey: string -> Option<string>)
  {
    || (Resolve(p.identities, AccountKind, OrderExternal(e.order)).None?
       && Unnameable(orderLabel(e.order), collisionKey))
    || (Resolve(p.identities, MerchantKind, ProductExternal(Product(e))).None?
       && Unnameable(productLabel(e.facts.product), collisionKey))
  }

  // The external keys created so far: one identifier each, and none named before.
  ghost predicate Made(kind: Kind, wanted: set<External>, made: set<External>, identities: map<External, Identity>,
    cursor: nat)
  {
    && made <= wanted && |made| == cursor
    && forall x :: x in made ==> Resolve(identities, kind, x).Some?
  }

  ghost function MadeAfter(d: Directory, kind: Kind, external: External, made: set<External>): set<External> {
    if Resolve(d.identities, kind, external).None? then made + {external} else made
  }

  lemma MakesOne(
    d: Directory, d': Directory, kind: Kind, external: External, wanted: set<External>, made: set<External>,
    ids: seq<Id>,
    collisionKey: string -> Option<string>)
    requires Made(kind, wanted, made, d.identities, d.cursor) && Grows(kind, d, d', ids, collisionKey)
    requires Resolve(d'.identities, kind, external).Some?
    requires d' == d || d'.cursor == d.cursor + 1
    requires Resolve(d.identities, kind, external).None? <==> d' != d
    requires Resolve(d.identities, kind, external).None? ==> external in wanted
    ensures Made(kind, wanted, MadeAfter(d, kind, external, made), d'.identities, d'.cursor)
  {
    if Resolve(d.identities, kind, external).None? {
      assert external !in made;
    }
    hide DistinctKeys, OutOfSuffixes, SpareIds, Extends, ActiveKeys;
  }

  lemma OtherKindIsMade(
    kind: Kind, other: Kind, d: Directory, d': Directory, wanted: set<External>, made: set<External>, cursor: nat,
    ids: seq<Id>,
    collisionKey: string -> Option<string>)
    requires Made(other, wanted, made, d.identities, cursor) && Grows(kind, d, d', ids, collisionKey) && kind != other
    requires forall x :: x in made ==> KindOf(x) == other
    ensures Made(other, wanted, made, d'.identities, cursor)
  {
    hide DistinctKeys, OutOfSuffixes, SpareIds, Extends, ActiveKeys;
  }

  lemma OneTooMany(d: Directory, kind: Kind, external: External, wanted: set<External>, made: set<External>)
    requires Made(kind, wanted, made, d.identities, d.cursor)
    requires Resolve(d.identities, kind, external).None? && external in wanted
    ensures d.cursor < |wanted|
  {
    assert external !in made;
    assert made + {external} <= wanted;
    SubsetSize(made + {external}, wanted);
  }

  lemma WantedHere(p: Profile, items: seq<Item>, w: Providers, some: set<Item>, reserved: set<string>,
    collisionKey: string -> Option<string>, e: Item)
    requires Providing(p, some, w, reserved, collisionKey) && e in items && !e.retired
    ensures Resolve(w.identities, AccountKind, OrderExternal(e.order)).None? ==>
              OrderExternal(e.order) in NewOrders(p, items)
                  && Resolve(p.identities, AccountKind, OrderExternal(e.order)).None?
    ensures Resolve(w.identities, MerchantKind, ProductExternal(Product(e))).None? ==>
              ProductExternal(Product(e)) in NewProducts(p, items)
                  && Resolve(p.identities, MerchantKind, ProductExternal(Product(e))).None?
  {
    hide Assigned, DistinctKeys, OutOfSuffixes, ActiveKeys, Extends;
    var order, product := OrderExternal(e.order), ProductExternal(Product(e));
    assert Resolve(p.identities, KindOf(order), order).Some? ==> Resolve(w.identities, KindOf(order), order).Some?;
    assert Resolve(p.identities, KindOf(product), product).Some? ==>
        Resolve(w.identities, KindOf(product), product).Some?;
  }

  lemma MadeAreWanted(kind: Kind, wanted: set<External>, made: set<External>, identities: map<External, Identity>,
    cursor: nat)
    requires Made(kind, wanted, made, identities, cursor)
    ensures made <= wanted
  {
  }

  lemma NothingMade(kind: Kind, wanted: set<External>, identities: map<External, Identity>)
    ensures Made(kind, wanted, {}, identities, 0)
  {
  }

  lemma CreatesOne(
    d: Directory, d': Directory, kind: Kind, external: External, text: string, id: Id,
    collisionKey: string -> Option<string>, digest: (External, Id) -> string)
    requires forall x, y :: |digest(x, y)| == DIGEST_LENGTH
    requires d' == d || Creates(d, d', kind, external, text, id, collisionKey, digest)
    ensures d' == d || d'.cursor == d.cursor + 1
  {
  }

  lemma KindsOfWanted(p: Profile, items: seq<Item>)
    ensures forall x :: x in NewOrders(p, items) ==> KindOf(x) == AccountKind
    ensures forall x :: x in NewProducts(p, items) ==> KindOf(x) == MerchantKind
  {
  }

  // What new entities are called ---------------------------------------------------------------------------

  /** Entities created so far are called by the items that first needed them. */
  ghost predicate Calling(p: Profile, items: seq<Item>, accounts: nat, merchants: nat, w: Providers, naming: Naming)
    requires Digests(naming)
  {
    var before := ActiveKeys(p.accounts) + ActiveKeys(p.merchants);
    && AllCalled(AccountKind, items, accounts, p.accounts, w.accounts, w.merchants, w.identities, before, naming)
    && AllCalled(MerchantKind, items, merchants, p.merchants, w.merchants, w.accounts, w.identities, before, naming)
  }

  // What one call of Provide did to a directory.
  ghost predicate Provided(
    d: Directory, d': Directory, kind: Kind, e: Item, id: Id, ids: seq<Id>, naming: Naming)
    requires Digests(naming)
  {
    && Grows(kind, d, d', ids, naming.collisionKey)
    && Resolve(d'.identities, kind, ExternalOf(kind, e)) == Some(id)
    && if Resolve(d.identities, kind, ExternalOf(kind, e)).Some? then d' == d
       else id !in d.table && Creates(d, d', kind, ExternalOf(kind, e), LabelOf(kind, e, naming), id,
                                      naming.collisionKey, naming.digest)
  }

  lemma ProvidedOrCreated(
    d: Directory, d': Directory, kind: Kind, e: Item, id: Id, ids: seq<Id>, naming: Naming)
    requires Digests(naming) && Provided(d, d', kind, e, id, ids, naming)
    ensures Resolve(d'.identities, kind, ExternalOf(kind, e)) == Some(id)
    ensures Extends(d.table, d'.table)
    ensures NamesKept(AccountKind, d.identities, d'.identities) && NamesKept(MerchantKind, d.identities, d'.identities)
    ensures Resolve(d.identities, kind, ExternalOf(kind, e)).Some? ==> d' == d
    ensures Resolve(d.identities, kind, ExternalOf(kind, e)).None? ==>
        && id !in d.table && id in d'.table && d'.table == d.table[id := d'.table[id]]
        && Chosen(LabelOf(kind, e, naming), naming.digest(ExternalOf(kind, e), id), d.reserved, naming.collisionKey,
                  d'.table[id].text)
  {
    GrowsKeepsNames(kind, d, d', ids, naming.collisionKey);
    hide Grows, NamesKept, Chosen, Resolve, ExternalOf, LabelOf, Extends;
  }

  lemma FirstHere(p: Profile, items: seq<Item>, i: nat, w: Providers, reserved: set<string>, naming: Naming, kind: Kind)
    requires i < |items| && !items[i].retired && kind != OtherKind
    requires Providing(p, ItemsUpTo(items, i), w, reserved, naming.collisionKey)
    requires Resolve(w.identities, kind, ExternalOf(kind, items[i])).None?
    ensures FirstOf(kind, items, i)
  {
    hide AllIdentitiesKept, NamesFollow, NewOnesFit, LabelsHold, Extends, ActiveKeys, Resolve;
    forall j | 0 <= j < i && !items[j].retired
      ensures ExternalOf(kind, items[j]) != ExternalOf(kind, items[i])
    {
      assert items[j] in items[..i];
      assert items[j] in ItemsUpTo(items, i);
    }
  }

  lemma KeysReserved(p: Profile, items: set<Item>, w: Providers, reserved: set<string>,
    collisionKey: string -> Option<string>)
    requires Providing(p, items, w, reserved, collisionKey)
    ensures ActiveKeys(p.accounts) + ActiveKeys(p.merchants) <= reserved
    ensures reserved == ActiveKeys(w.accounts) + ActiveKeys(w.merchants) ==
        ActiveKeys(w.merchants) + ActiveKeys(w.accounts)
  {
    KeysGrow(p.accounts, w.accounts);
    KeysGrow(p.merchants, w.merchants);
    hide ActiveKeys, Assigned, AllIdentitiesKept, NamesFollow, NewOnesFit, LabelsHold;
  }

  lemma GrowsKeepsNames(kind: Kind, d: Directory, d': Directory, ids: seq<Id>, collisionKey: string -> Option<string>)
    requires Grows(kind, d, d', ids, collisionKey)
    ensures Extends(d.table, d'.table)
    ensures NamesKept(AccountKind, d.identities, d'.identities) && NamesKept(MerchantKind, d.identities, d'.identities)
  {
    hide SpareIds, NewOnesFit, NamesFresh, DistinctKeys, OutOfSuffixes, ActiveKeys, Resolve;
  }

  lemma ProvidedHere(d: Directory, r: (Id, Directory), kind: Kind, e: Item, ids: seq<Id>, naming: Naming)
    requires Digests(naming) && SpareIds(ids, d.cursor, d.table)
    requires Grows(kind, d, r.1, ids, naming.collisionKey)
    requires Resolve(r.1.identities, kind, ExternalOf(kind, e)) == Some(r.0)
    requires
      if Resolve(d.identities, kind, ExternalOf(kind, e)).Some? then r.1 == d
      else
        && d.cursor < |ids| && r.0 == ids[d.cursor]
        && Creates(d, r.1, kind, ExternalOf(kind, e), LabelOf(kind, e, naming), r.0, naming.collisionKey, naming.digest)
    ensures Provided(d, r.1, kind, e, r.0, ids, naming)
  {
    hide Grows, Creates, Resolve, ExternalOf, LabelOf;
  }

  lemma CallingAccount(
    p: Profile, items: seq<Item>, i: nat, w: Providers, reserved: set<string>, naming: Naming, cursor: nat,
    ids: seq<Id>, account: Id, d: Directory, w': Providers)
    requires Digests(naming) && i < |items| && !items[i].retired
    requires Providing(p, ItemsUpTo(items, i), w, reserved, naming.collisionKey) && Calling(p, items, i, i, w, naming)
    requires Provided(Directory(w.accounts, w.identities, reserved, cursor), d, AccountKind, items[i], account, ids,
        naming)
    requires w' == w.(accounts := d.table, identities := d.identities, accountFor := w'.accountFor)
    ensures Calling(p, items, i + 1, i, w', naming)
  {
    KeysReserved(p, ItemsUpTo(items, i), w, reserved, naming.collisionKey);
    ProvidedOrCreated(Directory(w.accounts, w.identities, reserved, cursor), d, AccountKind, items[i], account, ids,
                      naming);
    if Resolve(w.identities, AccountKind, ExternalOf(AccountKind, items[i])).None? {
      FirstHere(p, items, i, w, reserved, naming, AccountKind);
    }
    hide Providing, Provided, AllCalled, NamesKept, ActiveKeys, Extends, FirstOf, Chosen, Resolve, ExternalOf, LabelOf,
         ItemsUpTo;
    var before := ActiveKeys(p.accounts) + ActiveKeys(p.merchants);
    AllCalledStays(MerchantKind, items, i, p.merchants, w.merchants, w.accounts, w.identities, d.table, d.identities, i,
                   before, naming);
    if Resolve(w.identities, AccountKind, ExternalOf(AccountKind, items[i])).None? {
      OneMoreCalled(AccountKind, items, i, p.accounts, w.accounts, w.merchants, w.identities, account, d.table,
                    d.identities, before, naming);
    } else {
      ExtendsItself(w.merchants);
      AllCalledStays(AccountKind, items, i, p.accounts, w.accounts, w.merchants, w.identities, w.merchants,
                     w.identities, i + 1, before, naming);
    }
  }

  lemma CallingMerchant(
    p: Profile, items: seq<Item>, i: nat, w: Providers, some: set<Item>, reserved: set<string>, naming: Naming,
    cursor: nat, ids: seq<Id>, merchant: Id, d: Directory, w': Providers)
    requires Digests(naming) && i < |items| && !items[i].retired && some == ItemsUpTo(items, i)
    requires Providing(p, some, w, reserved, naming.collisionKey) && Calling(p, items, i + 1, i, w, naming)
    requires Provided(Directory(w.merchants, w.identities, reserved, cursor), d, MerchantKind, items[i], merchant, ids,
        naming)
    requires w' == w.(merchants := d.table, identities := d.identities, merchantFor := w'.merchantFor)
    ensures Calling(p, items, i + 1, i + 1, w', naming)
  {
    KeysReserved(p, some, w, reserved, naming.collisionKey);
    ProvidedOrCreated(Directory(w.merchants, w.identities, reserved, cursor), d, MerchantKind, items[i], merchant, ids,
                      naming);
    if Resolve(w.identities, MerchantKind, ExternalOf(MerchantKind, items[i])).None? {
      FirstHere(p, items, i, w, reserved, naming, MerchantKind);
    }
    hide Providing, Provided, AllCalled, NamesKept, ActiveKeys, Extends, FirstOf, Chosen, Resolve, ExternalOf, LabelOf,
         ItemsUpTo;
    var before := ActiveKeys(p.accounts) + ActiveKeys(p.merchants);
    AllCalledStays(AccountKind, items, i + 1, p.accounts, w.accounts, w.merchants, w.identities, d.table, d.identities,
                   i + 1, before, naming);
    if Resolve(w.identities, MerchantKind, ExternalOf(MerchantKind, items[i])).None? {
      OneMoreCalled(MerchantKind, items, i, p.merchants, w.merchants, w.accounts, w.identities, merchant, d.table,
                    d.identities, before, naming);
    } else {
      ExtendsItself(w.accounts);
      AllCalledStays(MerchantKind, items, i, p.merchants, w.merchants, w.accounts, w.identities, w.accounts,
                     w.identities, i + 1, before, naming);
    }
  }

  lemma CallingSkips(p: Profile, items: seq<Item>, i: nat, w: Providers, naming: Naming)
    requires Digests(naming) && Calling(p, items, i, i, w, naming)
    ensures Calling(p, items, i + 1, i + 1, w, naming)
  {
    ExtendsItself(w.accounts);
    ExtendsItself(w.merchants);
    var before := ActiveKeys(p.accounts) + ActiveKeys(p.merchants);
    AllCalledStays(AccountKind, items, i, p.accounts, w.accounts, w.merchants, w.identities, w.merchants,
                   w.identities, i + 1, before, naming);
    AllCalledStays(MerchantKind, items, i, p.merchants, w.merchants, w.accounts, w.identities, w.accounts,
                   w.identities, i + 1, before, naming);
    hide AllCalled;
  }

  lemma CallingStarts(p: Profile, items: seq<Item>, w: Providers, naming: Naming)
    requires Digests(naming) && w == Providers(p.accounts, p.merchants, p.identities, map[], map[])
    ensures Calling(p, items, 0, 0, w, naming)
  {
    var before := ActiveKeys(p.accounts) + ActiveKeys(p.merchants);
    NoneNewYet(AccountKind, items, p.accounts, p.merchants, p.identities, before, naming);
    NoneNewYet(MerchantKind, items, p.merchants, p.accounts, p.identities, before, naming);
    hide AllCalled;
  }

  /** Gives every active item's order an account and its product a merchant. */
  method ResolveProviders(
    p: Profile, items: seq<Item>, accountIds: seq<Id>, merchantIds: seq<Id>,
    naming: Naming)
    returns (r: Option<Providers>)
    requires SpareIds(accountIds, 0, p.accounts) && SpareIds(merchantIds, 0, p.merchants)
    requires Digests(naming)
    ensures r.Some? ==>
      Providing(p, ItemsUpTo(items, |items|), r.value, ActiveKeys(r.value.accounts) + ActiveKeys(r.value.merchants),
          naming.collisionKey)
    ensures r.Some? ==> Calling(p, items, |items|, |items|, r.value, naming)
    ensures r.None? ==>
      || |accountIds| < |NewOrders(p, items)| || |merchantIds| < |NewProducts(p, items)|
      || UnnameableItem(p, items, naming.orderLabel, naming.productLabel, naming.collisionKey)
  {
    hide Grows, SpareIds, Providing, ActiveKeys, ItemsUpTo, NewOrders, NewProducts, Made, MadeAfter, Unnameable,
         Creates, Calling;
    ghost var orders, products := NewOrders(p, items), NewProducts(p, items);
    ghost var madeOrders: set<External>, madeProducts: set<External> := {}, {};
    KindsOfWanted(p, items);
    NothingMade(AccountKind, orders, p.identities);
    NothingMade(MerchantKind, products, p.identities);
    var w := Providers(p.accounts, p.merchants, p.identities, map[], map[]);
    var reserved := ActiveKeys(p.accounts) + ActiveKeys(p.merchants);
    var accountCursor: nat, merchantCursor: nat := 0, 0;
    ProvidingStarts(p, w, reserved, naming.collisionKey);
    NoItemsYet(items);
    CallingStarts(p, items, w, naming);
    for i := 0 to |items|
      invariant Providing(p, ItemsUpTo(items, i), w, reserved, naming.collisionKey)
      invariant SpareIds(accountIds, accountCursor, w.accounts) && SpareIds(merchantIds, merchantCursor, w.merchants)
      invariant Made(AccountKind, orders, madeOrders, w.identities, accountCursor)
      invariant Made(MerchantKind, products, madeProducts, w.identities, merchantCursor)
      invariant Calling(p, items, i, i, w, naming)
    {
      var e := items[i];
      ghost var seen := ItemsUpTo(items, i);
      OneMoreItem(items, i);
      if e.retired {
        CallingSkips(p, items, i, w, naming);
        continue;
      }
      ProvidingReserves(p, seen, w, reserved, naming.collisionKey);
      var accounts := Directory(w.accounts, w.identities, reserved, accountCursor);
      var account := Provide(accounts, AccountKind, OrderExternal(e.order), naming.orderLabel(e.order), accountIds,
          naming.collisionKey, naming.digest);
      WantedHere(p, items, w, seen, reserved, naming.collisionKey, e);
      if account.None? {
        OneTooMany(accounts, AccountKind, OrderExternal(e.order), orders, madeOrders);
        assert UnnameableAs(p, e, naming.orderLabel, naming.productLabel, naming.collisionKey)
            || accountCursor >= |accountIds|;
        return None;
      }
      CreatesOne(accounts, account.value.1, AccountKind, OrderExternal(e.order), naming.orderLabel(e.order),
          account.value.0,
          naming.collisionKey, naming.digest);
      MakesOne(accounts, account.value.1, AccountKind, OrderExternal(e.order), orders, madeOrders, accountIds,
          naming.collisionKey);
      MadeAreWanted(MerchantKind, products, madeProducts, w.identities, merchantCursor);
      OtherKindIsMade(AccountKind, MerchantKind, accounts, account.value.1, products, madeProducts, merchantCursor,
          accountIds, naming.collisionKey);
      madeOrders := MadeAfter(accounts, AccountKind, OrderExternal(e.order), madeOrders);
      ProvidingAccount(p, seen, w, reserved, naming.collisionKey, accountIds, accountCursor, e.order, account.value.0,
          account.value.1);
      GrowsSpares(AccountKind, accounts, account.value.1, accountIds, naming.collisionKey);
      ProvidedHere(accounts, account.value, AccountKind, e, accountIds, naming);
      ghost var named := w.(accounts := account.value.1.table, identities := account.value.1.identities,
                            accountFor := w.accountFor[e.order := account.value.0]);
      CallingAccount(p, items, i, w, reserved, naming, accountCursor, accountIds, account.value.0, account.value.1,
                     named);
      w := w.(accounts := account.value.1.table, identities := account.value.1.identities,
              accountFor := w.accountFor[e.order := account.value.0]);
      reserved, accountCursor := account.value.1.reserved, account.value.1.cursor;

      ProvidingReserves(p, seen, w, reserved, naming.collisionKey);
      var merchants := Directory(w.merchants, w.identities, reserved, merchantCursor);
      var merchant := Provide(merchants, MerchantKind, ProductExternal(Product(e)),
          naming.productLabel(e.facts.product),
          merchantIds, naming.collisionKey, naming.digest);
      WantedHere(p, items, w, seen, reserved, naming.collisionKey, e);
      if merchant.None? {
        OneTooMany(merchants, MerchantKind, ProductExternal(Product(e)), products, madeProducts);
        assert UnnameableAs(p, e, naming.orderLabel, naming.productLabel, naming.collisionKey)
            || merchantCursor >= |merchantIds|;
        return None;
      }
      CreatesOne(merchants, merchant.value.1, MerchantKind, ProductExternal(Product(e)),
          naming.productLabel(e.facts.product),
          merchant.value.0, naming.collisionKey, naming.digest);
      MakesOne(merchants, merchant.value.1, MerchantKind, ProductExternal(Product(e)), products, madeProducts,
          merchantIds, naming.collisionKey);
      MadeAreWanted(AccountKind, orders, madeOrders, w.identities, accountCursor);
      OtherKindIsMade(MerchantKind, AccountKind, merchants, merchant.value.1, orders, madeOrders, accountCursor,
          merchantIds, naming.collisionKey);
      madeProducts := MadeAfter(merchants, MerchantKind, ProductExternal(Product(e)), madeProducts);
      ProvidingMerchant(p, seen, w, reserved, naming.collisionKey, merchantIds, merchantCursor, Product(e),
          merchant.value.0,
          merchant.value.1);
      GrowsSpares(MerchantKind, merchants, merchant.value.1, merchantIds, naming.collisionKey);
      ProvidedHere(merchants, merchant.value, MerchantKind, e, merchantIds, naming);
      named := w.(merchants := merchant.value.1.table, identities := merchant.value.1.identities,
                  merchantFor := w.merchantFor[Product(e) := merchant.value.0]);
      CallingMerchant(p, items, i, w, seen, reserved, naming, merchantCursor, merchantIds, merchant.value.0,
                      merchant.value.1, named);
      w := w.(merchants := merchant.value.1.table, identities := merchant.value.1.identities,
              merchantFor := w.merchantFor[Product(e) := merchant.value.0]);
      reserved, merchantCursor := merchant.value.1.reserved, merchant.value.1.cursor;
      ProvidingCovers(p, seen, ItemsUpTo(items, i + 1), w, reserved, naming.collisionKey, e);
    }
    ProvidingReserves(p, ItemsUpTo(items, |items|), w, reserved, naming.collisionKey);
    return Some(w);
  }

  lemma ProvidingStarts(p: Profile, w: Providers, reserved: set<string>, collisionKey: string -> Option<string>)
    requires w == Providers(p.accounts, p.merchants, p.identities, map[], map[])
    requires reserved == ActiveKeys(p.accounts) + ActiveKeys(p.merchants)
    ensures Providing(p, {}, w, reserved, collisionKey)
  {
  }

  lemma ProvidingReserves(p: Profile, items: set<Item>, w: Providers, reserved: set<string>,
    collisionKey: string -> Option<string>)
    requires Providing(p, items, w, reserved, collisionKey)
    ensures reserved == ActiveKeys(w.accounts) + ActiveKeys(w.merchants)
    ensures ActiveKeys(w.accounts) <= reserved && ActiveKeys(w.merchants) <= reserved
  {
  }

  lemma NoItemsYet(items: seq<Item>)
    ensures ItemsUpTo(items, 0) == {}
  {
  }

  lemma OneMoreItem(items: seq<Item>, i: nat)
    requires i < |items|
    ensures items[i].retired ==> ItemsUpTo(items, i + 1) == ItemsUpTo(items, i)
    ensures ItemsUpTo(items, i + 1) <= ItemsUpTo(items, i) + {items[i]}
  {
    assert items[..i + 1] == items[..i] + [items[i]];
  }

  // Writing the transactions -------------------------------------------------------------------------

  ghost predicate LookupAgrees(c: Lookup, w: Providers, slots: map<Key, Item>) {
    && c.identities == w.identities
    && slots.Keys == TransactionsOf(c.prior) && DistinctItems(c.prior) && InSlots(slots, c.prior)
  }

  // Reading the prior item of a transaction from the slots.
  lemma PriorMerchant(c: Lookup, w: Providers, slots: map<Key, Item>, e: Item, merchant: Id)
    requires LookupAgrees(c, w, slots)
    ensures StillProviderMerchant(c, e, merchant) <==>
            e.transaction in slots && c.Merchant(slots[e.transaction]) == Some(merchant)
  {
    if e.transaction in slots {
      var q :| q in c.prior && q.transaction == e.transaction;
      assert slots[q.transaction] == q;
    }
  }

  lemma FallbackDestination(t: Table, from: Id, fallback: Id, r: Id)
    requires LeadsTo(t, from, r) || (r == fallback && forall to :: !LeadsTo(t, from, to))
    ensures r == Destination(t, from, fallback)
  {
    if LeadsTo(t, from, r) {
      DestinationIs(t, from, fallback, r);
    }
  }

  /** The user fields of one active item. */
  method ChooseLocal(c: Lookup, w: Providers, slots: map<Key, Item>, e: Item, account: Id, merchant: Id)
    returns (local: Local)
    requires c.Covers(e) && LookupAgrees(c, w, slots)
    requires c.Account(e) == Some(account) && c.Merchant(e) == Some(merchant)
    ensures local == NextLocal(c, e) && local.category.Some?
  {
    hide LookupAgrees, StillProviderMerchant;
    if e.transaction in c.before.transactions {
      var previous := c.before.transactions[e.transaction];
      local := LocalOf(previous);
      PriorMerchant(c, w, slots, e, previous.merchant);
      if e.transaction in slots {
        if c.Merchant(slots[e.transaction]) == Some(previous.merchant) {
          local := local.(merchant := merchant);
        }
      }
    } else if e.local.category.Some? {
      var category := ActiveDestinationOr(c.before.categories, e.local.category.value, UNCATEGORIZED);
      var target := ActiveDestinationOr(c.before.merchants, e.local.merchant, merchant);
      FallbackDestination(c.before.categories, e.local.category.value, UNCATEGORIZED, category);
      FallbackDestination(c.before.merchants, e.local.merchant, merchant, target);
      local := Local(ActiveAccount(c.before.accounts, e.local.account, account), target, Some(category), e.local.notes,
          e.local.hidden);
    } else {
      local := Local(account, merchant, Some(UNCATEGORIZED), 0, false);
    }
  }

  // The state of the loop that writes transactions: the first `count` items are done.
  ghost predicate Writing(
    c: Lookup, items: seq<Item>, count: nat, after: seq<Item>, transactions: map<Key, Transaction>)
    requires forall e :: e in items && !e.retired ==> c.Covers(e)
  {
    && |after| == |items| && count <= |items|
    && (forall k :: 0 <= k < |items| ==> after[k] == if k < count then Finished(c, items[k]) else items[k])
    && (forall k :: 0 <= k < count && !items[k].retired ==>
          items[k].transaction in transactions && transactions[items[k].transaction] == NextTransaction(c, items[k]))
    && transactions.Keys == c.before.transactions.Keys + ActiveIds(items[..count])
    && (forall id :: id in c.before.transactions && id !in ActiveIds(items[..count]) ==>
          transactions[id] == c.before.transactions[id])
  }

  lemma WritingStep(
    c: Lookup, items: seq<Item>, count: nat, after: seq<Item>, transactions: map<Key, Transaction>,
    after': seq<Item>, transactions': map<Key, Transaction>)
    requires forall e :: e in items && !e.retired ==> c.Covers(e)
    requires DistinctTransactions(items) && count < |items| && Writing(c, items, count, after, transactions)
    requires
      if items[count].retired then after' == after && transactions' == transactions
      else after' == after[count := Finished(c, items[count])]
           && transactions' == transactions[items[count].transaction := NextTransaction(c, items[count])]
    ensures Writing(c, items, count + 1, after', transactions')
  {
    hide NextLocal, NextTransaction, Lookup.Covers;
    assert items[..count + 1] == items[..count] + [items[count]];
    assert ActiveIds(items[..count + 1]) ==
           ActiveIds(items[..count]) + if items[count].retired then {} else {items[count].transaction};
    hide ActiveIds;
  }

  /** Writes a transaction for every active item and remembers its user fields in the item. */
  method WriteTransactions(c: Lookup, w: Providers, slots: map<Key, Item>, items: seq<Item>)
    returns (after: seq<Item>, transactions: map<Key, Transaction>)
    requires DistinctTransactions(items) && LookupAgrees(c, w, slots)
    requires Assigned(ItemsUpTo(items, |items|), w)
    requires forall e :: e in items && !e.retired ==> c.Covers(e)
    ensures Writing(c, items, |items|, after, transactions)
  {
    hide NextLocal, LookupAgrees, DistinctTransactions, Lookup.Covers;
    after, transactions := items, c.before.transactions;
    NothingWritten(c, items);
    hide Writing;
    for i := 0 to |items|
      invariant Writing(c, items, i, after, transactions)
    {
      ghost var wasAfter, wasTransactions := after, transactions;
      var e := items[i];
      if !e.retired {
        AssignedFacts(c, w, slots, items, e);
        var local := ChooseLocal(c, w, slots, e, w.accountFor[e.order], w.merchantFor[Product(e)]);
        WritingSize(c, items, i, after, transactions);
        after := after[i := e.(local := local)];
        transactions := transactions[e.transaction := TransactionFor(e, local)];
      }
      WritingStep(c, items, i, wasAfter, wasTransactions, after, transactions);
    }
  }

  lemma WritingSize(c: Lookup, items: seq<Item>, count: nat, after: seq<Item>, transactions: map<Key, Transaction>)
    requires forall e :: e in items && !e.retired ==> c.Covers(e)
    requires Writing(c, items, count, after, transactions)
    ensures |after| == |items|
  {
  }

  lemma NothingWritten(c: Lookup, items: seq<Item>)
    requires forall e :: e in items && !e.retired ==> c.Covers(e)
    ensures Writing(c, items, 0, items, c.before.transactions)
  {
  }

  lemma AssignedFacts(c: Lookup, w: Providers, slots: map<Key, Item>, items: seq<Item>, e: Item)
    requires LookupAgrees(c, w, slots) && Assigned(ItemsUpTo(items, |items|), w) && e in items && !e.retired
    ensures e.order in w.accountFor && Product(e) in w.merchantFor
    ensures c.Account(e) == Some(w.accountFor[e.order]) && c.Merchant(e) == Some(w.merchantFor[Product(e)])
    ensures c.Covers(e)
  {
    assert items[..|items|] == items;
    assert e in ItemsUpTo(items, |items|);
  }

  /** Deletes the transactions of items that were active before and are not now. */
  method DropRetired(transactions: map<Key, Transaction>, previous: set<Key>, current: set<Key>)
    returns (after: map<Key, Transaction>)
    ensures forall id :: id in after <==> id in transactions && (id in previous ==> id in current)
    ensures forall id :: id in after ==> after[id] == transactions[id]
  {
    after := transactions;
    var todo: set<Key> := previous;
    while todo != {}
      invariant todo <= previous
      invariant forall id :: id in after <==> id in transactions && (id in previous && id !in todo ==> id in current)
      invariant forall id :: id in after ==> after[id] == transactions[id]
      decreases todo
    {
      ghost var some: Key := SomeElement(todo);
      var id :| id in todo;
      todo := todo - {id};
      if id !in current {
        after := after - {id};
      }
    }
  }

  // The whole step --------------------------------------------------------------------------------------

  function ActiveTransactions(items: set<Item>): set<Key> {
    set e | e in items && !e.retired :: e.transaction
  }

  ghost predicate TablesGrow(p: Profile, p': Profile) {
    && Extends(p.accounts, p'.accounts) && Extends(p.merchants, p'.merchants) && p'.categories == p.categories
    && p'.groups == p.groups && p'.groupOf == p.groupOf
    && AllIdentitiesKept(p.identities, p'.identities) && NamesFollow(p, p'.accounts, p'.merchants, p'.identities)
  }

  ghost predicate ItemsFinished(c: Lookup, items: seq<Item>, items': seq<Item>) {
    && |items'| == |items|
    && forall k :: 0 <= k < |items| ==>
         var e := Remembered(items[k], c.before.transactions);
         (!e.retired ==> c.Covers(e)) && items'[k] == Finished(c, e)
  }

  ghost predicate TransactionsWritten(c: Lookup, items: seq<Item>, transactions: map<Key, Transaction>) {
    && (forall id :: id in transactions <==>
          id in ActiveIds(items) || (id in c.before.transactions && id !in ActiveTransactions(c.prior)))
    && (forall k :: 0 <= k < |items| && !items[k].retired ==>
          var e := Remembered(items[k], c.before.transactions);
          c.Covers(e) && e.transaction in transactions && transactions[e.transaction] == NextTransaction(c, e))
    && (forall id :: id in transactions && id !in ActiveIds(items) ==> transactions[id] == c.before.transactions[id])
  }

  /** What materializing reconciled items makes of a profile. */
  ghost predicate Materialized(p: Profile, before: set<Item>, items: seq<Item>, p': Profile, items': seq<Item>) {
    var c := Lookup(p, before, p'.identities);
    TablesGrow(p, p') && ItemsFinished(c, items, items') && TransactionsWritten(c, items, p'.transactions)
  }

  // Which references are active --------------------------------------------------------------------------

  /** The item's transaction gets the merchant its product names: a new item does, a restored one whose remembered
  merchant leads nowhere, and a live one that still had the merchant of its previous product. */
  ghost predicate TakesProviderMerchant(c: Lookup, e: Item) {
    if e.transaction in c.before.transactions
        then StillProviderMerchant(c, e, c.before.transactions[e.transaction].merchant)
    else e.local.category.None? || forall to :: !LeadsTo(c.before.merchants, e.local.merchant, to)
  }

  /** The item's transaction gets the account its order names. */
  ghost predicate TakesProviderAccount(p: Profile, e: Item) {
    e.transaction !in p.transactions && (e.local.category.None? || !MergeChains.Active(p.accounts, e.local.account))
  }

  /** The item's product, or order, names a retired entity in the saved profile, and its transaction would get it. */
  ghost predicate TakesRetired(p: Profile, prior: set<Item>, e: Item) {
    var c := Lookup(p, prior, p.identities);
    || (c.Merchant(e).Some? && !MergeChains.Active(p.merchants, c.Merchant(e).value) && TakesProviderMerchant(c, e))
    || (c.Account(e).Some? && !MergeChains.Active(p.accounts, c.Account(e).value) && TakesProviderAccount(p, e))
  }

  /** No active item would get a retired merchant or account. */
  ghost predicate NoneTakesRetired(p: Profile, prior: set<Item>, items: seq<Item>) {
    forall k :: 0 <= k < |items| && !items[k].retired ==> !TakesRetired(p, prior, Remembered(items[k], p.transactions))
  }

  // Whether an active item's provider entity is active after the import can be read off the saved profile.
  lemma ProvidedIsActive(p: Profile, p': Profile, x: External)
    requires TablesGrow(p, p') && IdentitiesFit(p) && Resolve(p'.identities, KindOf(x), x).Some?
    ensures
      var before, after := Resolve(p.identities, KindOf(x), x), Resolve(p'.identities, KindOf(x), x).value;
      var t, t' := if KindOf(x) == AccountKind then p.accounts else p.merchants,
                   if KindOf(x) == AccountKind then p'.accounts else p'.merchants;
      && (before.Some? ==> after == before.value && after in t)
      && (before.None? ==> after !in t && MergeChains.Active(t', after))
  {
    hide Extends;
    assert NameFollows(p, p'.accounts, p'.merchants, x, p'.identities[x]);
    if Resolve(p.identities, KindOf(x), x).Some? {
      assert IdentityFits(p, p.identities[x]);
    }
  }

  lemma SameActive(t: Table, t': Table, id: Id)
    requires Extends(t, t') && id in t
    ensures MergeChains.Active(t', id) <==> MergeChains.Active(t, id)
  {
  }

  lemma StillTheSame(p: Profile, p': Profile, prior: set<Item>, e: Item, merchant: Id)
    requires TablesGrow(p, p') && IdentitiesFit(p) && merchant in p.merchants
    ensures StillProviderMerchant(Lookup(p, prior, p'.identities), e, merchant) <==>
            StillProviderMerchant(Lookup(p, prior, p.identities), e, merchant)
  {
    var c, c' := Lookup(p, prior, p.identities), Lookup(p, prior, p'.identities);
    forall q: Item ensures c'.Merchant(q) == Some(merchant) <==> c.Merchant(q) == Some(merchant) {
      var x := ProductExternal(Product(q));
      assert KindOf(x) == MerchantKind;
      if c'.Merchant(q).Some? {
        ProvidedIsActive(p, p', x);
      }
    }
    hide TablesGrow, IdentitiesFit, Lookup.Merchant;
  }

  lemma DestinationIsActive(t: Table, from: Id, fallback: Id)
    ensures (exists to :: LeadsTo(t, from, to)) ==> MergeChains.Active(t, Destination(t, from, fallback))
    ensures (forall to :: !LeadsTo(t, from, to)) ==> Destination(t, from, fallback) == fallback
  {
    if to :| LeadsTo(t, from, to) {
      DestinationIs(t, from, fallback, to);
      hide Destination;
      var path :| ChainTo(t, path, from, to);
    }
  }

  // The merchant of an active item's transaction.
  lemma NextMerchantIsActive(p: Profile, p': Profile, prior: set<Item>, e: Item)
    requires TablesGrow(p, p') && IdentitiesFit(p) && Lookup(p, prior, p'.identities).Covers(e)
    requires e.transaction in p.transactions ==> MergeChains.Active(p.merchants, p.transactions[e.transaction].merchant)
    ensures
      var c := Lookup(p, prior, p.identities);
      MergeChains.Active(p'.merchants, NextLocal(Lookup(p, prior, p'.identities), e).merchant) <==>
      !(c.Merchant(e).Some? && !MergeChains.Active(p.merchants, c.Merchant(e).value) && TakesProviderMerchant(c, e))
  {
    var c, c' := Lookup(p, prior, p.identities), Lookup(p, prior, p'.identities);
    assert KindOf(ProductExternal(Product(e))) == MerchantKind;
    ProvidedIsActive(p, p', ProductExternal(Product(e)));
    var provided := c'.Merchant(e).value;
    if c.Merchant(e).Some? {
      SameActive(p.merchants, p'.merchants, provided);
    }
    if e.transaction in p.transactions {
      var merchant := p.transactions[e.transaction].merchant;
      StillTheSame(p, p', prior, e, merchant);
      SameActive(p.merchants, p'.merchants, merchant);
    } else if e.local.category.Some? {
      DestinationIsActive(p.merchants, e.local.merchant, provided);
      if exists to :: LeadsTo(p.merchants, e.local.merchant, to) {
        SameActive(p.merchants, p'.merchants, Destination(p.merchants, e.local.merchant, provided));
      }
    }
    hide TablesGrow, IdentitiesFit, Lookup.Merchant, Lookup.Account, StillProviderMerchant, Destination,
         MergeChains.Active;
  }

  lemma NextAccountIsActive(p: Profile, p': Profile, prior: set<Item>, e: Item)
    requires TablesGrow(p, p') && IdentitiesFit(p) && Lookup(p, prior, p'.identities).Covers(e)
    requires e.transaction in p.transactions ==> MergeChains.Active(p.accounts, p.transactions[e.transaction].account)
    ensures
      var c := Lookup(p, prior, p.identities);
      MergeChains.Active(p'.accounts, NextLocal(Lookup(p, prior, p'.identities), e).account) <==>
      !(c.Account(e).Some? && !MergeChains.Active(p.accounts, c.Account(e).value) && TakesProviderAccount(p, e))
  {
    var c, c' := Lookup(p, prior, p.identities), Lookup(p, prior, p'.identities);
    assert KindOf(OrderExternal(e.order)) == AccountKind;
    ProvidedIsActive(p, p', OrderExternal(e.order));
    var provided := c'.Account(e).value;
    if c.Account(e).Some? {
      SameActive(p.accounts, p'.accounts, provided);
    }
    if e.transaction in p.transactions {
      SameActive(p.accounts, p'.accounts, p.transactions[e.transaction].account);
    } else if e.local.category.Some? && MergeChains.Active(p.accounts, e.local.account) {
      SameActive(p.accounts, p'.accounts, e.local.account);
    }
    hide TablesGrow, IdentitiesFit, Lookup.Merchant, Lookup.Account, StillProviderMerchant, Destination;
  }

  lemma NextCategoryIsActive(p: Profile, p': Profile, prior: set<Item>, e: Item)
    requires TablesGrow(p, p') && Lookup(p, prior, p'.identities).Covers(e)
    requires MergeChains.Active(p.categories, UNCATEGORIZED)
    requires e.transaction in p.transactions ==>
        MergeChains.Active(p.categories, p.transactions[e.transaction].category)
    ensures
      var local := NextLocal(Lookup(p, prior, p'.identities), e);
      local.category.Some? && MergeChains.Active(p'.categories, local.category.value)
  {
    if e.transaction !in p.transactions && e.local.category.Some? {
      DestinationIsActive(p.categories, e.local.category.value, UNCATEGORIZED);
    }
    hide Lookup.Merchant, Lookup.Account, StillProviderMerchant, Destination;
  }

  lemma NextRefers(p: Profile, p': Profile, prior: set<Item>, e: Item)
    requires TablesGrow(p, p') && IdentitiesFit(p) && Lookup(p, prior, p'.identities).Covers(e)
    requires MergeChains.Active(p.categories, UNCATEGORIZED)
    requires e.transaction in p.transactions ==> Refers(p, p.transactions[e.transaction])
    ensures Refers(p', NextTransaction(Lookup(p, prior, p'.identities), e)) <==> !TakesRetired(p, prior, e)
  {
    NextMerchantIsActive(p, p', prior, e);
    NextAccountIsActive(p, p', prior, e);
    NextCategoryIsActive(p, p', prior, e);
    hide TablesGrow, IdentitiesFit, Lookup.Covers, NextLocal, TakesProviderMerchant, TakesProviderAccount;
  }

  lemma KeptRefers(p: Profile, p': Profile, t: Transaction)
    requires TablesGrow(p, p') && Refers(p, t)
    ensures Refers(p', t)
  {
    hide AllIdentitiesKept, NamesFollow;
  }

  /** After materializing, every live transaction references an active account, merchant and category if and only if
  no active item takes an entity that the saved profile had retired. */
  lemma ReferencesStayActive(p: Profile, before: set<Item>, items: seq<Item>, p': Profile, items': seq<Item>)
    requires References(p) && IdentitiesFit(p) && MergeChains.Active(p.categories, UNCATEGORIZED)
    requires Materialized(p, before, items, p', items')
    ensures References(p') <==> NoneTakesRetired(p, before, items)
  {
    hide TablesGrow, ItemsFinished, IdentitiesFit, NextTransaction, TakesRetired, Lookup.Covers;
    var c := Lookup(p, before, p'.identities);
    forall k | 0 <= k < |items| && !items[k].retired
      ensures items[k].transaction in p'.transactions
      ensures Refers(p', p'.transactions[items[k].transaction]) <==>
              !TakesRetired(p, before, Remembered(items[k], p.transactions))
    {
      RememberedKeeps(items[k], p.transactions);
      NextRefers(p, p', before, Remembered(items[k], p.transactions));
    }
    forall id | id in p'.transactions && id !in ActiveIds(items) ensures Refers(p', p'.transactions[id]) {
      KeptRefers(p, p', p.transactions[id]);
    }
    hide Remembered, Refers, TransactionsWritten;
  }

  lemma RememberedKeeps(e: Item, transactions: map<Key, Transaction>)
    ensures Remembered(e, transactions) == e.(local := Remembered(e, transactions).local)
  {
  }

  lemma RememberedFacts(items: seq<Item>, transactions: map<Key, Transaction>, remembered: seq<Item>)
    requires DistinctTransactions(items) && |remembered| == |items|
    requires forall i :: 0 <= i < |items| ==> remembered[i] == Remembered(items[i], transactions)
    ensures DistinctTransactions(remembered) && ActiveIds(remembered) == ActiveIds(items)
  {
    forall i | 0 <= i < |items| && !items[i].retired
      ensures items[i].transaction in ActiveIds(remembered) && remembered[i].transaction in ActiveIds(items)
    {
      assert items[i] in items && remembered[i] in remembered;
    }
  }

  lemma ProvidersCover(c: Lookup, w: Providers, slots: map<Key, Item>, items: seq<Item>)
    requires LookupAgrees(c, w, slots) && Assigned(ItemsUpTo(items, |items|), w)
    ensures forall e :: e in items && !e.retired ==> c.Covers(e)
  {
    forall e | e in items && !e.retired ensures c.Covers(e) {
      AssignedFacts(c, w, slots, items, e);
    }
  }

  lemma AllFinished(c: Lookup, items: seq<Item>, remembered: seq<Item>, after: seq<Item>,
    written: map<Key, Transaction>)
    requires |remembered| == |items|
    requires forall i :: 0 <= i < |items| ==> remembered[i] == Remembered(items[i], c.before.transactions)
    requires forall e :: e in remembered && !e.retired ==> c.Covers(e)
    requires Writing(c, remembered, |items|, after, written)
    ensures ItemsFinished(c, items, after)
  {
    hide NextTransaction, NextLocal, Remembered, Lookup.Covers, ActiveIds, Finished;
    forall k | 0 <= k < |items|
      ensures
        var e := Remembered(items[k], c.before.transactions);
        (!e.retired ==> c.Covers(e)) && after[k] == Finished(c, e)
    {
      assert remembered[k] in remembered;
    }
  }

  lemma AllWritten(
    c: Lookup, items: seq<Item>, remembered: seq<Item>, after: seq<Item>, written: map<Key, Transaction>,
    kept: map<Key, Transaction>)
    requires |remembered| == |items| && ActiveIds(remembered) == ActiveIds(items)
    requires forall i :: 0 <= i < |items| ==> remembered[i] == Remembered(items[i], c.before.transactions)
    requires forall e :: e in remembered && !e.retired ==> c.Covers(e)
    requires Writing(c, remembered, |items|, after, written)
    requires forall id :: id in kept <==>
        id in written && (id in ActiveTransactions(c.prior) ==> id in ActiveIds(items))
    requires forall id :: id in kept ==> kept[id] == written[id]
    ensures TransactionsWritten(c, items, kept)
  {
    assert remembered[..|items|] == remembered;
    forall k | 0 <= k < |items| && !items[k].retired
      ensures
        var e := remembered[k];
        && e == Remembered(items[k], c.before.transactions) && e in remembered && c.Covers(e)
        && e.transaction in kept && kept[e.transaction] == NextTransaction(c, e)
    {
      RememberedKeeps(items[k], c.before.transactions);
      ActiveId(items, k);
      hide NextTransaction, Remembered, ActiveIds, ActiveTransactions, Lookup.Covers;
    }
    hide NextTransaction, Remembered, Lookup.Covers, ActiveIds, ActiveTransactions;
  }

  lemma ActiveId(items: seq<Item>, k: nat)
    requires k < |items| && !items[k].retired
    ensures items[k].transaction in ActiveIds(items)
  {
    assert items[k] in items;
  }

  // Remembering changes no external key.
  lemma RememberedWants(
    p: Profile, items: seq<Item>, remembered: seq<Item>, orderLabel: Key -> string, productLabel: Key -> string,
    collisionKey: string -> Option<string>)
    requires |remembered| == |items|
    requires forall i :: 0 <= i < |items| ==> remembered[i] == Remembered(items[i], p.transactions)
    ensures NewOrders(p, remembered) == NewOrders(p, items) && NewProducts(p, remembered) == NewProducts(p, items)
    ensures UnnameableItem(p, remembered, orderLabel, productLabel, collisionKey) ==>
              UnnameableItem(p, items, orderLabel, productLabel, collisionKey)
  {
    hide NewOrders, NewProducts, UnnameableItem;
    forall e | e in items
      ensures exists a :: a in remembered && SameKeys(a, e)
    {
      var i :| 0 <= i < |items| && items[i] == e;
      assert remembered[i] in remembered && SameKeys(remembered[i], e);
    }
    forall e | e in remembered
      ensures exists a :: a in items && SameKeys(a, e)
    {
      var i :| 0 <= i < |remembered| && remembered[i] == e;
      assert items[i] in items && SameKeys(items[i], e);
    }
    hide Remembered, SameKeys;
    SameWants(p, items, remembered);
    SameWants(p, remembered, items);
    SameNames(p, remembered, items, orderLabel, productLabel, collisionKey);
  }

  lemma SameNames(
    p: Profile, items: seq<Item>, others: seq<Item>, orderLabel: Key -> string, productLabel: Key -> string,
    collisionKey: string -> Option<string>)
    requires forall e :: e in items ==> exists a :: a in others && SameKeys(a, e)
    ensures UnnameableItem(p, items, orderLabel, productLabel, collisionKey) ==>
              UnnameableItem(p, others, orderLabel, productLabel, collisionKey)
  {
    hide Unnameable, Resolve;
    if UnnameableItem(p, items, orderLabel, productLabel, collisionKey) {
      var e :| e in items && !e.retired && UnnameableAs(p, e, orderLabel, productLabel, collisionKey);
      var a :| a in others && SameKeys(a, e);
      assert UnnameableAs(p, a, orderLabel, productLabel, collisionKey);
    }
  }

  predicate SameKeys(a: Item, b: Item) {
    a.order == b.order && a.facts == b.facts && a.retired == b.retired
  }

  lemma SameWants(p: Profile, items: seq<Item>, others: seq<Item>)
    requires forall e :: e in items ==> exists a :: a in others && SameKeys(a, e)
    ensures NewOrders(p, items) <= NewOrders(p, others) && NewProducts(p, items) <= NewProducts(p, others)
  {
    hide Resolve;
  }

  /** Why an import is refused. */
  datatype Refusal = SettingsRefused | ItemsExhausted | TaxonomyRefused | Unassigned | InvalidProfile | RebaseRefused

  // A valid profile stays valid up to label clashes and references.
  lemma ValidityLeft(p: Profile, p': Profile, collisionKey: string -> Option<string>)
    requires ValidProfile(p, collisionKey) && TablesGrow(p, p')
    requires NewOnesFit(p.accounts, p'.accounts, collisionKey) && NewOnesFit(p.merchants, p'.merchants, collisionKey)
    ensures ValidProfile(p', collisionKey) <==>
        DistinctKeys(p'.accounts) && DistinctKeys(p'.merchants) && References(p')
  {
    assert LabelsFit(p'.accounts, collisionKey) && LabelsFit(p'.merchants, collisionKey) && MergesFit(p'.merchants) by {
      hide TaxonomyFits, References, IdentitiesFit, DistinctKeys, AllIdentitiesKept, NamesFollow;
    }
    assert IdentitiesFit(p') by {
      hide TaxonomyFits, References, LabelsFit, DistinctKeys, MergesFit, AllIdentitiesKept, NewOnesFit;
      forall x | x in p'.identities ensures IdentityFits(p', p'.identities[x]) {
        assert NameFollows(p, p'.accounts, p'.merchants, x, p'.identities[x]);
        if x in p.identities {
          assert IdentityFits(p, p.identities[x]);
        }
      }
    }
    assert TaxonomyFits(p') by {
      hide References, LabelsFit, DistinctKeys, MergesFit, AllIdentitiesKept, NamesFollow, IdentitiesFit, NewOnesFit,
           Extends;
    }
    hide LabelsFit, MergesFit, TaxonomyFits, References, IdentitiesFit, DistinctKeys, Extends, AllIdentitiesKept,
         NamesFollow, NewOnesFit;
  }

  /** Some label of the candidate clashes, because its plain form and all its suffixed forms were taken. */
  ghost predicate LabelsClash(candidate: Profile, collisionKey: string -> Option<string>) {
    && (!DistinctKeys(candidate.accounts) || !DistinctKeys(candidate.merchants))
    && OutOfSuffixes(ActiveKeys(candidate.accounts) + ActiveKeys(candidate.merchants), collisionKey)
  }

  // When the last check of an import accepts.
  lemma AcceptedExactly(
    p: Profile, before: set<Item>, items: seq<Item>, candidate: Profile, finished: seq<Item>,
    collisionKey: string -> Option<string>)
    requires ValidProfile(p, collisionKey) && Materialized(p, before, items, candidate, finished)
    requires NewOnesFit(p.accounts, candidate.accounts, collisionKey)
        && NewOnesFit(p.merchants, candidate.merchants, collisionKey)
    requires LabelsHold(p, candidate.accounts, candidate.merchants,
        ActiveKeys(candidate.accounts) + ActiveKeys(candidate.merchants),
                        collisionKey)
    ensures ValidProfile(candidate, collisionKey) <==>
            NoneTakesRetired(p, before, items) && !LabelsClash(candidate, collisionKey)
  {
    hide LabelsFit, MergesFit, References, IdentitiesFit, DistinctKeys, NewOnesFit, OutOfSuffixes, ActiveKeys,
         NoneTakesRetired,
         TablesGrow, ItemsFinished, TransactionsWritten;
    ReferencesStayActive(p, before, items, candidate, finished);
    ValidityLeft(p, candidate, collisionKey);
  }

  /** The materializer: remembers user fields, resolves providers, writes the transactions of active items, deletes
  those of items that are no longer active, and validates the result.

  `candidate` and `finished` are what it validated. */
  method Materialize(
    p: Profile, before: seq<Item>, items: seq<Item>, accountIds: seq<Id>, merchantIds: seq<Id>,
    naming: Naming)
    returns (r: Result<(Profile, seq<Item>), Refusal>, ghost candidate: Profile, ghost finished: seq<Item>)
    requires DistinctItems(Elements(before)) && DistinctTransactions(items)
    requires SpareIds(accountIds, 0, p.accounts) && SpareIds(merchantIds, 0, p.merchants)
    requires Digests(naming)
    ensures r.Success? || r == Failure(Unassigned) || r == Failure(InvalidProfile)
    ensures r.Success? ==> r.value == (candidate, finished) && ValidProfile(candidate, naming.collisionKey)
    ensures r != Failure(Unassigned) ==> Materialized(p, Elements(before), items, candidate, finished)
    ensures r != Failure(Unassigned) ==> NewOnesCalled(p, items, candidate, naming)
    ensures r == Failure(Unassigned) ==>
      || |accountIds| < |NewOrders(p, items)| || |merchantIds| < |NewProducts(p, items)|
      || UnnameableItem(p, items, naming.orderLabel, naming.productLabel, naming.collisionKey)
    ensures r == Failure(InvalidProfile) ==> !ValidProfile(candidate, naming.collisionKey)
    ensures ValidProfile(p, naming.collisionKey) && r != Failure(Unassigned) ==>
      (r.Success? <==> NoneTakesRetired(p, Elements(before), items) && !LabelsClash(candidate, naming.collisionKey))
  {
    hide NewOrders, NewProducts, UnnameableItem, ValidProfile, NoneTakesRetired, LabelsClash, LabelsHold, NewOnesFit,
         OutOfSuffixes;
    hide NewOnesCalled, Calling, Materialized, ItemsFinished, TransactionsWritten, Providing, Writing, SpareIds,
         DistinctKeys, Assigned,
         DistinctItems, InSlots,
         TransactionsOf;
    candidate, finished := p, items;
    var slots := Slots(before);
    var remembered := Remember(items, p.transactions);
    RememberedFacts(items, p.transactions, remembered);
    var w := ResolveProviders(p, remembered, accountIds, merchantIds, naming);
    if w.None? {
      RememberedWants(p, items, remembered, naming.orderLabel, naming.productLabel, naming.collisionKey);
      return Failure(Unassigned), candidate, finished;
    }
    var c := Lookup(p, Elements(before), w.value.identities);
    ghost var reserved := ActiveKeys(w.value.accounts) + ActiveKeys(w.value.merchants);
    ProvidingParts(p, ItemsUpTo(remembered, |items|), w.value, reserved, naming.collisionKey);
    ProvidersCover(c, w.value, slots, remembered);
    var after, written := WriteTransactions(c, w.value, slots, remembered);
    var kept := DropRetired(written, ActiveTransactions(Elements(before)), ActiveIds(remembered));
    var p' := p.(accounts := w.value.accounts, merchants := w.value.merchants, identities := w.value.identities,
        transactions := kept);
    AllFinished(c, items, remembered, after, written);
    AllWritten(c, items, remembered, after, written, kept);
    MaterializedFrom(p, Elements(before), items, w.value, reserved, naming.collisionKey, p', after);
    CallingRemembered(p, items, remembered, w.value, p', naming);
    candidate, finished := p', after;
    if ValidProfile(p, naming.collisionKey) {
      AcceptedExactly(p, Elements(before), items, candidate, finished, naming.collisionKey);
    }
    var valid := Validate(p', naming.collisionKey);
    if !valid {
      return Failure(InvalidProfile), candidate, finished;
    }
    return Success((p', after)), candidate, finished;
  }

  lemma CallingRemembered(p: Profile, items: seq<Item>, remembered: seq<Item>, w: Providers, p': Profile,
    naming: Naming)
    requires Digests(naming) && |remembered| == |items| && Calling(p, remembered, |items|, |items|, w, naming)
    requires forall i :: 0 <= i < |items| ==> remembered[i] == Remembered(items[i], p.transactions)
    requires p'.accounts == w.accounts && p'.merchants == w.merchants && p'.identities == w.identities
    ensures NewOnesCalled(p, items, p', naming)
  {
    var before := ActiveKeys(p.accounts) + ActiveKeys(p.merchants);
    SameFactsCall(AccountKind, remembered, items, p.accounts, w.accounts, w.merchants, w.identities, before, naming);
    SameFactsCall(MerchantKind, remembered, items, p.merchants, w.merchants, w.accounts, w.identities, before, naming);
    hide AllCalled, ActiveKeys;
  }

  lemma MaterializedFrom(
    p: Profile, before: set<Item>, items: seq<Item>, w: Providers, reserved: set<string>,
    collisionKey: string -> Option<string>,
    p': Profile, items': seq<Item>)
    requires exists some :: Providing(p, some, w, reserved, collisionKey)
    requires p'.accounts == w.accounts && p'.merchants == w.merchants && p'.identities == w.identities
    requires p'.categories == p.categories && p'.groups == p.groups && p'.groupOf == p.groupOf
    requires ItemsFinished(Lookup(p, before, w.identities), items, items')
    requires TransactionsWritten(Lookup(p, before, w.identities), items, p'.transactions)
    ensures Materialized(p, before, items, p', items')
  {
    hide ItemsFinished, TransactionsWritten, AllIdentitiesKept, Extends, DistinctKeys, OutOfSuffixes, Assigned;
  }

  lemma ProvidingParts(p: Profile, items: set<Item>, w: Providers, reserved: set<string>,
    collisionKey: string -> Option<string>)
    requires Providing(p, items, w, reserved, collisionKey)
    ensures Assigned(items, w) && LabelsHold(p, w.accounts, w.merchants, reserved, collisionKey)
    ensures NewOnesFit(p.accounts, w.accounts, collisionKey) && NewOnesFit(p.merchants, w.merchants, collisionKey)
  {
  }
}
