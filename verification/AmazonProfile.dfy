/** The committed profile an Amazon import reads and writes, and the validation that ends every import. */
module AmazonProfile {
  import opened Wrappers
  import opened Ranking
  import opened MergeChains
  import opened AmazonReconcile

  const UNCATEGORIZED: Id := "category_system_uncategorized"
  const SPLIT: Id := "category_system_split"
  const UNCATEGORIZED_GROUP: Id := "group_system_uncategorized"
  const UNCATEGORIZED_ENTITY := Entity("Uncategorized", "uncategorized", false, None)
  const SPLIT_ENTITY := Entity("Split", "split", false, None)

  datatype ProductKey = Asin(asin: Key) | Asinless(key: Key)

  datatype External = OrderExternal(order: Key) | ProductExternal(product: ProductKey)

  datatype Kind = AccountKind | MerchantKind | OtherKind

  datatype Identity = Identity(kind: Kind, entity: Id)

  datatype Transaction = Transaction(
    source: Key, account: Id, merchant: Id, category: Id,
    date: int, amount: int, currency: Key, scale: int, notes: Key, hidden: bool)

  /** `groupOf` names every category's group. */
  datatype Profile = Profile(
    accounts: Table, merchants: Table, groups: Table, categories: Table, groupOf: map<Id, Id>,
    identities: map<External, Identity>, transactions: map<Key, Transaction>)

  function Resolve(identities: map<External, Identity>, kind: Kind, external: External): Option<Id> {
    if external in identities && identities[external].kind == kind then Some(identities[external].entity) else None
  }

  // What a valid profile is -----------------------------------------------------------------------------

  /** Every entity's stored key is its label's. */
  predicate LabelsFit(t: Table, collisionKey: string -> Option<string>) {
    forall id :: id in t ==> collisionKey(t[id].text) == Some(t[id].key)
  }

  /** Only retired entities were merged, and directly into another entity that is active. */
  predicate MergesFit(t: Table) {
    forall id :: id in t && t[id].destination.Some? ==> MergeFits(t, id)
  }

  predicate MergeFits(t: Table, id: Id)
    requires id in t && t[id].destination.Some?
  {
    var to := t[id].destination.value;
    t[id].retired && to != id && to in t && !t[to].retired
  }

  /** The protected group and categories are in place, and every category's group is active. */
  predicate TaxonomyFits(p: Profile) {
    && UNCATEGORIZED_GROUP in p.groups && p.groups[UNCATEGORIZED_GROUP].(destination := None) == UNCATEGORIZED_ENTITY
    && Protected(p, UNCATEGORIZED, UNCATEGORIZED_ENTITY) && Protected(p, SPLIT, SPLIT_ENTITY)
    && forall id :: id in p.categories ==>
       id in p.groupOf && p.groupOf[id] in p.groups && !p.groups[p.groupOf[id]].retired
  }

  predicate Protected(p: Profile, id: Id, e: Entity) {
    && id in p.categories && p.categories[id].(destination := None) == e
    && id in p.groupOf && p.groupOf[id] == UNCATEGORIZED_GROUP
  }

  predicate Refers(p: Profile, t: Transaction) {
    && t.account in p.accounts && !p.accounts[t.account].retired
    && t.merchant in p.merchants && !p.merchants[t.merchant].retired
    && t.category in p.categories && !p.categories[t.category].retired
  }

  /** Every live transaction references an active account, merchant and category. */
  predicate References(p: Profile) {
    forall id :: id in p.transactions ==> Refers(p, p.transactions[id])
  }

  /** Every external identity of an account or a merchant names a known one. */
  predicate IdentitiesFit(p: Profile) {
    forall x :: x in p.identities ==> IdentityFits(p, p.identities[x])
  }

  predicate IdentityFits(p: Profile, n: Identity) {
    && (n.kind == AccountKind ==> n.entity in p.accounts)
    && (n.kind == MerchantKind ==> n.entity in p.merchants)
  }

  ghost predicate ValidProfile(p: Profile, collisionKey: string -> Option<string>) {
    && LabelsFit(p.accounts, collisionKey) && LabelsFit(p.merchants, collisionKey)
    && LabelsFit(p.groups, collisionKey) && LabelsFit(p.categories, collisionKey)
    && DistinctKeys(p.accounts) && DistinctKeys(p.merchants) && DistinctKeys(p.groups) && DistinctKeys(p.categories)
    && MergesFit(p.merchants) && MergesFit(p.groups) && MergesFit(p.categories)
    && TaxonomyFits(p) && References(p) && IdentitiesFit(p)
  }

  // The checks --------------------------------------------------------------------------------------------

  /** Active entities of one kind have different keys. */
  method ValidateCollisions(t: Table) returns (ok: bool)
    ensures ok <==> DistinctKeys(t)
  {
    var seen: set<string> := {};
    var todo := t.Keys;
    while todo != {}
      invariant todo <= t.Keys
      invariant forall key :: key in seen <==> exists id :: id in t && id !in todo && !t[id].retired && t[id].key == key
      invariant forall a, b ::
          a in t && b in t && a !in todo && b !in todo && a != b && !t[a].retired && !t[b].retired ==>
                  t[a].key != t[b].key
      decreases todo
    {
      ghost var some: Id := SomeElement(todo);
      var id :| id in todo;
      todo := todo - {id};
      if !t[id].retired {
        if t[id].key in seen {
          return false;
        }
        seen := seen + {t[id].key};
      }
    }
    return true;
  }

  method ValidateLabels(t: Table, collisionKey: string -> Option<string>) returns (ok: bool)
    ensures ok <==> LabelsFit(t, collisionKey)
  {
    var todo := t.Keys;
    while todo != {}
      invariant todo <= t.Keys
      invariant forall id :: id in t && id !in todo ==> collisionKey(t[id].text) == Some(t[id].key)
      decreases todo
    {
      ghost var some: Id := SomeElement(todo);
      var id :| id in todo;
      todo := todo - {id};
      if collisionKey(t[id].text) != Some(t[id].key) {
        return false;
      }
    }
    return true;
  }

  method ValidateMerges(t: Table) returns (ok: bool)
    ensures ok <==> MergesFit(t)
  {
    var todo := t.Keys;
    while todo != {}
      invariant todo <= t.Keys
      invariant forall id :: id in t && id !in todo && t[id].destination.Some? ==> MergeFits(t, id)
      decreases todo
    {
      ghost var some: Id := SomeElement(todo);
      var id :| id in todo;
      todo := todo - {id};
      if t[id].destination.Some? {
        var to := t[id].destination.value;
        if !t[id].retired || to !in t || t[to].retired || to == id {
          assert !MergeFits(t, id);
          return false;
        }
      }
    }
    return true;
  }

  method ValidateReferences(p: Profile) returns (ok: bool)
    ensures ok <==> References(p)
  {
    var todo := p.transactions.Keys;
    while todo != {}
      invariant todo <= p.transactions.Keys
      invariant forall id :: id in p.transactions && id !in todo ==> Refers(p, p.transactions[id])
      decreases todo
    {
      ghost var some: Key := SomeElement(todo);
      var id :| id in todo;
      todo := todo - {id};
      var t := p.transactions[id];
      if t.account !in p.accounts || p.accounts[t.account].retired {
        return false;
      }
      if t.merchant !in p.merchants || p.merchants[t.merchant].retired {
        return false;
      }
      if t.category !in p.categories || p.categories[t.category].retired {
        return false;
      }
    }
    return true;
  }

  method ValidateIdentities(p: Profile) returns (ok: bool)
    ensures ok <==> IdentitiesFit(p)
  {
    var todo := p.identities.Keys;
    while todo != {}
      invariant todo <= p.identities.Keys
      invariant forall x :: x in p.identities && x !in todo ==> IdentityFits(p, p.identities[x])
      decreases todo
    {
      ghost var some: External := SomeElement(todo);
      var x :| x in todo;
      todo := todo - {x};
      var n := p.identities[x];
      if (n.kind == AccountKind && n.entity !in p.accounts) || (n.kind == MerchantKind && n.entity !in p.merchants) {
        return false;
      }
    }
    return true;
  }

  /** Validates a profile as the last step of an import. */
  method Validate(p: Profile, collisionKey: string -> Option<string>) returns (ok: bool)
    ensures ok <==> ValidProfile(p, collisionKey)
  {
    hide LabelsFit, DistinctKeys, MergesFit, TaxonomyFits, References, IdentitiesFit;
    ok := ValidateLabels(p.accounts, collisionKey);
    if ok { ok := ValidateLabels(p.merchants, collisionKey); }
    if ok { ok := ValidateLabels(p.groups, collisionKey); }
    if ok { ok := ValidateLabels(p.categories, collisionKey); }
    if ok { ok := ValidateCollisions(p.accounts); }
    if ok { ok := ValidateCollisions(p.merchants); }
    if ok { ok := ValidateCollisions(p.groups); }
    if ok { ok := ValidateCollisions(p.categories); }
    if ok { ok := ValidateMerges(p.merchants); }
    if ok { ok := ValidateMerges(p.groups); }
    if ok { ok := ValidateMerges(p.categories); }
    if ok { ok := TaxonomyFits(p); }
    if ok { ok := ValidateReferences(p); }
    if ok { ok := ValidateIdentities(p); }
  }
}
