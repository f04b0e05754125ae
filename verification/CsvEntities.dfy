/** The entity tables a CSV import reads and extends: accounts, merchants, categories and the
aliases by which source labels find them. */
module CsvEntities {
  import opened Wrappers
  import opened MergeChains

  const UNCATEGORIZED_ID: Id := "category_system_uncategorized"
  const UNCATEGORIZED_KEY := "uncategorized"
  const SPLIT_ID: Id := "category_system_split"

  datatype Alias =
    | AccountAlias(key: string)
    | MerchantAlias(key: string)
    | CategoryAlias(key: string)
    | TransactionAlias(key: string)

  datatype EntityError = BadLabel | DeadAlias | Exhausted

  /** The library functions the importer relies on: the collision key of a label, and the
  hexadecimal digest of an alias and a local identifier. */
  datatype Naming = Naming(
    collisionKey: string -> Option<string>,
    digest: (string, string, Id) -> string)

  ghost predicate ValidNaming(n: Naming) {
    forall namespace, key, id :: |n.digest(namespace, key, id)| == DIGEST_LENGTH
  }

  datatype Tables = Tables(
    accounts: map<string, Id>,
    merchants: Table,
    categories: Table,
    aliases: map<Alias, Id>)

  /** Every merge destination and every alias names a table entry. */
  ghost predicate ValidTables(d: Tables) {
    && Closed(d.merchants) && Closed(d.categories)
    && (forall k :: MerchantAlias(k) in d.aliases ==> d.aliases[MerchantAlias(k)] in d.merchants)
    && (forall k :: CategoryAlias(k) in d.aliases ==> d.aliases[CategoryAlias(k)] in d.categories)
  }

  ghost predicate Closed(t: Table) {
    forall id :: id in t && t[id].destination.Some? ==> t[id].destination.value in t
  }

  ghost predicate ExtendsMap<K, V>(before: map<K, V>, after: map<K, V>) {
    forall k :: k in before ==> k in after && after[k] == before[k]
  }

  /** An import only adds entities and aliases. */
  ghost predicate Grew(before: Tables, after: Tables) {
    && ExtendsMap(before.accounts, after.accounts)
    && Extends(before.merchants, after.merchants)
    && Extends(before.categories, after.categories)
    && (forall k :: MerchantAlias(k) in before.aliases ==>
          MerchantAlias(k) in after.aliases && after.aliases[MerchantAlias(k)] == before.aliases[MerchantAlias(k)])
    && (forall k :: CategoryAlias(k) in before.aliases ==>
          CategoryAlias(k) in after.aliases && after.aliases[CategoryAlias(k)] == before.aliases[CategoryAlias(k)])
  }

  /** A source label stands for the active merchant its alias leads to. */
  ghost predicate ResolvesMerchant(d: Tables, n: Naming, text: string, id: Id) {
    && n.collisionKey(text).Some?
    && var alias := MerchantAlias(n.collisionKey(text).value);
    && alias in d.aliases && LeadsTo(d.merchants, d.aliases[alias], id)
  }

  /** As for merchants, but a dead alias, and the reserved label, stand for Uncategorized. */
  ghost predicate ResolvesCategory(d: Tables, n: Naming, text: string, id: Id) {
    && n.collisionKey(text).Some?
    && var key := n.collisionKey(text).value;
    && if key == UNCATEGORIZED_KEY then id == UNCATEGORIZED_ID else
         && CategoryAlias(key) in d.aliases
         && (LeadsTo(d.categories, d.aliases[CategoryAlias(key)], id)
             || (id == UNCATEGORIZED_ID && forall to :: !LeadsTo(d.categories, d.aliases[CategoryAlias(key)], to)))
  }

  // A chain from a known entity stays inside the table it started in.
  lemma {:induction false} ChainStays(before: Table, after: Table, p: seq<Id>, i: nat)
    requires Closed(before) && Extends(before, after) && IsChain(after, p) && p[0] in before && i < |p|
    ensures p[i] in before && IsChain(before, p[..i + 1])
  {
    if i > 0 {
      ChainStays(before, after, p, i - 1);
      assert after[p[i - 1]].destination == Some(p[i]);
      var q := p[..i + 1];
      forall j | 0 <= j < |q| - 1
        ensures q[j] in before && before[q[j]].retired && before[q[j]].destination == Some(q[j + 1])
      {
        if j < i - 1 {
          assert p[..i][j] == q[j] && p[..i][j + 1] == q[j + 1];
        }
      }
    }
  }

  lemma LeadsToReflects(before: Table, after: Table, from: Id, to: Id)
    requires Closed(before) && Extends(before, after) && from in before && LeadsTo(after, from, to)
    ensures LeadsTo(before, from, to)
  {
    var p :| ChainTo(after, p, from, to);
    ChainStays(before, after, p, |p| - 1);
    assert p[..|p|] == p;
    assert ChainTo(before, p, from, to);
  }

  /** What a label stood for before an import it still stands for afterwards. */
  lemma ResolutionIsStable(before: Tables, after: Tables, n: Naming, text: string, id: Id)
    requires ValidTables(before) && Grew(before, after)
    ensures ResolvesMerchant(before, n, text, id) ==> ResolvesMerchant(after, n, text, id)
    ensures ResolvesCategory(before, n, text, id) ==> ResolvesCategory(after, n, text, id)
  {
    if ResolvesMerchant(before, n, text, id) {
      var alias := MerchantAlias(n.collisionKey(text).value);
      LeadsToMonotone(before.merchants, after.merchants, before.aliases[alias], id);
    }
    if ResolvesCategory(before, n, text, id) && n.collisionKey(text).value != UNCATEGORIZED_KEY {
      var from := before.aliases[CategoryAlias(n.collisionKey(text).value)];
      if LeadsTo(before.categories, from, id) {
        LeadsToMonotone(before.categories, after.categories, from, id);
      } else {
        forall to ensures !LeadsTo(after.categories, from, to) {
          if LeadsTo(after.categories, from, to) {
            LeadsToReflects(before.categories, after.categories, from, to);
          }
        }
      }
    }
  }

  /** A label stands for one merchant, and for one category. */
  lemma ResolutionIsUnique(d: Tables, n: Naming, text: string, a: Id, b: Id)
    ensures ResolvesMerchant(d, n, text, a) && ResolvesMerchant(d, n, text, b) ==> a == b
    ensures ResolvesCategory(d, n, text, a) && ResolvesCategory(d, n, text, b) ==> a == b
  {
    if n.collisionKey(text).Some? {
      var key := n.collisionKey(text).value;
      if MerchantAlias(key) in d.aliases && ResolvesMerchant(d, n, text, a) && ResolvesMerchant(d, n, text, b) {
        LeadsToUnique(d.merchants, d.aliases[MerchantAlias(key)], a, b);
      }
      if CategoryAlias(key) in d.aliases {
        var from := d.aliases[CategoryAlias(key)];
        if LeadsTo(d.categories, from, a) && LeadsTo(d.categories, from, b) {
          LeadsToUnique(d.categories, from, a, b);
        }
      }
    }
  }

  lemma GrewReflexive(a: Tables)
    ensures Grew(a, a)
  {
  }

  lemma GrewTransitive(a: Tables, b: Tables, c: Tables)
    requires Grew(a, b) && Grew(b, c)
    ensures Grew(a, c)
  {
  }

  ghost predicate Unused(ids: seq<Id>, t: Table) {
    && (forall i :: 0 <= i < |ids| ==> ids[i] !in t)
    && (forall i, j :: 0 <= i < j < |ids| ==> ids[i] != ids[j])
  }

  class Entities {
    const naming: Naming
    var accounts: map<string, Id>
    var merchants: Table
    var categories: Table
    var aliases: map<Alias, Id>
    var merchantLabels: set<string>
    var categoryLabels: set<string>
    var accountIds: seq<Id>
    var merchantIds: seq<Id>
    var categoryIds: seq<Id>

    ghost function View(): Tables
      reads this
    {
      Tables(accounts, merchants, categories, aliases)
    }

    ghost predicate Valid()
      reads this
    {
      && ValidNaming(naming)
      && ValidTables(View())
      && merchantLabels == ActiveKeys(merchants)
      && categoryLabels == ActiveKeys(categories)
      && Unused(merchantIds, merchants)
      && Unused(categoryIds, categories)
    }

    constructor (d: Tables, n: Naming, proposedAccounts: seq<Id>, proposedMerchants: seq<Id>,
      proposedCategories: seq<Id>)
      requires ValidTables(d) && ValidNaming(n)
      requires Unused(proposedMerchants, d.merchants) && Unused(proposedCategories, d.categories)
      ensures Valid() && View() == d && naming == n
      ensures accountIds == proposedAccounts && merchantIds == proposedMerchants && categoryIds == proposedCategories
    {
      naming := n;
      accounts, merchants, categories, aliases := d.accounts, d.merchants, d.categories, d.aliases;
      merchantLabels := set id | id in d.merchants && !d.merchants[id].retired :: d.merchants[id].key;
      categoryLabels := set id | id in d.categories && !d.categories[id].retired :: d.categories[id].key;
      accountIds, merchantIds, categoryIds := proposedAccounts, proposedMerchants, proposedCategories;
    }

    /** The active account with this key, created on first use. */
    method Account(key: string) returns (r: Result<Id, EntityError>)
      requires Valid()
      modifies this`accounts, this`aliases, this`accountIds
      ensures Valid() && Grew(old(View()), View())
      ensures r.Failure? <==> key !in old(accounts) && old(accountIds) == []
      ensures r.Failure? ==> r.error == Exhausted
      ensures r.Failure? || key in old(accounts) ==> View() == old(View())
      ensures r.Success? ==> key in accounts && r.value == accounts[key]
      ensures r.Success? && key !in old(accounts) ==>
        && r.value == old(accountIds)[0]
        && accounts == old(accounts)[key := r.value]
        && aliases == old(aliases)[AccountAlias(key) := r.value]
    {
      if key in accounts {
        return Success(accounts[key]);
      }
      if accountIds == [] {
        return Failure(Exhausted);
      }
      var id := accountIds[0];
      accountIds := accountIds[1..];
      accounts := accounts[key := id];
      aliases := aliases[AccountAlias(key) := id];
      r := Success(id);
    }

    /** Records which transaction a source row became. */
    method RecordTransaction(key: string, id: Id)
      requires Valid()
      modifies this`aliases
      ensures Valid() && View() == old(View()).(aliases := old(aliases)[TransactionAlias(key) := id])
    {
      aliases := aliases[TransactionAlias(key) := id];
    }

    /** The active merchant a source label stands for.  A label never seen before gets a new merchant
    whose display label is made collision-free; a label whose merchant was merged away without a
    live destination is refused. */
    method Merchant(text: string) returns (r: Result<Id, EntityError>)
      requires Valid()
      modifies this`merchants, this`aliases, this`merchantIds, this`merchantLabels
      ensures Valid()
      ensures r.Success? ==> ResolvesMerchant(View(), naming, text, r.value)
      ensures View() == old(View()) || AddsMerchant(old(View()), View(), naming, text, old(merchantIds))
      ensures r == Failure(DeadAlias) <==> DeadMerchantAlias(old(View()), naming, text)
      ensures r == Failure(Exhausted) <==> old(merchantIds) == [] && UnknownMerchant(old(View()), naming, text)
      ensures r == Failure(BadLabel) ==> Unnameable(text, naming.collisionKey)
      ensures |merchantIds| >= |old(merchantIds)| - 1
    {
      hide ActiveKeys, LeadsTo, DistinctKeys, Chosen, AllReserved, Suffixed, Unnameable;
      var key := naming.collisionKey(text);
      if key.None? {
        KeylessIsUnnameable(text, naming.collisionKey);
        return Failure(BadLabel);
      }
      var alias := MerchantAlias(key.value);
      if alias in aliases {
        var end := ActiveDestination(merchants, aliases[alias]);
        if end.None? {
          return Failure(DeadAlias);
        }
        return Success(end.value);
      }
      if merchantIds == [] {
        return Failure(Exhausted);
      }
      var id := merchantIds[0];
      var choice := AllocateLabel(text, naming.digest("csv:merchant", key.value, id), merchantLabels,
          naming.collisionKey);
      merchantIds := merchantIds[1..];
      if choice.None? {
        return Failure(BadLabel);
      }
      ActiveKeysGrow(merchants, id, choice.value.text, choice.value.key);
      merchantLabels := merchantLabels + {choice.value.key};
      merchants := merchants[id := Entity(choice.value.text, choice.value.key, false, None)];
      aliases := aliases[alias := id];
      ActiveLeadsToItself(merchants, id);
      r := Success(id);
    }

    /** The active category a source label stands for; the reserved label and a dead alias stand for
    Uncategorized. */
    method Category(text: string) returns (r: Result<Id, EntityError>)
      requires Valid()
      modifies this`categories, this`aliases, this`categoryIds, this`categoryLabels
      ensures Valid()
      ensures r.Success? ==> ResolvesCategory(View(), naming, text, r.value)
      ensures View() == old(View()) || AddsCategory(old(View()), View(), naming, text, old(categoryIds))
      ensures r != Failure(DeadAlias)
      ensures r == Failure(Exhausted) <==> old(categoryIds) == [] && UnknownCategory(old(View()), naming, text)
      ensures r == Failure(BadLabel) ==> Unnameable(text, naming.collisionKey)
      ensures |categoryIds| >= |old(categoryIds)| - 1
    {
      hide ActiveKeys, LeadsTo, DistinctKeys, Chosen, AllReserved, Suffixed, Unnameable;
      var key := naming.collisionKey(text);
      if key.None? {
        KeylessIsUnnameable(text, naming.collisionKey);
        return Failure(BadLabel);
      }
      if key.value == UNCATEGORIZED_KEY {
        return Success(UNCATEGORIZED_ID);
      }
      var alias := CategoryAlias(key.value);
      if alias in aliases {
        var end := ActiveDestination(categories, aliases[alias]);
        return Success(if end.Some? then end.value else UNCATEGORIZED_ID);
      }
      if categoryIds == [] {
        return Failure(Exhausted);
      }
      var id := categoryIds[0];
      var choice := AllocateLabel(text, naming.digest("csv:category", key.value, id), categoryLabels,
          naming.collisionKey);
      categoryIds := categoryIds[1..];
      if choice.None? {
        return Failure(BadLabel);
      }
      ActiveKeysGrow(categories, id, choice.value.text, choice.value.key);
      categoryLabels := categoryLabels + {choice.value.key};
      categories := categories[id := Entity(choice.value.text, choice.value.key, false, None)];
      aliases := aliases[alias := id];
      ActiveLeadsToItself(categories, id);
      r := Success(id);
    }
  }

  ghost predicate UnknownMerchant(d: Tables, n: Naming, text: string) {
    n.collisionKey(text).Some? && MerchantAlias(n.collisionKey(text).value) !in d.aliases
  }

  ghost predicate UnknownCategory(d: Tables, n: Naming, text: string) {
    && n.collisionKey(text).Some?
    && n.collisionKey(text).value != UNCATEGORIZED_KEY
    && CategoryAlias(n.collisionKey(text).value) !in d.aliases
  }

  ghost predicate DeadMerchantAlias(d: Tables, n: Naming, text: string) {
    && n.collisionKey(text).Some?
    && var alias := MerchantAlias(n.collisionKey(text).value);
    && alias in d.aliases
    && forall to :: !LeadsTo(d.merchants, d.aliases[alias], to)
  }

  /** The new entity is active and its collision key is free, unless the plain label and all its
  suffixed forms were taken. */
  ghost predicate Adds(t: Table, after: Table, n: Naming, text: string, namespace: string, id: Id) {
    && id !in t && id in after
    && after == t[id := after[id]]
    && !after[id].retired && after[id].destination.None?
    && n.collisionKey(after[id].text) == Some(after[id].key)
    && n.collisionKey(text).Some?
    && var material := n.digest(namespace, n.collisionKey(text).value, id);
    && |material| == DIGEST_LENGTH
    && Chosen(text, material, ActiveKeys(t), n.collisionKey, after[id].text)
    && (after[id].key in ActiveKeys(t) ==>
          AllReserved(text, material, ActiveKeys(t), n.collisionKey, DIGEST_LENGTH + 1))
  }

  ghost predicate AddsMerchant(d: Tables, after: Tables, n: Naming, text: string, ids: seq<Id>) {
    && ids != [] && UnknownMerchant(d, n, text)
    && Adds(d.merchants, after.merchants, n, text, "csv:merchant", ids[0])
    && after == d.(merchants := after.merchants,
       aliases := d.aliases[MerchantAlias(n.collisionKey(text).value) := ids[0]])
  }

  ghost predicate AddsCategory(d: Tables, after: Tables, n: Naming, text: string, ids: seq<Id>) {
    && ids != [] && UnknownCategory(d, n, text)
    && Adds(d.categories, after.categories, n, text, "csv:category", ids[0])
    && after == d.(categories := after.categories,
       aliases := d.aliases[CategoryAlias(n.collisionKey(text).value) := ids[0]])
  }

  lemma AddingGrows(d: Tables, after: Tables, n: Naming, text: string, ids: seq<Id>)
    requires ValidTables(d)
    requires AddsMerchant(d, after, n, text, ids) || AddsCategory(d, after, n, text, ids)
    ensures Grew(d, after) && SameRowAliases(d, after)
  {
  }

  /** A label whose merchant is dead now was dead before: entities are added alive. */
  ghost predicate NoNewDeath(d: Tables, after: Tables, n: Naming) {
    forall text :: DeadMerchantAlias(after, n, text) ==> DeadMerchantAlias(d, n, text)
  }

  lemma NothingDies(d: Tables, n: Naming)
    ensures Grew(d, d) && SameRowAliases(d, d) && NoNewDeath(d, d, n)
  {
  }

  lemma StepsCompose(a: Tables, b: Tables, c: Tables, n: Naming)
    requires Grew(a, b) && SameRowAliases(a, b) && NoNewDeath(a, b, n)
    requires Grew(b, c) && SameRowAliases(b, c) && NoNewDeath(b, c, n)
    ensures Grew(a, c) && SameRowAliases(a, c) && NoNewDeath(a, c, n)
  {
    hide DeadMerchantAlias, ExtendsMap, Extends;
    GrewTransitive(a, b, c);
  }

  lemma DeathsCompose(a: Tables, b: Tables, c: Tables, n: Naming)
    requires NoNewDeath(a, b, n) && NoNewDeath(b, c, n)
    ensures NoNewDeath(a, c, n)
  {
    hide DeadMerchantAlias;
  }

  lemma AddingKillsNothing(d: Tables, after: Tables, n: Naming, text: string, ids: seq<Id>)
    requires ValidTables(d)
    requires AddsMerchant(d, after, n, text, ids) || AddsCategory(d, after, n, text, ids)
    ensures NoNewDeath(d, after, n)
  {
    AddingGrows(d, after, n, text, ids);
    forall other | DeadMerchantAlias(after, n, other)
      ensures DeadMerchantAlias(d, n, other)
    {
      StillDead(d, after, n, text, ids, other);
    }
    hide *;
  }

  lemma StillDead(d: Tables, after: Tables, n: Naming, text: string, ids: seq<Id>, other: string)
    requires ValidTables(d) && Grew(d, after) && DeadMerchantAlias(after, n, other)
    requires AddsMerchant(d, after, n, text, ids) || AddsCategory(d, after, n, text, ids)
    ensures DeadMerchantAlias(d, n, other)
  {
    hide LeadsTo, ActiveKeys, Chosen, AllReserved;
    var alias := MerchantAlias(n.collisionKey(other).value);
    if alias in d.aliases {
      forall to
        ensures !LeadsTo(d.merchants, d.aliases[alias], to)
      {
        if LeadsTo(d.merchants, d.aliases[alias], to) {
          LeadsToMonotone(d.merchants, after.merchants, d.aliases[alias], to);
        }
      }
    } else if AddsMerchant(d, after, n, text, ids) {
      ActiveLeadsToItself(after.merchants, ids[0]);
      assert false;
    }
  }

  /** Same accounts and same row aliases. */
  ghost predicate SameRowAliases(a: Tables, b: Tables) {
    && a.accounts == b.accounts
    && (forall k :: TransactionAlias(k) in a.aliases <==> TransactionAlias(k) in b.aliases)
    && (forall k :: TransactionAlias(k) in a.aliases ==>
       a.aliases[TransactionAlias(k)] == b.aliases[TransactionAlias(k)])
  }

  // What new entities are called -------------------------------------------------------------------------

  function AliasOf(merchants: bool, key: string): Alias {
    if merchants then MerchantAlias(key) else CategoryAlias(key)
  }

  /** The label was chosen while the keys `taken` were: at least those of the entities from before, and at most
  those of all other entities. */
  ghost predicate LabelledWith(
    before: Table, after: Table, n: Naming, merchants: bool, text: string, id: Id, taken: set<string>)
  {
    && n.collisionKey(text).Some? && id in after && ActiveKeys(before) <= taken <= ActiveKeys(after - {id})
    && var material := n.digest(if merchants then "csv:merchant" else "csv:category", n.collisionKey(text).value, id);
    && |material| == DIGEST_LENGTH && Chosen(text, material, taken, n.collisionKey, after[id].text)
  }

  /** The entity was created for a label: the label's alias finds it, and it is called by the label, with a suffix
  when another entity had its key. */
  ghost predicate CreatedFor(
    before: Table, after: Table, aliases: map<Alias, Id>, n: Naming, merchants: bool, text: string, id: Id)
  {
    && n.collisionKey(text).Some?
    && var alias := AliasOf(merchants, n.collisionKey(text).value);
    && alias in aliases && aliases[alias] == id
    && exists taken :: LabelledWith(before, after, n, merchants, text, id, taken)
  }

  /** Every new entity was created for one of the labels. */
  ghost predicate AllCreatedFor(
    before: Table, after: Table, aliases: map<Alias, Id>, n: Naming, merchants: bool, texts: set<string>)
  {
    forall id :: id in after && id !in before ==>
      exists text :: text in texts && CreatedFor(before, after, aliases, n, merchants, text, id)
  }

  /** New merchants and new categories were created for the given labels. */
  ghost predicate EntitiesCreatedFor(
    before: Tables, after: Tables, n: Naming, merchants: set<string>, categories: set<string>)
  {
    && AllCreatedFor(before.merchants, after.merchants, after.aliases, n, true, merchants)
    && AllCreatedFor(before.categories, after.categories, after.aliases, n, false, categories)
  }

  lemma KeysGrow(t: Table, t': Table)
    requires Extends(t, t')
    ensures ActiveKeys(t) <= ActiveKeys(t')
  {
    forall k | k in ActiveKeys(t) ensures k in ActiveKeys(t') {
      var x :| x in t && !t[x].retired && t[x].key == k;
      assert t'[x] == t[x];
    }
  }

  lemma CreatedStays(
    a: Table, b: Table, c: Table, some: map<Alias, Id>, more: map<Alias, Id>, n: Naming, merchants: bool, text: string,
    id: Id)
    requires Extends(b, c) && CreatedFor(a, b, some, n, merchants, text, id)
    requires forall k :: AliasOf(merchants, k) in some ==>
      AliasOf(merchants, k) in more && more[AliasOf(merchants, k)] == some[AliasOf(merchants, k)]
    ensures CreatedFor(a, c, more, n, merchants, text, id)
  {
    var taken :| LabelledWith(a, b, n, merchants, text, id, taken);
    assert Extends(b - {id}, c - {id});
    KeysGrow(b - {id}, c - {id});
    hide ActiveKeys, Chosen, Extends;
    assert LabelledWith(a, c, n, merchants, text, id, taken);
  }

  lemma CreatedLater(
    a: Table, b: Table, c: Table, aliases: map<Alias, Id>, n: Naming, merchants: bool, text: string, id: Id)
    requires Extends(a, b) && CreatedFor(b, c, aliases, n, merchants, text, id)
    ensures CreatedFor(a, c, aliases, n, merchants, text, id)
  {
    var taken :| LabelledWith(b, c, n, merchants, text, id, taken);
    KeysGrow(a, b);
    hide ActiveKeys, Chosen, Extends;
    assert LabelledWith(a, c, n, merchants, text, id, taken);
  }

  lemma CreationsCompose(
    a: Table, b: Table, c: Table, some: map<Alias, Id>, more: map<Alias, Id>, n: Naming, merchants: bool,
    first: set<string>, second: set<string>)
    requires Extends(a, b) && Extends(b, c)
    requires forall k :: AliasOf(merchants, k) in some ==>
      AliasOf(merchants, k) in more && more[AliasOf(merchants, k)] == some[AliasOf(merchants, k)]
    requires AllCreatedFor(a, b, some, n, merchants, first) && AllCreatedFor(b, c, more, n, merchants, second)
    ensures AllCreatedFor(a, c, more, n, merchants, first + second)
  {
    hide CreatedFor;
    forall id | id in c && id !in a
      ensures exists text :: text in first + second && CreatedFor(a, c, more, n, merchants, text, id)
    {
      if id in b {
        var text :| text in first && CreatedFor(a, b, some, n, merchants, text, id);
        CreatedStays(a, b, c, some, more, n, merchants, text, id);
        assert text in first + second;
      } else {
        var text :| text in second && CreatedFor(b, c, more, n, merchants, text, id);
        CreatedLater(a, b, c, more, n, merchants, text, id);
        assert text in first + second;
      }
    }
  }

  lemma EntitiesCompose(
    a: Tables, b: Tables, c: Tables, n: Naming, m: set<string>, k: set<string>, m': set<string>, k': set<string>)
    requires Grew(a, b) && Grew(b, c)
    requires EntitiesCreatedFor(a, b, n, m, k) && EntitiesCreatedFor(b, c, n, m', k')
    ensures EntitiesCreatedFor(a, c, n, m + m', k + k')
  {
    hide AllCreatedFor;
    CreationsCompose(a.merchants, b.merchants, c.merchants, b.aliases, c.aliases, n, true, m, m');
    CreationsCompose(a.categories, b.categories, c.categories, b.aliases, c.aliases, n, false, k, k');
  }

  lemma NothingCreated(a: Tables, b: Tables, n: Naming)
    requires a.merchants == b.merchants && a.categories == b.categories
    ensures EntitiesCreatedFor(a, b, n, {}, {})
  {
    hide CreatedFor;
  }

  lemma MerchantCreated(d: Tables, after: Tables, n: Naming, text: string, ids: seq<Id>)
    requires after == d || AddsMerchant(d, after, n, text, ids)
    ensures EntitiesCreatedFor(d, after, n, {text}, {})
  {
    if after != d {
      OneCreated(d.merchants, after.merchants, after.aliases, n, true, text, ids[0]);
    }
    hide CreatedFor, Adds;
  }

  lemma CategoryCreated(d: Tables, after: Tables, n: Naming, text: string, ids: seq<Id>)
    requires after == d || AddsCategory(d, after, n, text, ids)
    ensures EntitiesCreatedFor(d, after, n, {}, {text})
  {
    if after != d {
      OneCreated(d.categories, after.categories, after.aliases, n, false, text, ids[0]);
    }
    hide CreatedFor, Adds;
  }

  lemma OneCreated(t: Table, after: Table, aliases: map<Alias, Id>, n: Naming, merchants: bool, text: string, id: Id)
    requires Adds(t, after, n, text, if merchants then "csv:merchant" else "csv:category", id)
    requires
      var alias := AliasOf(merchants, n.collisionKey(text).value);
      alias in aliases && aliases[alias] == id
    ensures AllCreatedFor(t, after, aliases, n, merchants, {text})
  {
    assert after - {id} == t;
    hide Chosen, ActiveKeys, AllReserved;
    assert LabelledWith(t, after, n, merchants, text, id, ActiveKeys(t));
    assert CreatedFor(t, after, aliases, n, merchants, text, id);
  }

  /** Adding an entity keeps active labels collision-free whenever one of its forms was free. */
  lemma LabelsStayDistinct(t: Table, after: Table, n: Naming, text: string, namespace: string, id: Id)
    requires Adds(t, after, n, text, namespace, id) && DistinctKeys(t)
    requires !AllReserved(text, n.digest(namespace, n.collisionKey(text).value, id), ActiveKeys(t), n.collisionKey,
        DIGEST_LENGTH + 1)
    ensures DistinctKeys(after)
  {
    ActiveKeysGrow(t, id, after[id].text, after[id].key);
    assert after[id] == Entity(after[id].text, after[id].key, false, None);
  }

  lemma ActiveKeysGrow(t: Table, id: Id, text: string, key: string)
    requires id !in t
    ensures
      var t' := t[id := Entity(text, key, false, None)];
      && ActiveKeys(t') == ActiveKeys(t) + {key}
      && (DistinctKeys(t) && key !in ActiveKeys(t) ==> DistinctKeys(t'))
  {
    var t' := t[id := Entity(text, key, false, None)];
    forall k | k in ActiveKeys(t) + {key} ensures k in ActiveKeys(t') {
      if k in ActiveKeys(t) {
        var e :| e in t && !t[e].retired && t[e].key == k;
        assert e in t' && t'[e] == t[e];
      } else {
        assert id in t' && t'[id].key == k;
      }
    }
    if DistinctKeys(t) && key !in ActiveKeys(t) {
      forall a, b | a in t' && b in t' && a != b && !t'[a].retired && !t'[b].retired ensures t'[a].key != t'[b].key {
        assert a in t ==> t[a].key in ActiveKeys(t);
        assert b in t ==> t[b].key in ActiveKeys(t);
      }
    }
  }
}
