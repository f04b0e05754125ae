/** What the accounts and merchants that an Amazon import creates are called. */
module AmazonNaming {
  import opened Wrappers
  import opened MergeChains
  import opened AmazonReconcile
  import opened AmazonProfile

  function Product(e: Item): ProductKey {
    if e.facts.asin.Some? then Asin(e.facts.asin.value) else Asinless(e.facts.asinlessKey)
  }

  function KindOf(x: External): Kind {
    if x.OrderExternal? then AccountKind else MerchantKind
  }

  /** How labels are made: the texts of an order and of a product, their collision keys, and the digest that
  suffixes are taken from. */
  datatype Naming = Naming(
    orderLabel: Key -> string, productLabel: Key -> string, collisionKey: string -> Option<string>,
    digest: (External, Id) -> string)

  ghost predicate Digests(naming: Naming) {
    forall x, id :: |naming.digest(x, id)| == DIGEST_LENGTH
  }

  /** The external key of an item's order or product. */
  function ExternalOf(kind: Kind, e: Item): External {
    if kind == AccountKind then OrderExternal(e.order) else ProductExternal(Product(e))
  }

  /** An order is called by its number, a product by its name. */
  function LabelOf(kind: Kind, e: Item, naming: Naming): string {
    if kind == AccountKind then naming.orderLabel(e.order) else naming.productLabel(e.facts.product)
  }

  /** The first active item with its order or product. */
  ghost predicate FirstOf(kind: Kind, items: seq<Item>, i: nat) {
    && i < |items| && !items[i].retired
    && forall j :: 0 <= j < i && !items[j].retired ==> ExternalOf(kind, items[j]) != ExternalOf(kind, items[i])
  }

  /** The keys that were taken when an entity got its label: at least those of the entities from before, and at
  most those of all other entities. */
  ghost predicate Between(before: set<string>, taken: set<string>, others: set<string>) {
    before <= taken <= others
  }

  /** The label is the text when its key was free, and otherwise the text with a suffix. */
  ghost predicate LabelledAs(
    text: string, x: External, id: Id, called: string, before: set<string>, others: set<string>, naming: Naming)
    requires Digests(naming)
  {
    exists taken ::
      Between(before, taken, others) && Chosen(text, naming.digest(x, id), taken, naming.collisionKey, called)
  }

  /** A new entity stands for the order or product of the `i`-th item, and is called what that item says. */
  ghost predicate CalledBy(
    kind: Kind, items: seq<Item>, i: nat, id: Id, t: Table, others: Table, identities: map<External, Identity>,
    before: set<string>, naming: Naming)
    requires Digests(naming)
  {
    && FirstOf(kind, items, i) && id in t
    && Resolve(identities, kind, ExternalOf(kind, items[i])) == Some(id)
    && LabelledAs(LabelOf(kind, items[i], naming), ExternalOf(kind, items[i]), id, t[id].text, before,
                  ActiveKeys(t - {id}) + ActiveKeys(others), naming)
  }

  ghost predicate Called(
    kind: Kind, items: seq<Item>, count: nat, id: Id, t: Table, others: Table, identities: map<External, Identity>,
    before: set<string>, naming: Naming)
    requires Digests(naming)
  {
    exists i: nat :: i < count && CalledBy(kind, items, i, id, t, others, identities, before, naming)
  }

  /** Every new entity of one kind is called by one of the first `count` items. */
  ghost predicate AllCalled(
    kind: Kind, items: seq<Item>, count: nat, was: Table, t: Table, others: Table,
    identities: map<External, Identity>, before: set<string>, naming: Naming)
    requires Digests(naming)
  {
    forall id :: id in t && id !in was ==> Called(kind, items, count, id, t, others, identities, before, naming)
  }

  /** New accounts are called by the orders, and new merchants by the products, that first needed them. */
  ghost predicate NewOnesCalled(p: Profile, items: seq<Item>, p': Profile, naming: Naming)
    requires Digests(naming)
  {
    var before := ActiveKeys(p.accounts) + ActiveKeys(p.merchants);
    && AllCalled(AccountKind, items, |items|, p.accounts, p'.accounts, p'.merchants, p'.identities, before, naming)
    && AllCalled(MerchantKind, items, |items|, p.merchants, p'.merchants, p'.accounts, p'.identities, before, naming)
  }

  // What follows from a label -------------------------------------------------------------------------------

  /** A label is plain unless another active entity has its key, and suffixed when one had it before. */
  lemma LabelsArePlainWhenFree(
    text: string, x: External, id: Id, called: string, before: set<string>, others: set<string>, naming: Naming)
    requires Digests(naming) && LabelledAs(text, x, id, called, before, others, naming)
    ensures naming.collisionKey(text).Some?
    ensures naming.collisionKey(text).value !in others ==> called == text
    ensures naming.collisionKey(text).value in before ==>
      exists n :: 4 <= n <= DIGEST_LENGTH && n % 2 == 0 && called == Form(text, naming.digest(x, id), n)
    ensures called == text || text + SEPARATOR <= called
  {
    var taken :| Between(before, taken, others)
        && Chosen(text, naming.digest(x, id), taken, naming.collisionKey, called);
    if naming.collisionKey(text).value in taken {
      var n :| called == Form(text, naming.digest(x, id), n)
          && ChosenLength(text, naming.digest(x, id), taken, naming.collisionKey, n);
    }
  }

  // While the tables grow ------------------------------------------------------------------------------------

  lemma KeysOfMore(t: Table, t': Table, id: Id)
    requires Extends(t, t')
    ensures ActiveKeys(t) <= ActiveKeys(t') && ActiveKeys(t - {id}) <= ActiveKeys(t' - {id})
  {
    forall k | k in ActiveKeys(t) ensures k in ActiveKeys(t') {
      var x :| x in t && !t[x].retired && t[x].key == k;
      assert t'[x] == t[x];
    }
    forall k | k in ActiveKeys(t - {id}) ensures k in ActiveKeys(t' - {id}) {
      var x :| x in t - {id} && !t[x].retired && t[x].key == k;
      assert x in t' - {id} && t'[x] == t[x];
    }
  }

  lemma LabelledStays(
    text: string, x: External, id: Id, called: string, before: set<string>, others: set<string>, more: set<string>,
    naming: Naming)
    requires Digests(naming) && LabelledAs(text, x, id, called, before, others, naming) && others <= more
    ensures LabelledAs(text, x, id, called, before, more, naming)
  {
    var taken :| Between(before, taken, others)
        && Chosen(text, naming.digest(x, id), taken, naming.collisionKey, called);
    hide Chosen;
    assert Between(before, taken, more);
  }

  ghost predicate NamesKept(kind: Kind, before: map<External, Identity>, after: map<External, Identity>) {
    forall x :: KindOf(x) == kind && Resolve(before, kind, x).Some? ==>
      Resolve(after, kind, x) == Resolve(before, kind, x)
  }

  lemma KindOfExternal(kind: Kind, e: Item)
    requires kind != OtherKind
    ensures KindOf(ExternalOf(kind, e)) == kind
  {
  }

  lemma CalledStays(
    kind: Kind, items: seq<Item>, count: nat, id: Id, t: Table, others: Table, identities: map<External, Identity>,
    t': Table, others': Table, identities': map<External, Identity>, count': nat, before: set<string>, naming: Naming)
    requires kind != OtherKind
    requires Digests(naming) && Called(kind, items, count, id, t, others, identities, before, naming)
    requires Extends(t, t') && Extends(others, others') && count <= count' && NamesKept(kind, identities, identities')
    ensures Called(kind, items, count', id, t', others', identities', before, naming)
  {
    var i: nat :| i < count && CalledBy(kind, items, i, id, t, others, identities, before, naming);
    KeysOfMore(t, t', id);
    KeysOfMore(others, others', id);
    hide ActiveKeys, LabelledAs, FirstOf, Resolve, ExternalOf, LabelOf;
    LabelledStays(LabelOf(kind, items[i], naming), ExternalOf(kind, items[i]), id, t[id].text, before,
                  ActiveKeys(t - {id}) + ActiveKeys(others), ActiveKeys(t' - {id}) + ActiveKeys(others'), naming);
    KindOfExternal(kind, items[i]);
    assert CalledBy(kind, items, i, id, t', others', identities', before, naming);
  }

  /** Names stay when more entities come, of this kind or of the other. */
  lemma AllCalledStays(
    kind: Kind, items: seq<Item>, count: nat, was: Table, t: Table, others: Table, identities: map<External, Identity>,
    others': Table, identities': map<External, Identity>, count': nat, before: set<string>, naming: Naming)
    requires kind != OtherKind
    requires Digests(naming) && AllCalled(kind, items, count, was, t, others, identities, before, naming)
    requires Extends(others, others') && count <= count' && NamesKept(kind, identities, identities')
    ensures AllCalled(kind, items, count', was, t, others', identities', before, naming)
  {
    hide Called, Extends, NamesKept;
    forall id | id in t && id !in was
      ensures Called(kind, items, count', id, t, others', identities', before, naming)
    {
      ExtendsItself(t);
      CalledStays(kind, items, count, id, t, others, identities, t, others', identities', count', before, naming);
    }
  }

  lemma ExtendsItself(t: Table)
    ensures Extends(t, t)
  {
  }

  /** One more entity, created for the `i`-th item. */
  lemma OneMoreCalled(
    kind: Kind, items: seq<Item>, i: nat, was: Table, t: Table, others: Table, identities: map<External, Identity>,
    id: Id, t': Table, identities': map<External, Identity>, before: set<string>, naming: Naming)
    requires kind != OtherKind
    requires Digests(naming) && AllCalled(kind, items, i, was, t, others, identities, before, naming)
    requires FirstOf(kind, items, i) && id !in t && id in t' && t' == t[id := t'[id]]
    requires Resolve(identities', kind, ExternalOf(kind, items[i])) == Some(id)
        && NamesKept(kind, identities, identities')
    requires before <= ActiveKeys(t) + ActiveKeys(others)
    requires Chosen(LabelOf(kind, items[i], naming), naming.digest(ExternalOf(kind, items[i]), id),
                    ActiveKeys(t) + ActiveKeys(others), naming.collisionKey, t'[id].text)
    ensures AllCalled(kind, items, i + 1, was, t', others, identities', before, naming)
  {
    hide Called, NamesKept, Chosen, FirstOf, ActiveKeys, Resolve, ExternalOf, LabelOf;
    assert t' - {id} == t;
    assert Extends(t, t');
    ExtendsItself(others);
    forall x | x in t' && x !in was
      ensures Called(kind, items, i + 1, x, t', others, identities', before, naming)
    {
      if x == id {
        FirstNeeded(kind, items, i, id, t', others, identities', before, ActiveKeys(t) + ActiveKeys(others), naming);
      } else {
        hide Extends;
        CalledStays(kind, items, i, x, t, others, identities, t', others, identities', i + 1, before, naming);
      }
    }
  }

  lemma FirstNeeded(
    kind: Kind, items: seq<Item>, i: nat, id: Id, t: Table, others: Table, identities: map<External, Identity>,
    before: set<string>, taken: set<string>, naming: Naming)
    requires Digests(naming) && FirstOf(kind, items, i) && id in t
    requires taken == ActiveKeys(t - {id}) + ActiveKeys(others) && before <= taken
    requires Resolve(identities, kind, ExternalOf(kind, items[i])) == Some(id)
    requires Chosen(LabelOf(kind, items[i], naming), naming.digest(ExternalOf(kind, items[i]), id), taken,
                    naming.collisionKey, t[id].text)
    ensures Called(kind, items, i + 1, id, t, others, identities, before, naming)
  {
    hide Chosen, FirstOf, ActiveKeys, Resolve, ExternalOf, LabelOf;
    assert Between(before, taken, taken);
    assert CalledBy(kind, items, i, id, t, others, identities, before, naming);
  }

  lemma NoneNewYet(kind: Kind, items: seq<Item>, t: Table, others: Table, identities: map<External, Identity>,
    before: set<string>, naming: Naming)
    requires Digests(naming)
    ensures AllCalled(kind, items, 0, t, t, others, identities, before, naming)
  {
  }

  /** Items with the same keys and facts give the same names. */
  lemma SameFactsCall(
    kind: Kind, items: seq<Item>, others: seq<Item>, was: Table, t: Table, rest: Table,
    identities: map<External, Identity>, before: set<string>, naming: Naming)
    requires Digests(naming) && |others| == |items|
    requires forall i :: 0 <= i < |items| ==>
      others[i].order == items[i].order && others[i].facts == items[i].facts && others[i].retired == items[i].retired
    requires AllCalled(kind, items, |items|, was, t, rest, identities, before, naming)
    ensures AllCalled(kind, others, |items|, was, t, rest, identities, before, naming)
  {
    hide LabelledAs, Resolve, ActiveKeys;
    forall id | id in t && id !in was
      ensures Called(kind, others, |items|, id, t, rest, identities, before, naming)
    {
      assert Called(kind, items, |items|, id, t, rest, identities, before, naming);
      var i: nat :| i < |items| && CalledBy(kind, items, i, id, t, rest, identities, before, naming);
      assert FirstOf(kind, others, i);
      assert CalledBy(kind, others, i, id, t, rest, identities, before, naming);
    }
  }
}
