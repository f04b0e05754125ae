/** A reference model of CSV import, "the union of the latest version of every file, minus nothing
the user touched", and the proof that every run of the importer follows it. */
module BankCsvReference {
  import opened Wrappers
  import opened MergeChains
  import opened CsvEntities
  import opened BankCsvImport
  import opened BankCsvRuns

  /** The reference knows which rows each file lists now, which rows it kept only because the user
  had touched them, and what the user touched. */
  datatype Reference = Reference(
    latest: map<FileKey, set<SourceKey>>,
    kept: set<SourceKey>,
    deleted: set<SourceKey>,
    overridden: set<SourceKey>,
    hidden: set<SourceKey>)

  datatype Event =
    | Import(file: SourceFile, force: bool, ids: seq<Id>, pending: set<SourceKey>)
    | OverrideMerchant(key: SourceKey)
    | OverrideCategory(key: SourceKey)
    | SetHidden(key: SourceKey, hide_: bool)
    | Delete(key: SourceKey)
    | MergeMerchants(source: Id, target: Id, affected: set<SourceKey>)
    | MergeCategories(source: Id, target: Id, affected: set<SourceKey>)
    | EditTables(merchants: set<SourceKey>, categories: set<SourceKey>)

  ghost function Claimed(r: Reference): set<SourceKey> {
    set f, k | f in r.latest && k in r.latest[f] :: k
  }

  ghost function ClaimedByOthers(r: Reference, file: FileKey): set<SourceKey> {
    set f, k | f in r.latest && f != file && k in r.latest[f] :: k
  }

  ghost function Earlier(r: Reference, file: FileKey): set<SourceKey> {
    if file in r.latest then r.latest[file] else {}
  }

  ghost function NowListed(r: Reference, file: SourceFile): set<SourceKey> {
    KeysOf(file.rows) + (if file.skipped == 0 then {} else Earlier(r, file.key))
  }

  /** Rows the file stopped listing that stay because the user touched them. */
  ghost function NewlyKept(r: Reference, file: SourceFile, pending: set<SourceKey>): set<SourceKey> {
    var dropped := (Earlier(r, file.key) - NowListed(r, file)) - ClaimedByOthers(r, file.key) - r.deleted;
    dropped * (r.overridden + r.hidden + pending)
  }

  ghost function Follow(r: Reference, e: Event): Reference {
    match e
    case Import(file, _, _, pending) =>
      r.(latest := r.latest[file.key := NowListed(r, file)],
         kept := (r.kept - KeysOf(file.rows)) + NewlyKept(r, file, pending))
    case OverrideMerchant(k) => r.(overridden := r.overridden + {k})
    case OverrideCategory(k) => r.(overridden := r.overridden + {k})
    case SetHidden(k, h) => r.(hidden := if h then r.hidden + {k} else r.hidden - {k})
    case Delete(k) => r.(deleted := r.deleted + {k}, hidden := r.hidden - {k})
    case MergeMerchants(_, _, affected) => r.(overridden := r.overridden + affected)
    case MergeCategories(_, _, affected) => r.(overridden := r.overridden + affected)
    case EditTables(merchants, categories) => r.(overridden := r.overridden + (merchants + categories))
  }

  ghost function DispositionIn(r: Reference, k: SourceKey): Disposition {
    if k in r.deleted then Deleted
    else if k in Claimed(r) || k in r.kept then Present
    else Superseded
  }

  /** A digest identifies the rows of a file. */
  ghost predicate ContentOf(content: (FileKey, string) -> set<SourceKey>, file: SourceFile) {
    content(file.key, file.digest) == KeysOf(file.rows)
  }

  /** The ledger shows what the reference says: claims, dispositions and user decisions. */
  ghost predicate Shows(s: Ledger, r: Reference, content: (FileKey, string) -> set<SourceKey>) {
    && s.files.Keys == r.latest.Keys
    && (forall f, k :: Claim(f, k) in s.claims <==> f in r.latest && k in r.latest[f])
    && (forall k :: k in s.rows ==> s.rows[k].disposition == DispositionIn(r, k))
    && Claimed(r) + r.kept + r.deleted + r.overridden + r.hidden <= s.rows.Keys
    && r.kept !! Claimed(r)
    && (forall k :: k in s.rows ==> (k in r.overridden <==> s.rows[k].merchantOverride || s.rows[k].categoryOverride))
    && (forall k :: k in s.rows ==>
          (k in r.hidden <==> s.rows[k].id in s.transactions && s.transactions[s.rows[k].id].hidden))
    && (forall f :: f in s.files && s.files[f].skipped == 0 ==> r.latest[f] == content(f, s.files[f].digest))
  }

  /** The ledger shows the row's marks. */
  ghost predicate RowShows(s: Ledger, r: Reference, l: SourceKey)
    requires l in s.rows
  {
    && s.rows[l].disposition == DispositionIn(r, l)
    && (l in r.overridden <==> s.rows[l].merchantOverride || s.rows[l].categoryOverride)
    && (l in r.hidden <==> s.rows[l].id in s.transactions && s.transactions[s.rows[l].id].hidden)
  }

  ghost predicate PendingMeans(s: Ledger, pending: set<Id>, keys: set<SourceKey>) {
    forall k :: k in s.rows ==> (s.rows[k].id in pending <==> k in keys)
  }

  /** A user decision on a live row changes that row and its transaction only. */
  ghost predicate Touches(s: Ledger, k: SourceKey, after: Ledger, row: SavedRow, keepsTransaction: bool) {
    && k in s.rows && s.rows[k].disposition == Present && s.rows[k].id in s.transactions
    && after == s.(rows := s.rows[k := row], transactions := after.transactions, tables := s.tables)
    && row.id == s.rows[k].id && row.row == s.rows[k].row
    && (if keepsTransaction then
          && s.rows[k].id in after.transactions
          && after.transactions == s.transactions[s.rows[k].id := after.transactions[s.rows[k].id]]
        else after.transactions == s.transactions - {s.rows[k].id})
  }

  /** An edit of merchants or categories marks the rows it affects, and changes nothing else about rows, claims
  and files. */
  ghost predicate Marks(s: Ledger, after: Ledger, merchants: set<SourceKey>, categories: set<SourceKey>) {
    && after == s.(rows := after.rows, tables := after.tables, transactions := after.transactions)
    && after.rows == map k | k in s.rows ::
         s.rows[k].(merchantOverride := s.rows[k].merchantOverride || k in merchants,
                    categoryOverride := s.rows[k].categoryOverride || k in categories)
  }

  /** A merge retires one merchant into another, repoints its transactions and marks their rows. */
  ghost predicate MergesMerchants(s: Ledger, source: Id, target: Id, affected: set<SourceKey>, after: Ledger) {
    && Active(s.tables.merchants, source) && Active(s.tables.merchants, target) && source != target
    && affected == WithMerchant(s, source) && Marks(s, after, affected, {})
    && after.tables == s.tables.(merchants := Merged(s.tables.merchants, source, target))
    && after.transactions == map id | id in s.transactions :: ToMerchant(s.transactions[id], source, target)
  }

  function WithMerchant(s: Ledger, id: Id): set<SourceKey> {
    set k | k in s.rows && s.rows[k].id in s.transactions && s.transactions[s.rows[k].id].merchantId == id
  }

  function ToMerchant(t: Transaction, source: Id, target: Id): Transaction {
    if t.merchantId == source then t.(merchantId := target) else t
  }

  /** The same for categories; the protected ones cannot be merged away. */
  ghost predicate MergesCategories(s: Ledger, source: Id, target: Id, affected: set<SourceKey>, after: Ledger) {
    && Active(s.tables.categories, source) && Active(s.tables.categories, target) && source != target
    && source != UNCATEGORIZED_ID && source != SPLIT_ID
    && affected == WithCategory(s, source) && Marks(s, after, {}, affected)
    && after.tables == s.tables.(categories := Merged(s.tables.categories, source, target))
    && after.transactions == map id | id in s.transactions :: ToCategory(s.transactions[id], source, target)
  }

  function WithCategory(s: Ledger, id: Id): set<SourceKey> {
    set k | k in s.rows && s.rows[k].id in s.transactions && s.transactions[s.rows[k].id].categoryId == id
  }

  function ToCategory(t: Transaction, source: Id, target: Id): Transaction {
    if t.categoryId == source then t.(categoryId := target) else t
  }

  /** Labels, groups and new entities: any edit of the tables under which live references stay active. */
  ghost predicate EditsTables(s: Ledger, merchants: set<SourceKey>, categories: set<SourceKey>, after: Ledger) {
    && ValidTables(after.tables)
    && after.tables.accounts == s.tables.accounts && after.tables.aliases == s.tables.aliases
    && merchants + categories <= s.rows.Keys && Marks(s, after, merchants, categories)
    && after.transactions == s.transactions && LiveReferences(after)
  }

  ghost predicate Step(
    s: Ledger, e: Event, after: Ledger, n: Naming, sourceKeyOf: SourceRow -> SourceKey,
    content: (FileKey, string) -> set<SourceKey>)
  {
    match e
    case Import(file, force, ids, keys) =>
      && WellKeyed(file, sourceKeyOf) && SameAccount(s, file) && ContentOf(content, file) && FreshIds(s, ids)
      && (if SameDigest(s, file) && !force then after == s
          else exists pending, c :: PendingMeans(s, pending, keys) && ImportStep(s, n, file, ids, pending, after, c))
    case OverrideMerchant(k) =>
      && k in s.rows
      && Touches(s, k, after, s.rows[k].(merchantOverride := true), true) && LiveReferences(after)
      && var t, t' := s.transactions[s.rows[k].id], after.transactions[s.rows[k].id];
      t' == t.(merchantId := t'.merchantId)
    case OverrideCategory(k) =>
      && k in s.rows
      && Touches(s, k, after, s.rows[k].(categoryOverride := true), true) && LiveReferences(after)
      && var t, t' := s.transactions[s.rows[k].id], after.transactions[s.rows[k].id];
      t' == t.(categoryId := t'.categoryId)
    case SetHidden(k, h) =>
      && k in s.rows
      && Touches(s, k, after, s.rows[k], true)
      && after.transactions[s.rows[k].id] == s.transactions[s.rows[k].id].(hidden := h)
    case Delete(k) =>
      && k in s.rows
      && Touches(s, k, after, s.rows[k].(disposition := Deleted), false)
    case MergeMerchants(source, target, affected) => MergesMerchants(s, source, target, affected, after)
    case MergeCategories(source, target, affected) => MergesCategories(s, source, target, affected, after)
    case EditTables(merchants, categories) => EditsTables(s, merchants, categories, after)
  }

  /** A merge moves exactly the transactions of the merged merchant, marks exactly their rows as the user's own, and
  leaves everything else about transactions and rows as it was. */
  lemma MergeMovesItsTransactions(s: Ledger, source: Id, target: Id, affected: set<SourceKey>, after: Ledger)
    requires MergesMerchants(s, source, target, affected, after)
    ensures after.transactions.Keys == s.transactions.Keys && after.rows.Keys == s.rows.Keys
    ensures forall x :: x in s.transactions ==>
      var t, t' := s.transactions[x], after.transactions[x];
      && t' == t.(merchantId := t'.merchantId) && t'.merchantId != source
      && (t.merchantId == source ==> t'.merchantId == target)
      && (t.merchantId != source ==> t'.merchantId == t.merchantId)
    ensures forall k :: k in s.rows ==>
      var row := s.rows[k];
      var moved := row.id in s.transactions && s.transactions[row.id].merchantId == source;
      after.rows[k] == if moved then row.(merchantOverride := true) else row
  {
    forall k | k in s.rows
      ensures k in affected <==> s.rows[k].id in s.transactions && s.transactions[s.rows[k].id].merchantId == source
    {
    }
  }

  /** The same for categories. */
  lemma CategoryMergeMovesItsTransactions(s: Ledger, source: Id, target: Id, affected: set<SourceKey>, after: Ledger)
    requires MergesCategories(s, source, target, affected, after)
    ensures after.transactions.Keys == s.transactions.Keys && after.rows.Keys == s.rows.Keys
    ensures forall x :: x in s.transactions ==>
      var t, t' := s.transactions[x], after.transactions[x];
      && t' == t.(categoryId := t'.categoryId) && t'.categoryId != source
      && (t.categoryId == source ==> t'.categoryId == target)
      && (t.categoryId != source ==> t'.categoryId == t.categoryId)
    ensures forall k :: k in s.rows ==>
      var row := s.rows[k];
      var moved := row.id in s.transactions && s.transactions[row.id].categoryId == source;
      after.rows[k] == if moved then row.(categoryOverride := true) else row
  {
    forall k | k in s.rows
      ensures k in affected <==> s.rows[k].id in s.transactions && s.transactions[s.rows[k].id].categoryId == source
    {
    }
  }

  /** After a merge a label that stood for the merged merchant stands for the other one, and every other label for
  what it stood for: a later import files its rows where the user put them. */
  lemma MergeRedirectsLabels(
    s: Ledger, source: Id, target: Id, affected: set<SourceKey>, after: Ledger, n: Naming, text: string, id: Id)
    requires MergesMerchants(s, source, target, affected, after) && ResolvesMerchant(s.tables, n, text, id)
    ensures ResolvesMerchant(after.tables, n, text, if id == source then target else id)
  {
    hide Marks, LeadsTo, Merged;
    MergeRedirects(s.tables.merchants, source, target, s.tables.aliases[MerchantAlias(n.collisionKey(text).value)], id);
  }

  // Ledger validity over user decisions -----------------------------------------------------------

  /** The facts of a transaction that come from its source row and never change. */
  ghost predicate SameSourceFacts(a: Transaction, b: Transaction) {
    a.id == b.id && a.providerId == b.providerId && a.accountId == b.accountId && a.date == b.date
        && a.amount == b.amount
  }

  lemma TouchKeepsRow(s: Ledger, k: SourceKey, after: Ledger, row: SavedRow, keeps: bool, l: SourceKey)
    requires DistinctIds(s) && Touches(s, k, after, row, keeps) && l in s.rows && ConsistentRow(s, l)
    requires if keeps then row.disposition == Present
        && SameSourceFacts(after.transactions[row.id], s.transactions[row.id])
             else row.disposition == Deleted
    ensures l in after.rows && ConsistentRow(after, l) && after.rows[l].row == s.rows[l].row
  {
    if l != k {
      assert s.rows[l].id != s.rows[k].id;
    }
  }

  lemma TouchKeepsLedgerValid(
    s: Ledger, k: SourceKey, after: Ledger, row: SavedRow, keeps: bool, sourceKeyOf: SourceRow -> SourceKey)
    requires ValidLedger(s) && HashedRows(s, sourceKeyOf) && Touches(s, k, after, row, keeps)
    requires if keeps then row.disposition == Present
        && SameSourceFacts(after.transactions[row.id], s.transactions[row.id])
             else row.disposition == Deleted
    requires LiveReferences(after)
    ensures ValidLedger(after) && HashedRows(after, sourceKeyOf)
  {
    hide ValidTables, ConsistentRow, SameSourceFacts, LiveReferences;
    forall l | l in s.rows ensures l in after.rows && ConsistentRow(after, l) && after.rows[l].row == s.rows[l].row {
      TouchKeepsRow(s, k, after, row, keeps, l);
    }
    TouchKeepsLinks(s, k, after, row, keeps);
    hide ConsistentRow, DistinctIds, ValidClaim, Owned;
  }

  // Claims and transactions stay linked to their rows.
  lemma TouchKeepsLinks(s: Ledger, k: SourceKey, after: Ledger, row: SavedRow, keeps: bool)
    requires DistinctIds(s) && Touches(s, k, after, row, keeps) && row.disposition != Superseded
    requires (forall c :: c in s.claims ==> ValidClaim(s, c)) && (forall id :: id in s.transactions ==> Owned(s, id))
    ensures DistinctIds(after)
    ensures (forall c :: c in after.claims ==> ValidClaim(after, c))
        && (forall id :: id in after.transactions ==> Owned(after, id))
  {
    forall id | id in after.transactions ensures Owned(after, id) {
      assert Owned(s, id);
      var l :| l in s.rows && s.rows[l].id == id;
      assert l in after.rows && after.rows[l].id == id;
    }
    forall c | c in after.claims ensures ValidClaim(after, c) {
      assert ValidClaim(s, c);
    }
  }

  // Hiding or deleting changes no reference.
  lemma TouchKeepsReferences(s: Ledger, k: SourceKey, after: Ledger, row: SavedRow, keeps: bool)
    requires LiveReferences(s) && Touches(s, k, after, row, keeps)
    requires keeps ==>
               && after.transactions[row.id].merchantId == s.transactions[row.id].merchantId
               && after.transactions[row.id].categoryId == s.transactions[row.id].categoryId
    ensures LiveReferences(after)
  {
    forall id | id in after.transactions ensures RefersToActive(after.tables, after.transactions[id]) {
      assert RefersToActive(s.tables, s.transactions[id]);
    }
  }

  /** The same transactions, up to merchant and category. */
  ghost predicate Repointed(s: Ledger, after: Ledger) {
    && after.transactions.Keys == s.transactions.Keys
    && forall id :: id in s.transactions ==> SamePlace(s.transactions[id], after.transactions[id])
  }

  ghost predicate SamePlace(t: Transaction, t': Transaction) {
    t' == t.(merchantId := t'.merchantId, categoryId := t'.categoryId)
  }

  lemma MarkedRow(s: Ledger, after: Ledger, merchants: set<SourceKey>, categories: set<SourceKey>, k: SourceKey)
    requires Marks(s, after, merchants, categories) && Repointed(s, after) && k in s.rows && ConsistentRow(s, k)
    requires after.tables.accounts == s.tables.accounts && after.tables.aliases == s.tables.aliases
    ensures k in after.rows && ConsistentRow(after, k)
  {
    assert s.rows[k].id in s.transactions ==> SamePlace(s.transactions[s.rows[k].id], after.transactions[s.rows[k].id]);
  }

  lemma MarkingKeepsLinks(s: Ledger, after: Ledger, merchants: set<SourceKey>, categories: set<SourceKey>)
    requires DistinctIds(s) && Marks(s, after, merchants, categories) && after.transactions.Keys == s.transactions.Keys
    requires (forall c :: c in s.claims ==> ValidClaim(s, c)) && (forall id :: id in s.transactions ==> Owned(s, id))
    ensures DistinctIds(after)
    ensures (forall c :: c in after.claims ==> ValidClaim(after, c))
        && (forall id :: id in after.transactions ==> Owned(after, id))
  {
    forall id | id in s.transactions ensures Owned(after, id) {
      assert Owned(s, id);
      var k :| k in s.rows && s.rows[k].id == id;
      assert k in after.rows && after.rows[k].id == id;
    }
    forall c | c in after.claims ensures ValidClaim(after, c) {
      assert ValidClaim(s, c);
    }
  }

  lemma MarkingKeepsLedgerValid(
    s: Ledger, after: Ledger, merchants: set<SourceKey>, categories: set<SourceKey>,
    sourceKeyOf: SourceRow -> SourceKey)
    requires ValidLedger(s) && HashedRows(s, sourceKeyOf)
    requires Marks(s, after, merchants, categories) && Repointed(s, after)
    requires ValidTables(after.tables) && LiveReferences(after)
    requires after.tables.accounts == s.tables.accounts && after.tables.aliases == s.tables.aliases
    ensures ValidLedger(after) && HashedRows(after, sourceKeyOf)
  {
    assert after.transactions.Keys == s.transactions.Keys;
    hide ValidTables, LiveReferences, ConsistentRow, Repointed;
    forall k | k in after.rows ensures ConsistentRow(after, k) {
      MarkedRow(s, after, merchants, categories, k);
    }
    MarkingKeepsLinks(s, after, merchants, categories);
    hide DistinctIds, ValidClaim, Owned;
  }

  lemma MergedTables(t: Table, source: Id, target: Id)
    requires Closed(t) && Active(t, target) && source in t
    ensures Closed(Merged(t, source, target)) && Merged(t, source, target).Keys == t.Keys
    ensures forall id :: Active(t, id) && id != source ==> Active(Merged(t, source, target), id)
  {
  }

  lemma MerchantMergeIsMarking(s: Ledger, source: Id, target: Id, affected: set<SourceKey>, after: Ledger)
    requires LiveReferences(s) && ValidTables(s.tables) && MergesMerchants(s, source, target, affected, after)
    ensures Marks(s, after, affected, {}) && Repointed(s, after) && affected <= s.rows.Keys
    ensures ValidTables(after.tables) && LiveReferences(after)
    ensures after.tables.accounts == s.tables.accounts && after.tables.aliases == s.tables.aliases
  {
    MerchantMergeKeepsReferences(s, source, target, affected, after);
    hide LiveReferences, Merged, Closed, Marks;
    MergedTables(s.tables.merchants, source, target);
  }

  lemma MerchantMergeKeepsReferences(s: Ledger, source: Id, target: Id, affected: set<SourceKey>, after: Ledger)
    requires LiveReferences(s) && ValidTables(s.tables) && MergesMerchants(s, source, target, affected, after)
    ensures LiveReferences(after)
  {
    MergedTables(s.tables.merchants, source, target);
    hide Merged, Closed, Marks, ValidTables;
    forall id | id in after.transactions ensures RefersToActive(after.tables, after.transactions[id]) {
      assert RefersToActive(s.tables, s.transactions[id]);
    }
  }

  lemma CategoryMergeIsMarking(s: Ledger, source: Id, target: Id, affected: set<SourceKey>, after: Ledger)
    requires LiveReferences(s) && ValidTables(s.tables) && MergesCategories(s, source, target, affected, after)
    ensures Marks(s, after, {}, affected) && Repointed(s, after) && affected <= s.rows.Keys
    ensures ValidTables(after.tables) && LiveReferences(after)
    ensures after.tables.accounts == s.tables.accounts && after.tables.aliases == s.tables.aliases
  {
    CategoryMergeKeepsReferences(s, source, target, affected, after);
    hide LiveReferences, Merged, Closed, Marks;
    MergedTables(s.tables.categories, source, target);
  }

  lemma CategoryMergeKeepsReferences(s: Ledger, source: Id, target: Id, affected: set<SourceKey>, after: Ledger)
    requires LiveReferences(s) && ValidTables(s.tables) && MergesCategories(s, source, target, affected, after)
    ensures LiveReferences(after)
  {
    MergedTables(s.tables.categories, source, target);
    hide Merged, Closed, Marks, ValidTables;
    forall id | id in after.transactions ensures RefersToActive(after.tables, after.transactions[id]) {
      assert RefersToActive(s.tables, s.transactions[id]);
    }
  }

  lemma ReferencesOf(s: Ledger)
    requires ValidLedger(s)
    ensures LiveReferences(s) && ValidTables(s.tables)
  {
    hide LiveReferences, ValidTables;
  }

  lemma UserStepKeepsLedgerValid(
    s: Ledger, e: Event, after: Ledger, n: Naming, sourceKeyOf: SourceRow -> SourceKey,
    content: (FileKey, string) -> set<SourceKey>)
    requires ValidLedger(s) && HashedRows(s, sourceKeyOf)
    requires !e.Import? && Step(s, e, after, n, sourceKeyOf, content)
    ensures ValidLedger(after) && HashedRows(after, sourceKeyOf)
  {
    ReferencesOf(s);
    hide ValidLedger, LiveReferences, ValidTables, MergesMerchants, MergesCategories, Marks, Repointed;
    match e
    case OverrideMerchant(k) =>
      TouchKeepsLedgerValid(s, k, after, s.rows[k].(merchantOverride := true), true, sourceKeyOf);
    case OverrideCategory(k) =>
      TouchKeepsLedgerValid(s, k, after, s.rows[k].(categoryOverride := true), true, sourceKeyOf);
    case SetHidden(k, _) =>
      TouchKeepsReferences(s, k, after, s.rows[k], true);
      TouchKeepsLedgerValid(s, k, after, s.rows[k], true, sourceKeyOf);
    case Delete(k) =>
      TouchKeepsReferences(s, k, after, s.rows[k].(disposition := Deleted), false);
      TouchKeepsLedgerValid(s, k, after, s.rows[k].(disposition := Deleted), false, sourceKeyOf);
    case MergeMerchants(source, target, affected) =>
      MerchantMergeIsMarking(s, source, target, affected, after);
      MarkingKeepsLedgerValid(s, after, affected, {}, sourceKeyOf);
    case MergeCategories(source, target, affected) =>
      CategoryMergeIsMarking(s, source, target, affected, after);
      MarkingKeepsLedgerValid(s, after, {}, affected, sourceKeyOf);
    case EditTables(merchants, categories) =>
      TableEditRepoints(s, merchants, categories, after);
      MarkingKeepsLedgerValid(s, after, merchants, categories, sourceKeyOf);
  }

  // The ledger follows the reference ---------------------------------------------------------------

  lemma ClaimsShown(s: Ledger, r: Reference, content: (FileKey, string) -> set<SourceKey>, file: SourceFile)
    requires Shows(s, r, content)
    ensures EarlierClaims(s, file.key) == Earlier(r, file.key)
    ensures OtherClaims(s, file.key) == ClaimedByOthers(r, file.key)
    ensures ClaimedBy(s, file) == NowListed(r, file)
    ensures forall f, k :: Claim(f, k) in ClaimsAfter(s, file) <==>
      f in r.latest[file.key := NowListed(r, file)] && k in r.latest[file.key := NowListed(r, file)][f]
  {
    assert EarlierClaims(s, file.key) == Earlier(r, file.key) by {
      forall k | k in EarlierClaims(s, file.key) ensures k in Earlier(r, file.key) {
        assert Claim(file.key, k) in s.claims;
      }
      forall k | k in Earlier(r, file.key) ensures k in EarlierClaims(s, file.key) {
        assert Claim(file.key, k) in s.claims;
      }
    }
    assert OtherClaims(s, file.key) == ClaimedByOthers(r, file.key) by {
      forall k | k in OtherClaims(s, file.key) ensures k in ClaimedByOthers(r, file.key) {
        var c :| c in s.claims && c.file != file.key && c.source == k;
        assert Claim(c.file, k) in s.claims;
      }
      forall k | k in ClaimedByOthers(r, file.key) ensures k in OtherClaims(s, file.key) {
        var f :| f in r.latest && f != file.key && k in r.latest[f];
        assert Claim(f, k) in s.claims;
      }
    }
  }

  lemma ClaimedAfter(r: Reference, file: SourceFile)
    ensures Claimed(r) == Earlier(r, file.key) + ClaimedByOthers(r, file.key)
    ensures Claimed(r.(latest := r.latest[file.key := NowListed(r, file)])) ==
        NowListed(r, file) + ClaimedByOthers(r, file.key)
  {
    var r' := r.(latest := r.latest[file.key := NowListed(r, file)]);
    forall k | k in NowListed(r, file) + ClaimedByOthers(r, file.key) ensures k in Claimed(r') {
      if k in NowListed(r, file) {
        assert file.key in r'.latest && k in r'.latest[file.key];
      } else {
        var f :| f in r.latest && f != file.key && k in r.latest[f];
        assert f in r'.latest && k in r'.latest[f];
      }
    }
    forall k | k in Earlier(r, file.key) + ClaimedByOthers(r, file.key) ensures k in Claimed(r) {
      if k in Earlier(r, file.key) {
        assert file.key in r.latest && k in r.latest[file.key];
      }
    }
  }

  lemma ShieldShown(s: Ledger, r: Reference, content: (FileKey, string) -> set<SourceKey>, pending: set<Id>,
    keys: set<SourceKey>, k: SourceKey)
    requires Shows(s, r, content) && PendingMeans(s, pending, keys) && k in s.rows
    ensures Shielded(s, pending, k) <==> k in r.overridden + r.hidden + keys
  {
  }

  // Which rows an import supersedes, in the reference's terms.
  lemma SupersedesShown(
    s: Ledger, r: Reference, content: (FileKey, string) -> set<SourceKey>, file: SourceFile, pending: set<Id>,
    keys: set<SourceKey>, k: SourceKey)
    requires Shows(s, r, content) && PendingMeans(s, pending, keys) && k in s.rows
    ensures Supersedes(s, file, pending, k) <==>
      && k in Earlier(r, file.key) && k !in NowListed(r, file) && k !in ClaimedByOthers(r, file.key) && k !in r.deleted
      && k !in r.overridden + r.hidden + keys
    ensures k in NewlyKept(r, file, keys) <==>
      && k in Earlier(r, file.key) && k !in NowListed(r, file) && k !in ClaimedByOthers(r, file.key) && k !in r.deleted
      && k in r.overridden + r.hidden + keys
  {
    ClaimsShown(s, r, content, file);
    ClaimedAfter(r, file);
    ShieldShown(s, r, content, pending, keys, k);
    assert Claim(file.key, k) in s.claims <==> k in Earlier(r, file.key);
    assert s.rows[k].disposition == DispositionIn(r, k);
    hide Shows, PendingMeans, Claimed, Earlier, NowListed, ClaimedByOthers, OtherClaims, ClaimedBy;
  }

  lemma UpdatesShown(s: Ledger, r: Reference, content: (FileKey, string) -> set<SourceKey>, file: SourceFile,
    k: SourceKey)
    requires Shows(s, r, content)
    ensures Updates(s, file.key, k) <==>
      k !in s.rows || (k !in r.deleted && (k in Earlier(r, file.key) || (k !in Claimed(r) && k !in r.kept)))
  {
    assert Claim(file.key, k) in s.claims <==> k in Earlier(r, file.key);
    hide Claimed;
  }

  lemma DispositionShown(
    s: Ledger, n: Naming, r: Reference, content: (FileKey, string) -> set<SourceKey>, file: SourceFile, force: bool,
    ids: seq<Id>, pending: set<Id>, keys: set<SourceKey>, after: Ledger, k: SourceKey)
    requires Shows(s, r, content) && PendingMeans(s, pending, keys)
    requires RowsAfter(s, file, ids, pending, after.rows) && k in after.rows
    ensures after.rows[k].disposition == DispositionIn(Follow(r, Import(file, force, ids, keys)), k)
  {
    DispositionAfter(s, file, ids, pending, after.rows, k);
    UpdatesShown(s, r, content, file, k);
    ClaimedAfter(r, file);
    var r' := Follow(r, Import(file, force, ids, keys));
    assert Claimed(r') == Claimed(r.(latest := r.latest[file.key := NowListed(r, file)]));
    assert k !in s.rows ==> k in KeysOf(file.rows);
    if k in s.rows {
      SupersedesShown(s, r, content, file, pending, keys, k);
      assert s.rows[k].disposition == DispositionIn(r, k);
    }
    assert r.kept !! Claimed(r) && r.deleted <= s.rows.Keys;
    assert NowListed(r, file) <= KeysOf(file.rows) + Earlier(r, file.key) && KeysOf(file.rows) <= NowListed(r, file);
    assert k in r'.kept <==> (k in r.kept && k !in KeysOf(file.rows)) || k in NewlyKept(r, file, keys);
    hide Shows, PendingMeans, RowsAfter, Claimed, Earlier, NowListed, ClaimedByOthers, KeysOf, NewlyKept, Supersedes,
         Updates;
  }

  lemma UserMarksShown(
    s: Ledger, n: Naming, r: Reference, content: (FileKey, string) -> set<SourceKey>, file: SourceFile,
    ids: seq<Id>, pending: set<Id>, keys: set<SourceKey>, after: Ledger, c: Counts, k: SourceKey)
    requires ValidLedger(s) && FreshIds(s, ids)
    requires Shows(s, r, content) && PendingMeans(s, pending, keys)
    requires ImportStep(s, n, file, ids, pending, after, c) && k in after.rows
    ensures k in r.overridden <==> after.rows[k].merchantOverride || after.rows[k].categoryOverride
    ensures k in r.hidden <==> after.rows[k].id in after.transactions && after.transactions[after.rows[k].id].hidden
  {
    ValidLedgerFacts(s);
    StepParts(s, n, file, ids, pending, after, c);
    hide ValidLedger, ImportStep, TablesAfter;
    if k in KeysOf(file.rows) && Updates(s, file.key, k) {
      var j := SavedRowAfter(s, file, ids, pending, after.rows, k);
      var id := IdFor(s, ids, k, j);
      assert RowImported(s, n, file, ids, after.tables, after.tables.accounts[file.accountKey], after.transactions, j);
      ImportedFacts(s, n, after.tables, after.tables.accounts[file.accountKey], file.rows[j], id,
          after.transactions[id]);
      hide Imported, RowImported, RowsAfter, TransactionsAfter, DistinctIds, Claimed;
    } else {
      OtherMarksShown(s, n, r, content, file, ids, pending, keys, after, k);
    }
  }

  lemma OtherMarksShown(
    s: Ledger, n: Naming, r: Reference, content: (FileKey, string) -> set<SourceKey>, file: SourceFile,
    ids: seq<Id>, pending: set<Id>, keys: set<SourceKey>, after: Ledger, k: SourceKey)
    requires LiveIffPresent(s)
    requires Shows(s, r, content) && PendingMeans(s, pending, keys)
    requires RowsAfter(s, file, ids, pending, after.rows) && file.accountKey in after.tables.accounts
    requires TransactionsAfter(s, n, file, ids, pending, after.tables, after.transactions)
    requires k in after.rows && !(k in KeysOf(file.rows) && Updates(s, file.key, k))
    ensures k in r.overridden <==> after.rows[k].merchantOverride || after.rows[k].categoryOverride
    ensures k in r.hidden <==> after.rows[k].id in after.transactions && after.transactions[after.rows[k].id].hidden
  {
    assert k in s.rows;
    var i := IdAfter(s, file, ids, pending, after.rows, k);
    SupersedesShown(s, r, content, file, pending, keys, k);
    if k in KeysOf(file.rows) {
      var j := SavedRowAfter(s, file, ids, pending, after.rows, k);
      SupersedesFacts(s, file, pending);
    }
    assert if Supersedes(s, file, pending, k) then s.rows[k].id !in after.transactions
        else Kept(s, after.transactions, s.rows[k].id);
    assert after.rows[k].merchantOverride == s.rows[k].merchantOverride
        && after.rows[k].categoryOverride == s.rows[k].categoryOverride;
    hide RowsAfter, TransactionsAfter, Supersedes, Updates, KeysOf, PendingMeans, LiveIffPresent, Earlier, NowListed,
         ClaimedByOthers, NewlyKept, Claimed, DispositionIn;
  }

  // Set facts about the next reference state.
  lemma NextReferenceSets(
    s: Ledger, r: Reference, content: (FileKey, string) -> set<SourceKey>, file: SourceFile, force: bool, ids: seq<Id>,
    keys: set<SourceKey>,
    rows: set<SourceKey>)
    requires Shows(s, r, content) && rows == s.rows.Keys + KeysOf(file.rows)
    ensures
      var r' := Follow(r, Import(file, force, ids, keys));
      && Claimed(r') + r'.kept + r'.deleted + r'.overridden + r'.hidden <= rows
      && r'.kept !! Claimed(r')
  {
    var r' := Follow(r, Import(file, force, ids, keys));
    ClaimedAfter(r, file);
    assert Claimed(r') == Claimed(r.(latest := r.latest[file.key := NowListed(r, file)]));
    assert NowListed(r, file) <= KeysOf(file.rows) + Earlier(r, file.key);
    assert NewlyKept(r, file, keys) <= Earlier(r, file.key);
    assert NewlyKept(r, file, keys) !! NowListed(r, file) + ClaimedByOthers(r, file.key);
    hide Claimed, ClaimedByOthers, NowListed, Earlier, NewlyKept, KeysOf;
  }

  // A complete file's latest rows are the content its digest names.
  lemma ContentShown(
    s: Ledger, r: Reference, content: (FileKey, string) -> set<SourceKey>, file: SourceFile, force: bool, ids: seq<Id>,
    keys: set<SourceKey>,
    after: Ledger, c: Counts)
    requires Shows(s, r, content) && ContentOf(content, file) && c.skipped == file.skipped
    requires after.files == s.files[file.key := SavedFile(file.accountKey, file.digest, c.inserted, c.duplicates,
        c.skipped)]
    ensures
      var r' := Follow(r, Import(file, force, ids, keys));
      && after.files.Keys == r'.latest.Keys
      && forall f :: f in after.files && after.files[f].skipped == 0 ==>
         r'.latest[f] == content(f, after.files[f].digest)
  {
    hide Claimed, DispositionIn;
  }

  /** An import follows the reference: claims, dispositions, and user marks. */
  lemma ImportFollows(
    s: Ledger, n: Naming, r: Reference, content: (FileKey, string) -> set<SourceKey>, file: SourceFile, force: bool,
    ids: seq<Id>, pending: set<Id>, keys: set<SourceKey>, after: Ledger, c: Counts)
    requires ValidLedger(s) && FreshIds(s, ids) && ContentOf(content, file)
    requires Shows(s, r, content) && PendingMeans(s, pending, keys)
    requires ImportStep(s, n, file, ids, pending, after, c)
    ensures Shows(after, Follow(r, Import(file, force, ids, keys)), content)
  {
    hide ValidLedger, ImportStep, TransactionsAfter, TablesAfter, ClaimsAfter, Claimed, ClaimedByOthers, PendingMeans,
         FreshIds,
         DispositionIn, NewlyKept, KeysOf, NowListed, Earlier;
    var r' := Follow(r, Import(file, force, ids, keys));
    StepParts(s, n, file, ids, pending, after, c);
    ClaimsShown(s, r, content, file);
    forall k | k in after.rows
      ensures after.rows[k].disposition == DispositionIn(r', k)
      ensures k in r'.overridden <==> after.rows[k].merchantOverride || after.rows[k].categoryOverride
      ensures k in r'.hidden <==> after.rows[k].id in after.transactions && after.transactions[after.rows[k].id].hidden
    {
      DispositionShown(s, n, r, content, file, force, ids, pending, keys, after, k);
      UserMarksShown(s, n, r, content, file, ids, pending, keys, after, c, k);
    }
    NextReferenceSets(s, r, content, file, force, ids, keys, after.rows.Keys);
    ContentShown(s, r, content, file, force, ids, keys, after, c);
    hide RowsAfter, ContentOf;
    AssembleShows(after, r', content);
  }

  lemma AssembleShows(s: Ledger, r: Reference, content: (FileKey, string) -> set<SourceKey>)
    requires s.files.Keys == r.latest.Keys
    requires forall f, k :: Claim(f, k) in s.claims <==> f in r.latest && k in r.latest[f]
    requires forall k :: k in s.rows ==> RowShows(s, r, k)
    requires Claimed(r) + r.kept + r.deleted + r.overridden + r.hidden <= s.rows.Keys
    requires r.kept !! Claimed(r)
    requires forall f :: f in s.files && s.files[f].skipped == 0 ==> r.latest[f] == content(f, s.files[f].digest)
    ensures Shows(s, r, content)
  {
  }

  // The unchanged-file shortcut ---------------------------------------------------------------------

  /** Importing again a file whose content is already in place changes nothing in the reference. */
  lemma RepeatedContentIsNoOp(
    s: Ledger, r: Reference, content: (FileKey, string) -> set<SourceKey>, file: SourceFile, force: bool, ids: seq<Id>,
    keys: set<SourceKey>)
    requires Shows(s, r, content) && ContentOf(content, file) && SameDigest(s, file)
    ensures Follow(r, Import(file, force, ids, keys)) == r
    ensures KeysOf(file.rows) <= s.rows.Keys
  {
    assert Earlier(r, file.key) == KeysOf(file.rows);
    ClaimedAfter(r, file);
    assert NowListed(r, file) == Earlier(r, file.key);
    assert NewlyKept(r, file, keys) == {};
    assert r.kept - KeysOf(file.rows) == r.kept;
  }

  // Two ledgers that show the same reference agree on claims, dispositions and live transactions.
  lemma SameReferenceSameShape(s: Ledger, after: Ledger, r: Reference, content: (FileKey, string) -> set<SourceKey>)
    requires Shows(s, r, content) && Shows(after, r, content)
    requires after.rows.Keys == s.rows.Keys
    ensures after.claims == s.claims
    ensures forall k :: k in s.rows ==> after.rows[k].disposition == s.rows[k].disposition
    ensures PresentKeys(after) == PresentKeys(s)
    ensures Moved(s.rows, after.rows, Present, Superseded) == {} == Moved(s.rows, after.rows, Superseded, Present)
  {
    forall c ensures c in after.claims <==> c in s.claims {
      assert c == Claim(c.file, c.source);
    }
    hide Claimed, DispositionIn;
  }

  lemma SameIdsSameTransactions(s: Ledger, after: Ledger)
    requires ValidLedger(s) && ValidLedger(after) && PresentKeys(after) == PresentKeys(s)
        && after.rows.Keys == s.rows.Keys
    requires forall k :: k in s.rows ==> after.rows[k].id == s.rows[k].id
    ensures after.transactions.Keys == s.transactions.Keys
  {
    hide ValidLedger;
    OneTransactionPerPresentRow(s);
    OneTransactionPerPresentRow(after);
    assert forall k :: k in PresentKeys(s) ==> k in s.rows;
    assert IdsOf(after, PresentKeys(after)) == IdsOf(s, PresentKeys(s));
    hide PresentKeys, IdsOf;
  }

  lemma StepCounts(s: Ledger, n: Naming, file: SourceFile, ids: seq<Id>, pending: set<Id>, after: Ledger, c: Counts)
    requires ImportStep(s, n, file, ids, pending, after, c)
    ensures c.inserted == |after.rows| - |s.rows|
    ensures c.restored == |Moved(s.rows, after.rows, Superseded, Present)|
    ensures c.superseded == |Moved(s.rows, after.rows, Present, Superseded)|
  {
  }

  lemma SavedIdsKept(s: Ledger, file: SourceFile, ids: seq<Id>, pending: set<Id>, after: Ledger)
    requires RowsAfter(s, file, ids, pending, after.rows)
    ensures forall k :: k in s.rows ==> k in after.rows && after.rows[k].id == s.rows[k].id
    ensures KeysOf(file.rows) <= s.rows.Keys ==> after.rows.Keys == s.rows.Keys
  {
    forall k | k in s.rows ensures k in after.rows && after.rows[k].id == s.rows[k].id {
      RowStaysListed(s, file, ids, pending, after.rows, k);
      var j := IdAfter(s, file, ids, pending, after.rows, k);
    }
  }

  /** The shortcut for an unchanged file skips no work that a forced import would do: a forced import
  gives the same rows, dispositions, claims and live transactions. */
  lemma ShortcutMatchesForcedImport(
    s: Ledger, n: Naming, r: Reference, content: (FileKey, string) -> set<SourceKey>, file: SourceFile,
    ids: seq<Id>, pending: set<Id>, keys: set<SourceKey>, after: Ledger, c: Counts, sourceKeyOf: SourceRow -> SourceKey)
    requires ValidLedger(s) && FreshIds(s, ids) && ContentOf(content, file) && SameDigest(s, file)
    requires WellKeyed(file, sourceKeyOf) && SameAccount(s, file) && HashedRows(s, sourceKeyOf)
        && KeyDetermines(sourceKeyOf)
    requires Shows(s, r, content) && PendingMeans(s, pending, keys)
    requires ImportStep(s, n, file, ids, pending, after, c)
    ensures after.rows.Keys == s.rows.Keys && after.claims == s.claims
    ensures forall k :: k in s.rows ==>
        after.rows[k].disposition == s.rows[k].disposition && after.rows[k].id == s.rows[k].id
    ensures after.transactions.Keys == s.transactions.Keys
    ensures c.inserted == 0 && c.superseded == 0 && c.restored == 0
  {
    hide ValidLedger, WellKeyed, HashedRows, KeyDetermines, FreshIds, ImportStep, RowsAfter, TransactionsAfter,
         TablesAfter,
         PendingMeans, Shows, ContentOf, SameDigest, Follow, PresentKeys, Moved, KeysOf, SameAccount, ClaimsAfter;
    RepeatedContentIsNoOp(s, r, content, file, true, ids, keys);
    ImportFollows(s, n, r, content, file, true, ids, pending, keys, after, c);
    ImportKeepsLedgerValid(s, n, file, ids, pending, after, c, sourceKeyOf);
    StepParts(s, n, file, ids, pending, after, c);
    SavedIdsKept(s, file, ids, pending, after);
    SameReferenceSameShape(s, after, r, content);
    SameIdsSameTransactions(s, after);
    StepCounts(s, n, file, ids, pending, after, c);
    assert |after.rows| == |after.rows.Keys| && |s.rows| == |s.rows.Keys|;
  }

  // Whole runs -----------------------------------------------------------------------------------------

  // A decision about row `k` changes what the ledger shows at `k` only.
  // Deciding about one row changes no other row's marks.
  lemma SameMarks(r: Reference, r': Reference, k: SourceKey, l: SourceKey)
    requires l != k && r'.latest == r.latest && r'.kept == r.kept
    requires r.deleted - {k} == r'.deleted - {k} && r.overridden - {k} == r'.overridden - {k}
        && r.hidden - {k} == r'.hidden - {k}
    ensures DispositionIn(r', l) == DispositionIn(r, l)
    ensures (l in r'.overridden <==> l in r.overridden) && (l in r'.hidden <==> l in r.hidden)
  {
    assert Claimed(r') == Claimed(r);
    hide Claimed;
    assert l in r.deleted <==> l in r.deleted - {k};
    assert l in r'.deleted <==> l in r'.deleted - {k};
    assert l in r.overridden <==> l in r.overridden - {k};
    assert l in r'.overridden <==> l in r'.overridden - {k};
    assert l in r.hidden <==> l in r.hidden - {k};
    assert l in r'.hidden <==> l in r'.hidden - {k};
  }

  lemma TouchShows(
    s: Ledger, k: SourceKey, after: Ledger, row: SavedRow, keeps: bool, r: Reference, r': Reference,
    content: (FileKey, string) -> set<SourceKey>)
    requires DistinctIds(s) && Touches(s, k, after, row, keeps) && Shows(s, r, content)
    requires r'.latest == r.latest && r'.kept == r.kept
    requires r.deleted - {k} == r'.deleted - {k} && r.overridden - {k} == r'.overridden - {k}
        && r.hidden - {k} == r'.hidden - {k}
    requires row.disposition == DispositionIn(r', k)
    requires k in r'.overridden <==> row.merchantOverride || row.categoryOverride
    requires k in r'.hidden <==> row.id in after.transactions && after.transactions[row.id].hidden
    ensures Shows(after, r', content)
  {
    hide Claimed, DispositionIn, DistinctIds, Shows;
    SameLatestSameClaims(r, r');
    ShowsTables(s, r, content);
    TouchShape(s, k, after, row, keeps);
    hide Touches;
    forall l | l in after.rows ensures RowShows(after, r', l) {
      if l != k {
        OtherRowShows(s, k, after, row, keeps, r, r', content, l);
      }
    }
    SameMarkedRows(r, r', k, s.rows.Keys);
    hide RowShows;
    AssembleShows(after, r', content);
  }

  lemma TouchShape(s: Ledger, k: SourceKey, after: Ledger, row: SavedRow, keeps: bool)
    requires Touches(s, k, after, row, keeps)
    ensures k in s.rows && after.rows.Keys == s.rows.Keys && after.rows[k] == row
    ensures after.files == s.files && after.claims == s.claims
  {
  }

  // What the ledger shows apart from its rows' marks.
  lemma ShowsTables(s: Ledger, r: Reference, content: (FileKey, string) -> set<SourceKey>)
    requires Shows(s, r, content)
    ensures s.files.Keys == r.latest.Keys
    ensures forall f, k :: Claim(f, k) in s.claims <==> f in r.latest && k in r.latest[f]
    ensures Claimed(r) + r.kept + r.deleted + r.overridden + r.hidden <= s.rows.Keys && r.kept !! Claimed(r)
    ensures forall f :: f in s.files && s.files[f].skipped == 0 ==> r.latest[f] == content(f, s.files[f].digest)
  {
    hide Claimed, DispositionIn;
  }

  lemma SameMarkedRows(r: Reference, r': Reference, k: SourceKey, keys: set<SourceKey>)
    requires Claimed(r) + r.kept + r.deleted + r.overridden + r.hidden <= keys && k in keys
    requires Claimed(r') == Claimed(r) && r'.kept == r.kept
    requires r.deleted - {k} == r'.deleted - {k} && r.overridden - {k} == r'.overridden - {k}
        && r.hidden - {k} == r'.hidden - {k}
    ensures Claimed(r') + r'.kept + r'.deleted + r'.overridden + r'.hidden <= keys
  {
    hide Claimed;
    assert r'.deleted <= (r'.deleted - {k}) + {k};
    assert r'.overridden <= (r'.overridden - {k}) + {k};
    assert r'.hidden <= (r'.hidden - {k}) + {k};
  }

  lemma OtherRowShows(
    s: Ledger, k: SourceKey, after: Ledger, row: SavedRow, keeps: bool, r: Reference, r': Reference,
    content: (FileKey, string) -> set<SourceKey>, l: SourceKey)
    requires DistinctIds(s) && Touches(s, k, after, row, keeps) && Shows(s, r, content) && l in after.rows && l != k
    requires r'.latest == r.latest && r'.kept == r.kept
    requires r.deleted - {k} == r'.deleted - {k} && r.overridden - {k} == r'.overridden - {k}
        && r.hidden - {k} == r'.hidden - {k}
    ensures RowShows(after, r', l)
  {
    TouchKeepsOthers(s, k, after, row, keeps, l);
    SameMarks(r, r', k, l);
    MarksAt(s, r, content, l);
    hide DispositionIn, DistinctIds, Shows;
  }

  lemma TouchKeepsOthers(s: Ledger, k: SourceKey, after: Ledger, row: SavedRow, keeps: bool, l: SourceKey)
    requires DistinctIds(s) && Touches(s, k, after, row, keeps) && l in s.rows && l != k
    ensures l in after.rows && after.rows[l] == s.rows[l] && Kept(s, after.transactions, s.rows[l].id)
  {
  }

  // A decision about one row.
  lemma TouchFollows(
    s: Ledger, r: Reference, e: Event, after: Ledger, n: Naming, sourceKeyOf: SourceRow -> SourceKey,
    content: (FileKey, string) -> set<SourceKey>)
    requires DistinctIds(s) && LiveIffPresent(s) && Shows(s, r, content)
    requires e.OverrideMerchant? || e.OverrideCategory? || e.SetHidden? || e.Delete?
    requires Step(s, e, after, n, sourceKeyOf, content)
    ensures Shows(after, Follow(r, e), content)
  {
    hide Claimed, Shows, DistinctIds, LiveIffPresent, LiveReferences;
    var r' := Follow(r, e);
    SameLatestSameClaims(r, r');
    MarksAt(s, r, content, e.key);
    match e
    case OverrideMerchant(k) =>
      TouchShows(s, k, after, s.rows[k].(merchantOverride := true), true, r, r', content);
    case OverrideCategory(k) =>
      TouchShows(s, k, after, s.rows[k].(categoryOverride := true), true, r, r', content);
    case SetHidden(k, _) =>
      TouchShows(s, k, after, s.rows[k], true, r, r', content);
    case Delete(k) =>
      TouchShows(s, k, after, s.rows[k].(disposition := Deleted), false, r, r', content);
  }

  lemma UserStepFollows(
    s: Ledger, r: Reference, e: Event, after: Ledger, n: Naming, sourceKeyOf: SourceRow -> SourceKey,
    content: (FileKey, string) -> set<SourceKey>)
    requires ValidLedger(s) && Shows(s, r, content)
    requires !e.Import? && Step(s, e, after, n, sourceKeyOf, content)
    ensures Shows(after, Follow(r, e), content)
  {
    hide ValidLedger, Claimed, Shows, DistinctIds, LiveIffPresent, KnownClaims, ValidTables, LiveReferences, Marks,
         Repointed,
         MergesMerchants, MergesCategories, Touches;
    ReferencesOf(s);
    ValidLedgerFacts(s);
    match e
    case MergeMerchants(source, target, affected) =>
      MerchantMergeIsMarking(s, source, target, affected, after);
      assert affected + {} == affected;
      MarkingShows(s, r, after, content, affected, {});
    case MergeCategories(source, target, affected) =>
      CategoryMergeIsMarking(s, source, target, affected, after);
      assert {} + affected == affected;
      MarkingShows(s, r, after, content, {}, affected);
    case EditTables(merchants, categories) =>
      TableEditRepoints(s, merchants, categories, after);
      MarkingShows(s, r, after, content, merchants, categories);
    case _ =>
      TouchFollows(s, r, e, after, n, sourceKeyOf, content);
  }

  lemma TableEditRepoints(s: Ledger, merchants: set<SourceKey>, categories: set<SourceKey>, after: Ledger)
    requires EditsTables(s, merchants, categories, after)
    ensures Repointed(s, after)
  {
    hide LiveReferences, ValidTables, Marks;
  }

  lemma MarkingShows(
    s: Ledger, r: Reference, after: Ledger, content: (FileKey, string) -> set<SourceKey>,
    merchants: set<SourceKey>, categories: set<SourceKey>)
    requires Shows(s, r, content) && Marks(s, after, merchants, categories) && Repointed(s, after)
    requires merchants + categories <= s.rows.Keys
    ensures Shows(after, r.(overridden := r.overridden + (merchants + categories)), content)
  {
    var r' := r.(overridden := r.overridden + (merchants + categories));
    hide Claimed, Shows;
    ShowsTables(s, r, content);
    SameLatestSameClaims(r, r');
    forall k | k in after.rows ensures RowShows(after, r', k) {
      MarksAt(s, r, content, k);
      MarkShows(s, r, after, merchants, categories, k);
    }
    hide RowShows, Repointed;
    AssembleShows(after, r', content);
  }

  lemma MarkShows(
    s: Ledger, r: Reference, after: Ledger, merchants: set<SourceKey>, categories: set<SourceKey>, k: SourceKey)
    requires Marks(s, after, merchants, categories) && Repointed(s, after) && k in s.rows && RowShows(s, r, k)
    ensures k in after.rows && RowShows(after, r.(overridden := r.overridden + (merchants + categories)), k)
  {
    var r' := r.(overridden := r.overridden + (merchants + categories));
    SameLatestSameClaims(r, r');
    hide Claimed;
    assert s.rows[k].id in s.transactions ==> SamePlace(s.transactions[s.rows[k].id], after.transactions[s.rows[k].id]);
  }

  lemma MarksAt(s: Ledger, r: Reference, content: (FileKey, string) -> set<SourceKey>, k: SourceKey)
    requires Shows(s, r, content) && k in s.rows
    ensures RowShows(s, r, k)
  {
  }

  lemma SameLatestSameClaims(r: Reference, r': Reference)
    requires r'.latest == r.latest
    ensures Claimed(r') == Claimed(r)
  {
  }

  ghost predicate Run(
    states: seq<Ledger>, events: seq<Event>, n: Naming, sourceKeyOf: SourceRow -> SourceKey,
    content: (FileKey, string) -> set<SourceKey>)
  {
    && |states| == |events| + 1
    && states[0] == Ledger(None, map[], map[], {}, map[], NEW_TABLES)
    && forall i :: 0 <= i < |events| ==> Step(states[i], events[i], states[i + 1], n, sourceKeyOf, content)
  }

  const NOTHING := Reference(map[], {}, {}, {}, {})

  ghost function FollowAll(events: seq<Event>): Reference {
    if events == [] then NOTHING
    else Follow(FollowAll(events[..|events| - 1]), events[|events| - 1])
  }

  lemma StepFollows(
    s: Ledger, r: Reference, e: Event, after: Ledger, n: Naming, sourceKeyOf: SourceRow -> SourceKey,
    content: (FileKey, string) -> set<SourceKey>)
    requires ValidLedger(s) && HashedRows(s, sourceKeyOf) && KeyDetermines(sourceKeyOf) && Shows(s, r, content)
    requires Step(s, e, after, n, sourceKeyOf, content)
    ensures ValidLedger(after) && HashedRows(after, sourceKeyOf) && Shows(after, Follow(r, e), content)
  {
    hide ValidLedger, HashedRows, KeyDetermines, Shows, ImportStep, Follow;
    if e.Import? {
      if SameDigest(s, e.file) && !e.force {
        RepeatedContentIsNoOp(s, r, content, e.file, e.force, e.ids, e.pending);
      } else {
        var pending, c :| PendingMeans(s, pending, e.pending) && ImportStep(s, n, e.file, e.ids, pending, after, c);
        ImportKeepsLedgerValid(s, n, e.file, e.ids, pending, after, c, sourceKeyOf);
        ImportFollows(s, n, r, content, e.file, e.force, e.ids, pending, e.pending, after, c);
      }
    } else {
      UserStepKeepsLedgerValid(s, e, after, n, sourceKeyOf, content);
      UserStepFollows(s, r, e, after, n, sourceKeyOf, content);
    }
  }

  lemma NothingIsSound(n: Naming, sourceKeyOf: SourceRow -> SourceKey, content: (FileKey, string) -> set<SourceKey>)
    ensures
      var s := Ledger(None, map[], map[], {}, map[], NEW_TABLES);
      ValidLedger(s) && HashedRows(s, sourceKeyOf) && Shows(s, NOTHING, content)
  {
  }

  /** Every run of imports and user decisions keeps the ledger valid and equal to the reference. */
  lemma {:induction false} RunFollowsReference(
    states: seq<Ledger>, events: seq<Event>, n: Naming, sourceKeyOf: SourceRow -> SourceKey,
    content: (FileKey, string) -> set<SourceKey>)
    requires Run(states, events, n, sourceKeyOf, content) && KeyDetermines(sourceKeyOf)
    ensures
      var last := states[|events|];
      ValidLedger(last) && HashedRows(last, sourceKeyOf) && Shows(last, FollowAll(events), content)
    decreases |events|
  {
    hide ValidLedger, HashedRows, Shows, Step, KeyDetermines;
    if events == [] {
      NothingIsSound(n, sourceKeyOf, content);
    } else {
      var n0 := |events| - 1;
      assert Run(states[..n0 + 1], events[..n0], n, sourceKeyOf, content);
      RunFollowsReference(states[..n0 + 1], events[..n0], n, sourceKeyOf, content);
      StepFollows(states[n0], FollowAll(events[..n0]), events[n0], states[n0 + 1], n, sourceKeyOf, content);
    }
  }

  /** Event `i` is the latest import of its file. */
  ghost predicate LatestImport(events: seq<Event>, i: nat) {
    && i < |events| && events[i].Import?
    && forall j :: i < j < |events| && events[j].Import? ==> events[j].file.key != events[i].file.key
  }

  /** A run of complete imports: nothing skipped, no user decisions, no pending edits. */
  ghost predicate CompleteImports(events: seq<Event>) {
    forall i :: 0 <= i < |events| ==>
      events[i] == EditTables({}, {}) || (events[i].Import? && events[i].file.skipped == 0 && events[i].pending == {})
  }

  ghost predicate InLatestVersion(events: seq<Event>, f: FileKey, k: SourceKey) {
    exists i: nat :: LatestImport(events, i) && events[i].file.key == f && k in KeysOf(events[i].file.rows)
  }

  lemma InLatestStep(events: seq<Event>, e: Event, f: FileKey, k: SourceKey)
    requires e == EditTables({}, {}) || e.Import?
    ensures InLatestVersion(events + [e], f, k) <==>
      if e.Import? && e.file.key == f then k in KeysOf(e.file.rows) else InLatestVersion(events, f, k)
  {
    var all := events + [e];
    if e.Import? && e.file.key == f {
      assert LatestImport(all, |events|);
    } else if InLatestVersion(events, f, k) {
      var i: nat :| LatestImport(events, i) && events[i].file.key == f && k in KeysOf(events[i].file.rows);
      assert LatestImport(all, i);
    } else if InLatestVersion(all, f, k) {
      var i: nat :| LatestImport(all, i) && all[i].file.key == f && k in KeysOf(all[i].file.rows);
      assert i < |events| && all[i] == events[i];
      forall j | i < j < |events| && events[j].Import? ensures events[j].file.key != events[i].file.key {
        assert all[j] == events[j];
      }
      assert LatestImport(events, i);
    }
  }

  lemma {:induction false} CompleteImportsOnlyList(events: seq<Event>)
    requires CompleteImports(events)
    ensures
      var r := FollowAll(events);
      && r.kept == {} && r.deleted == {} && r.overridden == {} && r.hidden == {}
      && forall f, k :: f in r.latest && k in r.latest[f] <==> InLatestVersion(events, f, k)
    decreases |events|
  {
    if events != [] {
      var n := |events| - 1;
      var before, e := events[..n], events[n];
      assert events == before + [e];
      assert CompleteImports(before);
      CompleteImportsOnlyList(before);
      var r, r' := FollowAll(before), FollowAll(events);
      assert r' == Follow(r, e);
      if e.Import? {
        assert NewlyKept(r, e.file, e.pending) == {};
      }
      forall f, k ensures f in r'.latest && k in r'.latest[f] <==> InLatestVersion(events, f, k) {
        InLatestStep(before, e, f, k);
      }
    }
  }

  /** After any run of complete imports the live source rows are exactly the union of the latest
  version of every file. */
  lemma PresentIsUnionOfLatest(
    states: seq<Ledger>, events: seq<Event>, n: Naming, sourceKeyOf: SourceRow -> SourceKey,
    content: (FileKey, string) -> set<SourceKey>, k: SourceKey)
    requires Run(states, events, n, sourceKeyOf, content) && KeyDetermines(sourceKeyOf)
    requires CompleteImports(events)
    ensures k in PresentKeys(states[|events|]) <==> exists f :: InLatestVersion(events, f, k)
  {
    hide Run, KeyDetermines, CompleteImports, ValidLedger, InLatestVersion;
    RunFollowsReference(states, events, n, sourceKeyOf, content);
    CompleteImportsOnlyList(events);
    var r := FollowAll(events);
    if f :| InLatestVersion(events, f, k) {
      assert f in r.latest && k in r.latest[f];
      assert k in Claimed(r);
    }
  }
}
