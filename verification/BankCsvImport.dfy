/** Bank CSV import: one parsed file against the saved ledger.

The ledger remembers every source row it ever saw with a disposition, which file claims which row,
and the live transactions.  `BuildImportPlan` is the importer; `ImportStep` says what one import
does to the ledger. */
module BankCsvImport {
  import opened Wrappers
  import opened MergeChains
  import opened CsvEntities

  type FileKey = string
  type SourceKey = string

  datatype Disposition = Present | Superseded | Deleted

  datatype SourceRow = SourceRow(
    sourceKey: SourceKey, accountKey: string, date: int, amount: int, merchant: string,
    category: string, notes: string, metadata: map<string, string>, occurrence: nat)

  datatype SourceFile = SourceFile(
    key: FileKey, digest: string, account: string, accountKey: string,
    rows: seq<SourceRow>, skipped: nat, records: nat)

  datatype SavedRow = SavedRow(
    row: SourceRow, id: Id, merchantOverride: bool, categoryOverride: bool, disposition: Disposition)

  datatype SavedFile = SavedFile(accountKey: string, digest: string, imported: nat, duplicates: nat, skipped: nat)

  datatype Claim = Claim(file: FileKey, source: SourceKey)

  datatype Transaction = Transaction(
    id: Id, providerId: string, accountId: Id, merchantId: Id, categoryId: Id,
    date: int, amount: int, notes: string, metadata: map<string, string>, hidden: bool)

  datatype Settings = Settings(mapping: string, currency: string, scale: nat)

  datatype Ledger = Ledger(
    settings: Option<Settings>,
    files: map<FileKey, SavedFile>,
    rows: map<SourceKey, SavedRow>,
    claims: set<Claim>,
    transactions: map<Id, Transaction>,
    tables: Tables)

  datatype Counts = Counts(
    inserted: nat, duplicates: nat, updated: nat, superseded: nat, restored: nat, retained: nat,
    skipped: nat, discardedRedo: nat)

  datatype Proposed = Proposed(
    transactions: seq<Id>, accounts: seq<Id>, merchants: seq<Id>, categories: seq<Id>)

  /** What the edit journal contributes: the transactions its active edits touch, whether it replays,
  and what rebasing it onto the new committed state would remove. */
  datatype Journal = Journal(pending: set<Id>, replays: bool, rebase: Rebase)

  datatype Rebase = RebaseFails | Rebased(removedOperations: nat, removedTargets: nat, discardedRedo: nat)

  datatype ImportError =
    | MappingMismatch | RecordsDisagree | AccountDisagrees | InvalidSourceIdentity
    | TransactionsExhausted | EntityFailure(cause: EntityError)
    | ReplayFails | RebaseRefused | WouldRemoveEdit

  datatype Outcome = Unchanged | Planned(after: Ledger, counts: Counts) | Refused(error: ImportError)

  // Saved state -------------------------------------------------------------------------------

  /** The cross-record checks the store makes on saved CSV state. */
  ghost predicate ValidLedger(s: Ledger) {
    && ValidTables(s.tables)
    && (forall f :: f in s.files ==> s.files[f].accountKey in s.tables.accounts)
    && (forall k :: k in s.rows ==> ConsistentRow(s, k))
    && (forall k :: TransactionAlias(k) in s.tables.aliases ==> k in s.rows)
    && DistinctIds(s)
    && (forall c :: c in s.claims ==> ValidClaim(s, c))
    && (forall id :: id in s.transactions ==> Owned(s, id))
    && LiveReferences(s)
  }

  /** Every live transaction has an active merchant and an active category, and the fallback category is active. */
  ghost predicate LiveReferences(s: Ledger) {
    && Active(s.tables.categories, UNCATEGORIZED_ID)
    && forall id :: id in s.transactions ==> RefersToActive(s.tables, s.transactions[id])
  }

  ghost predicate RefersToActive(d: Tables, t: Transaction) {
    Active(d.merchants, t.merchantId) && Active(d.categories, t.categoryId)
  }

  ghost predicate ConsistentRow(s: Ledger, k: SourceKey)
    requires k in s.rows
  {
    && s.rows[k].row.sourceKey == k
    && s.rows[k].row.accountKey in s.tables.accounts
    && TransactionAlias(k) in s.tables.aliases && s.tables.aliases[TransactionAlias(k)] == s.rows[k].id
    && ValidRow(s, s.rows[k])
  }

  /** Distinct rows have distinct transaction identifiers. */
  ghost predicate DistinctIds(s: Ledger) {
    forall k, l :: k in s.rows && l in s.rows && k != l ==> s.rows[k].id != s.rows[l].id
  }

  ghost predicate ValidClaim(s: Ledger, c: Claim) {
    && c.file in s.files && c.source in s.rows
    && s.files[c.file].accountKey == s.rows[c.source].row.accountKey
    && s.rows[c.source].disposition != Superseded
  }

  ghost predicate Owned(s: Ledger, id: Id) {
    exists k :: k in s.rows && s.rows[k].id == id
  }

  ghost predicate ValidRow(s: Ledger, r: SavedRow)
    requires r.row.accountKey in s.tables.accounts
  {
    if r.disposition == Present then
      && r.id in s.transactions
      && var t := s.transactions[r.id];
      && t.id == r.id && t.providerId == r.row.sourceKey
      && t.accountId == s.tables.accounts[r.row.accountKey]
      && t.date == r.row.date && t.amount == r.row.amount
    else r.id !in s.transactions
  }

  /** A new profile has the two protected categories and nothing else. */
  const NEW_TABLES := Tables(
    map[], map[],
    map[UNCATEGORIZED_ID := Entity("Uncategorized", UNCATEGORIZED_KEY, false, None),
        SPLIT_ID := Entity("Split", "split", false, None)],
    map[])

  // What one import means ---------------------------------------------------------------------

  function KeysOf(rows: seq<SourceRow>): set<SourceKey> {
    set j | 0 <= j < |rows| :: rows[j].sourceKey
  }

  /** The listed row is new, was superseded, or belonged to this file before; an explicit deletion is final. */
  ghost predicate Updates(s: Ledger, file: FileKey, k: SourceKey) {
    || k !in s.rows
    || (s.rows[k].disposition != Deleted && (Claim(file, k) in s.claims || s.rows[k].disposition == Superseded))
  }

  /** The claims of the file after its import; a file with skipped records keeps its earlier claims. */
  function ClaimedBy(s: Ledger, file: SourceFile): set<SourceKey> {
    KeysOf(file.rows) + (if file.skipped == 0 then {} else EarlierClaims(s, file.key))
  }

  function EarlierClaims(s: Ledger, file: FileKey): set<SourceKey> {
    set c | c in s.claims && c.file == file :: c.source
  }

  function OtherClaims(s: Ledger, file: FileKey): set<SourceKey> {
    set c | c in s.claims && c.file != file :: c.source
  }

  function ClaimsAfter(s: Ledger, file: SourceFile): set<Claim> {
    (set c | c in s.claims && c.file != file.key) + (set k | k in ClaimedBy(s, file) :: Claim(file.key, k))
  }

  ghost predicate ClaimedElsewhere(s: Ledger, file: FileKey, k: SourceKey) {
    k in OtherClaims(s, file)
  }

  /** The file listed the row before, no longer does, and no other file does. */
  ghost predicate Dropped(s: Ledger, file: SourceFile, k: SourceKey) {
    && Claim(file.key, k) in s.claims && k !in ClaimedBy(s, file) && !ClaimedElsewhere(s, file.key, k)
    && k in s.rows && s.rows[k].disposition == Present
  }

  /** A user decision or a pending edit protects the row's transaction. */
  ghost predicate Shielded(s: Ledger, pending: set<Id>, k: SourceKey)
    requires k in s.rows
  {
    var r := s.rows[k];
    r.merchantOverride || r.categoryOverride || (r.id in s.transactions && s.transactions[r.id].hidden)
        || r.id in pending
  }

  ghost predicate Supersedes(s: Ledger, file: SourceFile, pending: set<Id>, k: SourceKey) {
    Dropped(s, file, k) && !Shielded(s, pending, k)
  }

  ghost function IdFor(s: Ledger, ids: seq<Id>, k: SourceKey, j: nat): Id
    requires k in s.rows || j < |ids|
  {
    if k in s.rows then s.rows[k].id else ids[j]
  }

  /** The saved form of listed row `j`. */
  ghost function SavedFor(s: Ledger, file: FileKey, ids: seq<Id>, src: SourceRow, j: nat): SavedRow
    requires src.sourceKey in s.rows || j < |ids|
  {
    var k := src.sourceKey;
    if !Updates(s, file, k) then s.rows[k]
    else if k in s.rows then s.rows[k].(row := src, disposition := Present)
    else SavedRow(src, ids[j], false, false, Present)
  }

  /** The transaction of an updated row: source notes and metadata always, source merchant and
  category unless the user overrode them on a live transaction, everything else kept. */
  ghost predicate Imported(s: Ledger, n: Naming, after: Tables, accountId: Id, src: SourceRow, id: Id, t: Transaction) {
    var k := src.sourceKey;
    var live := id in s.transactions;
    var base := if live then s.transactions[id]
      else Transaction(id, k, accountId, "", "", src.date, src.amount, "", map[], false);
    && t == base.(merchantId := t.merchantId, categoryId := t.categoryId, notes := src.notes, metadata := src.metadata)
    && (if live && k in s.rows && s.rows[k].merchantOverride then t.merchantId == base.merchantId
        else ResolvesMerchant(after, n, src.merchant, t.merchantId))
    && (if live && k in s.rows && s.rows[k].categoryOverride then t.categoryId == base.categoryId
        else ResolvesCategory(after, n, src.category, t.categoryId))
  }

  /** Rows are distinct, belong to the file's account and carry the key their facts hash to. */
  ghost predicate WellKeyed(file: SourceFile, sourceKeyOf: SourceRow -> SourceKey) {
    && (forall j :: 0 <= j < |file.rows| ==> WellKeyedRow(file, sourceKeyOf, j))
    && (forall i, j :: 0 <= i < j < |file.rows| ==> file.rows[i].sourceKey != file.rows[j].sourceKey)
  }

  ghost predicate WellKeyedRow(file: SourceFile, sourceKeyOf: SourceRow -> SourceKey, j: nat)
    requires j < |file.rows|
  {
    file.rows[j].accountKey == file.accountKey && file.rows[j].sourceKey == sourceKeyOf(file.rows[j])
  }

  ghost predicate RowsAfter(s: Ledger, file: SourceFile, ids: seq<Id>, pending: set<Id>,
    after: map<SourceKey, SavedRow>)
  {
    && after.Keys == s.rows.Keys + KeysOf(file.rows)
    && (forall j :: 0 <= j < |file.rows| ==>
          && (file.rows[j].sourceKey in s.rows || j < |ids|)
          && after[file.rows[j].sourceKey] == SavedFor(s, file.key, ids, file.rows[j], j))
    && (forall k :: k in s.rows && k !in KeysOf(file.rows) ==>
          after[k] == if Supersedes(s, file, pending, k) then s.rows[k].(disposition := Superseded) else s.rows[k])
  }

  /** Listed row `j`, when it updates anything, has its imported transaction. */
  ghost predicate RowImported(
    s: Ledger, n: Naming, file: SourceFile, ids: seq<Id>, tables: Tables, accountId: Id, txs: map<Id, Transaction>,
    j: nat)
    requires j < |file.rows|
  {
    var k := file.rows[j].sourceKey;
    Updates(s, file.key, k) ==>
      && (k in s.rows || j < |ids|)
      && IdFor(s, ids, k, j) in txs
      && Imported(s, n, tables, accountId, file.rows[j], IdFor(s, ids, k, j), txs[IdFor(s, ids, k, j)])
  }

  ghost predicate Kept(s: Ledger, txs: map<Id, Transaction>, id: Id) {
    (id in txs <==> id in s.transactions) && (id in txs ==> txs[id] == s.transactions[id])
  }

  /** The identifier belongs to one of the first `i` listed rows. */
  ghost predicate FromRow(s: Ledger, file: SourceFile, ids: seq<Id>, i: nat, id: Id)
    requires i <= |file.rows|
  {
    exists j :: 0 <= j < i && IsIdOf(s, file, ids, j, id)
  }

  ghost predicate IsIdOf(s: Ledger, file: SourceFile, ids: seq<Id>, j: nat, id: Id)
    requires j < |file.rows|
  {
    && Updates(s, file.key, file.rows[j].sourceKey)
    && (file.rows[j].sourceKey in s.rows || j < |ids|)
    && id == IdFor(s, ids, file.rows[j].sourceKey, j)
  }

  ghost predicate TransactionsAfter(
    s: Ledger, n: Naming, file: SourceFile, ids: seq<Id>, pending: set<Id>, tables: Tables, after: map<Id, Transaction>)
    requires file.accountKey in tables.accounts
  {
    && (forall j :: 0 <= j < |file.rows| ==>
          RowImported(s, n, file, ids, tables, tables.accounts[file.accountKey], after, j))
    && (forall k :: k in s.rows && !(k in KeysOf(file.rows) && Updates(s, file.key, k)) ==>
          if Supersedes(s, file, pending, k) then s.rows[k].id !in after else Kept(s, after, s.rows[k].id))
    && (forall id :: id in after && id !in s.transactions ==> FromRow(s, file, ids, |file.rows|, id))
  }

  /** Keys whose disposition changes from `a` to `b`. */
  ghost function Moved(before: map<SourceKey, SavedRow>, after: map<SourceKey, SavedRow>, a: Disposition,
    b: Disposition): set<SourceKey>
  {
    set k | k in before && k in after && before[k].disposition == a && after[k].disposition == b
  }

  /** Live transactions whose facts changed. */
  ghost function Changed(before: Ledger, after: map<Id, Transaction>): set<SourceKey> {
    set k | k in before.rows && before.rows[k].id in before.transactions && before.rows[k].id in after
            && after[before.rows[k].id] != before.transactions[before.rows[k].id]
  }

  ghost function Retained(s: Ledger, file: SourceFile, pending: set<Id>): set<SourceKey> {
    set k | k in s.rows && Dropped(s, file, k) && Shielded(s, pending, k)
  }

  /** Only tables that an import may extend were extended, with row aliases for the new rows. */
  ghost predicate TablesAfter(s: Ledger, file: SourceFile, ids: seq<Id>, after: Tables) {
    && ValidTables(after) && Grew(s.tables, after)
    && file.accountKey in after.accounts
    && (forall a :: a in after.accounts ==> a in s.tables.accounts || a == file.accountKey)
    && (forall k :: TransactionAlias(k) in after.aliases <==>
       TransactionAlias(k) in s.tables.aliases || k in KeysOf(file.rows) - s.rows.Keys)
    && (forall k :: TransactionAlias(k) in s.tables.aliases && k in s.rows ==>
          after.aliases[TransactionAlias(k)] == s.tables.aliases[TransactionAlias(k)])
    && (forall j :: 0 <= j < |file.rows| && file.rows[j].sourceKey !in s.rows ==>
          j < |ids| && after.aliases[TransactionAlias(file.rows[j].sourceKey)] == ids[j])
  }

  /** The user's merchant, or category, of a live transaction stays. */
  predicate KeepsMerchant(s: Ledger, k: SourceKey) {
    k in s.rows && s.rows[k].merchantOverride && s.rows[k].id in s.transactions
  }

  predicate KeepsCategory(s: Ledger, k: SourceKey) {
    k in s.rows && s.rows[k].categoryOverride && s.rows[k].id in s.transactions
  }

  /** The merchant labels that the first `i` listed rows resolve. */
  ghost function MerchantLabels(s: Ledger, file: SourceFile, i: nat): set<string>
    requires i <= |file.rows|
  {
    set j | 0 <= j < i && Updates(s, file.key, file.rows[j].sourceKey) && !KeepsMerchant(s, file.rows[j].sourceKey)
      :: file.rows[j].merchant
  }

  ghost function CategoryLabels(s: Ledger, file: SourceFile, i: nat): set<string>
    requires i <= |file.rows|
  {
    set j | 0 <= j < i && Updates(s, file.key, file.rows[j].sourceKey) && !KeepsCategory(s, file.rows[j].sourceKey)
      :: file.rows[j].category
  }

  ghost function MerchantLabelsAt(s: Ledger, file: SourceFile, i: nat): set<string>
    requires i < |file.rows|
  {
    var k := file.rows[i].sourceKey;
    if Updates(s, file.key, k) && !KeepsMerchant(s, k) then {file.rows[i].merchant} else {}
  }

  ghost function CategoryLabelsAt(s: Ledger, file: SourceFile, i: nat): set<string>
    requires i < |file.rows|
  {
    var k := file.rows[i].sourceKey;
    if Updates(s, file.key, k) && !KeepsCategory(s, k) then {file.rows[i].category} else {}
  }

  lemma LabelsGrow(s: Ledger, file: SourceFile, i: nat)
    requires i < |file.rows|
    ensures MerchantLabels(s, file, i + 1) == MerchantLabels(s, file, i) + MerchantLabelsAt(s, file, i)
    ensures CategoryLabels(s, file, i + 1) == CategoryLabels(s, file, i) + CategoryLabelsAt(s, file, i)
  {
    hide Updates, KeepsMerchant, KeepsCategory;
  }

  // The labels a row resolves, from what was found saved of it.
  lemma LabelsOfRow(s: Ledger, file: SourceFile, i: nat, saved: SavedRow, live: bool)
    requires i < |file.rows|
    requires file.rows[i].sourceKey in s.rows ==> saved == s.rows[file.rows[i].sourceKey]
    requires file.rows[i].sourceKey !in s.rows ==> !saved.merchantOverride && !saved.categoryOverride
    requires live <==> saved.id in s.transactions
    ensures Updates(s, file.key, file.rows[i].sourceKey) ==>
      && MerchantLabelsAt(s, file, i) == (if saved.merchantOverride && live then {} else {file.rows[i].merchant})
      && CategoryLabelsAt(s, file, i) == (if saved.categoryOverride && live then {} else {file.rows[i].category})
  {
    hide Updates;
  }

  lemma NoLabelsAt(s: Ledger, file: SourceFile, i: nat)
    requires i < |file.rows| && !Updates(s, file.key, file.rows[i].sourceKey)
    ensures MerchantLabelsAt(s, file, i) == {} && CategoryLabelsAt(s, file, i) == {}
  {
    hide Updates;
  }

  // The labels that were resolved, after tables that gained no merchants and no categories.
  lemma CreatedAfter(a: Tables, b: Tables, c: Tables, n: Naming, m: set<string>, k: set<string>)
    requires a.merchants == b.merchants && a.categories == b.categories && Grew(a, b) && Grew(b, c)
    requires EntitiesCreatedFor(b, c, n, m, k)
    ensures EntitiesCreatedFor(a, c, n, m, k)
  {
    NothingCreated(a, b, n);
    EntitiesCompose(a, b, c, n, {}, {}, m, k);
    assert {} + m == m && {} + k == k;
    hide EntitiesCreatedFor, Grew;
  }

  lemma NoLabels(s: Ledger, file: SourceFile)
    ensures MerchantLabels(s, file, 0) == {} && CategoryLabels(s, file, 0) == {}
  {
  }

  /** One completed import. */
  ghost predicate ImportStep(
    s: Ledger, n: Naming, file: SourceFile, ids: seq<Id>, pending: set<Id>, after: Ledger, c: Counts)
  {
    && TablesAfter(s, file, ids, after.tables)
    && EntitiesCreatedFor(s.tables, after.tables, n, MerchantLabels(s, file, |file.rows|),
                          CategoryLabels(s, file, |file.rows|))
    && RowsAfter(s, file, ids, pending, after.rows)
    && TransactionsAfter(s, n, file, ids, pending, after.tables, after.transactions)
    && after.claims == ClaimsAfter(s, file)
    && after.files == s.files[file.key := SavedFile(file.accountKey, file.digest, c.inserted, c.duplicates, c.skipped)]
    && (s.settings.Some? ==> after.settings == s.settings)
    && after.settings.Some?
    && c.skipped == file.skipped
    && c.inserted == |after.rows| - |s.rows|
    && c.inserted + c.duplicates == |file.rows|
    && c.restored == |Moved(s.rows, after.rows, Superseded, Present)|
    && c.superseded == |Moved(s.rows, after.rows, Present, Superseded)|
    && c.updated == |Changed(s, after.transactions)|
    && c.retained == |Retained(s, file, pending)|
  }

  ghost predicate FreshIds(s: Ledger, ids: seq<Id>) {
    && (forall i, k :: 0 <= i < |ids| && k in s.rows ==> ids[i] != s.rows[k].id)
    && (forall i :: 0 <= i < |ids| ==> ids[i] !in s.transactions)
    && (forall i, j :: 0 <= i < j < |ids| ==> ids[i] != ids[j])
  }

  /** The same file content was imported before, completely. */
  ghost predicate SameDigest(s: Ledger, file: SourceFile) {
    file.key in s.files && s.files[file.key].digest == file.digest && s.files[file.key].skipped == 0
  }

  ghost predicate SettingsDiffer(s: Ledger, mapping: Settings) {
    s.settings.Some? && s.settings.value != mapping
  }

  // The first pass, row by row ----------------------------------------------------------------

  /** The rows after the first `i` listed rows. */
  ghost predicate RowsAbsorbed(s: Ledger, file: SourceFile, ids: seq<Id>, i: nat, rows: map<SourceKey, SavedRow>)
    requires i <= |file.rows|
  {
    && rows.Keys == s.rows.Keys + KeysOf(file.rows[..i])
    && (forall j :: 0 <= j < i ==>
          && (file.rows[j].sourceKey in s.rows || j < |ids|)
          && rows[file.rows[j].sourceKey] == SavedFor(s, file.key, ids, file.rows[j], j))
    && (forall k :: k in s.rows && k !in KeysOf(file.rows[..i]) ==> rows[k] == s.rows[k])
  }

  ghost predicate TransactionsAbsorbed(
    s: Ledger, n: Naming, file: SourceFile, ids: seq<Id>, i: nat, tables: Tables, accountId: Id,
    txs: map<Id, Transaction>)
    requires i <= |file.rows|
  {
    && (forall j :: 0 <= j < i ==> RowImported(s, n, file, ids, tables, accountId, txs, j))
    && (forall k :: k in s.rows && !(k in KeysOf(file.rows[..i]) && Updates(s, file.key, k)) ==>
       Kept(s, txs, s.rows[k].id))
    && (forall id :: id in txs && id !in s.transactions ==> FromRow(s, file, ids, i, id))
  }

  lemma KeysOfPrefix(rows: seq<SourceRow>, i: nat)
    requires i < |rows|
    ensures KeysOf(rows[..i + 1]) == KeysOf(rows[..i]) + {rows[i].sourceKey}
  {
    assert rows[..i + 1] == rows[..i] + [rows[i]];
    forall k | k in KeysOf(rows[..i]) + {rows[i].sourceKey} ensures k in KeysOf(rows[..i + 1]) {
      if k in KeysOf(rows[..i]) {
        var j :| 0 <= j < i && rows[..i][j].sourceKey == k;
        assert rows[..i + 1][j].sourceKey == k;
      } else {
        assert rows[..i + 1][i].sourceKey == k;
      }
    }
    forall k | k in KeysOf(rows[..i + 1]) ensures k in KeysOf(rows[..i]) + {rows[i].sourceKey} {
      var j :| 0 <= j < i + 1 && rows[..i + 1][j].sourceKey == k;
      assert j < i ==> rows[..i][j].sourceKey == k;
    }
  }

  lemma KeyAt(rows: seq<SourceRow>, i: nat, j: nat)
    requires j < i <= |rows|
    ensures rows[j].sourceKey in KeysOf(rows[..i])
  {
    assert rows[..i][j] == rows[j];
  }

  // No other saved row, and no other listed row, uses the identifier of row `i`.
  lemma IdsDiffer(s: Ledger, file: SourceFile, ids: seq<Id>, i: nat)
    requires DistinctIds(s) && FreshIds(s, ids)
    requires i < |file.rows| && (file.rows[i].sourceKey in s.rows || i < |ids|)
    requires file.rows[i].sourceKey !in KeysOf(file.rows[..i])
    ensures forall k :: k in s.rows && k != file.rows[i].sourceKey ==>
      s.rows[k].id != IdFor(s, ids, file.rows[i].sourceKey, i)
    ensures !FromRow(s, file, ids, i, IdFor(s, ids, file.rows[i].sourceKey, i))
  {
    forall j | 0 <= j < i ensures !IsIdOf(s, file, ids, j, IdFor(s, ids, file.rows[i].sourceKey, i)) {
      KeyAt(file.rows, i, j);
    }
  }

  // A merchant or category resolved early in the pass stays resolved as the tables grow.
  lemma ImportedIsStable(s: Ledger, n: Naming, before: Tables, after: Tables, accountId: Id, src: SourceRow, id: Id,
    t: Transaction)
    requires ValidTables(before) && Grew(before, after) && Imported(s, n, before, accountId, src, id, t)
    ensures Imported(s, n, after, accountId, src, id, t)
  {
    ResolutionIsStable(before, after, n, src.merchant, t.merchantId);
    ResolutionIsStable(before, after, n, src.category, t.categoryId);
  }

  lemma FromRowGrows(s: Ledger, file: SourceFile, ids: seq<Id>, i: nat, id: Id)
    requires i < |file.rows|
    ensures FromRow(s, file, ids, i + 1, id) <==> FromRow(s, file, ids, i, id) || IsIdOf(s, file, ids, i, id)
  {
    if FromRow(s, file, ids, i, id) {
      var j :| 0 <= j < i && IsIdOf(s, file, ids, j, id);
      assert 0 <= j < i + 1;
    }
  }

  lemma AbsorbSkipped(
    s: Ledger, n: Naming, file: SourceFile, ids: seq<Id>, i: nat, tables: Tables, accountId: Id,
    txs: map<Id, Transaction>)
    requires i < |file.rows| && !Updates(s, file.key, file.rows[i].sourceKey)
    requires TransactionsAbsorbed(s, n, file, ids, i, tables, accountId, txs)
    ensures TransactionsAbsorbed(s, n, file, ids, i + 1, tables, accountId, txs)
  {
    KeysOfPrefix(file.rows, i);
    assert RowImported(s, n, file, ids, tables, accountId, txs, i);
    forall id | id in txs && id !in s.transactions ensures FromRow(s, file, ids, i + 1, id) {
      FromRowGrows(s, file, ids, i, id);
    }
    forall k | k in s.rows && !(k in KeysOf(file.rows[..i + 1]) && Updates(s, file.key, k))
        ensures Kept(s, txs, s.rows[k].id)
    {
      assert !(k in KeysOf(file.rows[..i]) && Updates(s, file.key, k));
    }
  }

  lemma AbsorbRow(s: Ledger, file: SourceFile, ids: seq<Id>, i: nat, rows: map<SourceKey, SavedRow>)
    requires i < |file.rows| && (file.rows[i].sourceKey in s.rows || i < |ids|)
    requires file.rows[i].sourceKey !in KeysOf(file.rows[..i])
    requires RowsAbsorbed(s, file, ids, i, rows)
    ensures RowsAbsorbed(s, file, ids, i + 1,
        rows[file.rows[i].sourceKey := SavedFor(s, file.key, ids, file.rows[i], i)])
  {
    KeysOfPrefix(file.rows, i);
    forall j | 0 <= j < i ensures file.rows[j].sourceKey != file.rows[i].sourceKey {
      KeyAt(file.rows, i, j);
    }
  }

  lemma RowStaysImported(
    s: Ledger, n: Naming, file: SourceFile, ids: seq<Id>, before: Tables, tables: Tables, accountId: Id,
    txs: map<Id, Transaction>, after: map<Id, Transaction>, j: nat)
    requires j < |file.rows| && RowImported(s, n, file, ids, before, accountId, txs, j)
    requires ValidTables(before) && Grew(before, tables)
    requires forall id :: IsIdOf(s, file, ids, j, id) && id in txs ==> id in after && after[id] == txs[id]
    ensures RowImported(s, n, file, ids, tables, accountId, after, j)
  {
    var k := file.rows[j].sourceKey;
    if Updates(s, file.key, k) {
      var id := IdFor(s, ids, k, j);
      assert IsIdOf(s, file, ids, j, id);
      ImportedIsStable(s, n, before, tables, accountId, file.rows[j], id, txs[id]);
    }
  }

  lemma AbsorbTransaction(
    s: Ledger, n: Naming, file: SourceFile, ids: seq<Id>, i: nat, before: Tables, tables: Tables, accountId: Id,
    txs: map<Id, Transaction>, id: Id, t: Transaction)
    requires DistinctIds(s) && FreshIds(s, ids)
    requires i < |file.rows| && IsIdOf(s, file, ids, i, id)
    requires file.rows[i].sourceKey !in KeysOf(file.rows[..i])
    requires ValidTables(before) && Grew(before, tables)
    requires TransactionsAbsorbed(s, n, file, ids, i, before, accountId, txs)
    requires Imported(s, n, tables, accountId, file.rows[i], id, t)
    ensures TransactionsAbsorbed(s, n, file, ids, i + 1, tables, accountId, txs[id := t])
  {
    KeysOfPrefix(file.rows, i);
    IdsDiffer(s, file, ids, i);
    var after := txs[id := t];
    forall j | 0 <= j < i + 1 ensures RowImported(s, n, file, ids, tables, accountId, after, j) {
      if j < i {
        RowStaysImported(s, n, file, ids, before, tables, accountId, txs, after, j);
      }
    }
    forall x | x in after && x !in s.transactions ensures FromRow(s, file, ids, i + 1, x) {
      FromRowGrows(s, file, ids, i, x);
    }
  }

  /** A row is present exactly when its transaction is live. */
  ghost predicate LiveIffPresent(s: Ledger) {
    forall k :: k in s.rows ==> (s.rows[k].id in s.transactions <==> s.rows[k].disposition == Present)
  }

  lemma MovedGrows(s: Ledger, rows: map<SourceKey, SavedRow>, k: SourceKey, saved: SavedRow)
    requires k in s.rows ==> k in rows && rows[k] == s.rows[k]
    requires saved.disposition == Present
    ensures
      Moved(s.rows, rows[k := saved], Superseded, Present) ==
      Moved(s.rows, rows, Superseded, Present) + (if k in s.rows
          && s.rows[k].disposition == Superseded then {k} else {})
  {
  }

  lemma ChangedGrows(s: Ledger, txs: map<Id, Transaction>, k: SourceKey, id: Id, t: Transaction)
    requires DistinctIds(s)
    requires if k in s.rows then s.rows[k].id == id && Kept(s, txs, id) else
               forall l :: l in s.rows ==> s.rows[l].id != id
    ensures
      Changed(s, txs[id := t]) ==
      Changed(s, txs) + (if k in s.rows && id in s.transactions && s.transactions[id] != t then {k} else {})
    ensures k !in Changed(s, txs)
  {
  }

  /** The entity tables after some of the listed rows: those rows have their aliases. */
  ghost predicate AliasesAbsorbed(s: Ledger, file: SourceFile, ids: seq<Id>, i: nat, start: Tables, now: Tables)
    requires i <= |file.rows|
  {
    && now.accounts == start.accounts
    && (forall k :: TransactionAlias(k) in now.aliases <==>
          TransactionAlias(k) in start.aliases || k in KeysOf(file.rows[..i]) - s.rows.Keys)
    && (forall k :: TransactionAlias(k) in start.aliases && k in s.rows ==>
          now.aliases[TransactionAlias(k)] == start.aliases[TransactionAlias(k)])
    && (forall j :: 0 <= j < i && file.rows[j].sourceKey !in s.rows ==>
          j < |ids| && now.aliases[TransactionAlias(file.rows[j].sourceKey)] == ids[j])
  }

  datatype Pass = Pass(
    rows: map<SourceKey, SavedRow>, transactions: map<Id, Transaction>,
    inserted: nat, duplicates: nat, updated: nat, restored: nat)

  ghost predicate PassDone(
    s: Ledger, n: Naming, file: SourceFile, ids: seq<Id>, i: nat, start: Tables, now: Tables, accountId: Id, p: Pass)
    requires i <= |file.rows|
  {
    && RowsAbsorbed(s, file, ids, i, p.rows)
    && TransactionsAbsorbed(s, n, file, ids, i, now, accountId, p.transactions)
    && AliasesAbsorbed(s, file, ids, i, start, now)
    && CountsRight(s, p, i)
  }

  ghost predicate CountsRight(s: Ledger, p: Pass, i: nat) {
    && p.inserted == |p.rows| - |s.rows|
    && p.inserted + p.duplicates == i
    && p.restored == |Moved(s.rows, p.rows, Superseded, Present)|
    && p.updated == |Changed(s, p.transactions)|
  }

  lemma AliasesAbsorb(s: Ledger, file: SourceFile, ids: seq<Id>, i: nat, start: Tables, now: Tables, later: Tables)
    requires i < |file.rows| && file.rows[i].sourceKey !in KeysOf(file.rows[..i])
    requires AliasesAbsorbed(s, file, ids, i, start, now)
    requires file.rows[i].sourceKey in s.rows ==> SameRowAliases(now, later)
    requires file.rows[i].sourceKey !in s.rows ==>
      i < |ids| && SameRowAliases(now.(aliases := now.aliases[TransactionAlias(file.rows[i].sourceKey) := ids[i]]),
          later)
    ensures AliasesAbsorbed(s, file, ids, i + 1, start, later)
  {
    KeysOfPrefix(file.rows, i);
    forall j | 0 <= j < i ensures file.rows[j].sourceKey != file.rows[i].sourceKey {
      KeyAt(file.rows, i, j);
    }
  }

  /** Why a row's entities are refused: a label without a collision key, a merchant merged into nothing,
  or no proposed identifier left. */
  ghost predicate Blames(n: Naming, source: SourceRow, d: Tables, merchantIds: nat, categoryIds: nat, e: EntityError) {
    match e
    case BadLabel => Unnameable(source.merchant, n.collisionKey) || Unnameable(source.category, n.collisionKey)
    case DeadAlias => DeadMerchantAlias(d, n, source.merchant)
    case Exhausted => merchantIds == 0 || categoryIds == 0
  }

  /** Rewrites one transaction from its source row, resolving the labels the user did not override. */
  method ImportRow(entities: Entities, source: SourceRow, keepMerchant: bool, keepCategory: bool, base: Transaction)
    returns (r: Result<Transaction, EntityError>)
    requires entities.Valid()
    modifies entities`merchants, entities`categories, entities`aliases, entities`merchantIds, entities`categoryIds,
             entities`merchantLabels, entities`categoryLabels
    ensures entities.Valid() && Grew(old(entities.View()), entities.View())
    ensures SameRowAliases(old(entities.View()), entities.View())
    ensures r.Failure? ==>
      Blames(entities.naming, source, old(entities.View()), |old(entities.merchantIds)|, |old(entities.categoryIds)|,
          r.error)
    ensures NoNewDeath(old(entities.View()), entities.View(), entities.naming)
    ensures |entities.merchantIds| >= |old(entities.merchantIds)| - 1
        && |entities.categoryIds| >= |old(entities.categoryIds)| - 1
    ensures r.Success? ==>
      EntitiesCreatedFor(old(entities.View()), entities.View(), entities.naming,
                         if keepMerchant then {} else {source.merchant},
                         if keepCategory then {} else {source.category})
    ensures r.Success? ==>
      && r.value == base.(merchantId := r.value.merchantId, categoryId := r.value.categoryId,
                          notes := source.notes, metadata := source.metadata)
      && (if keepMerchant then r.value.merchantId == base.merchantId
          else ResolvesMerchant(entities.View(), entities.naming, source.merchant, r.value.merchantId))
      && (if keepCategory then r.value.categoryId == base.categoryId
          else ResolvesCategory(entities.View(), entities.naming, source.category, r.value.categoryId))
  {
    hide Grew, SameRowAliases, NoNewDeath, ValidTables, ActiveKeys, Chosen, Unnameable, LeadsTo, AddsMerchant,
         AddsCategory, Unused;
    hide EntitiesCreatedFor, ResolvesMerchant, ResolvesCategory, UnknownMerchant, UnknownCategory, DeadMerchantAlias,
         ValidNaming;
    var transaction := base;
    ghost var start := entities.View();
    NothingDies(start, entities.naming);
    NothingCreated(start, start, entities.naming);
    if !keepMerchant {
      ghost var ids := entities.merchantIds;
      var merchant := entities.Merchant(source.merchant);
      MerchantCreated(start, entities.View(), entities.naming, source.merchant, ids);
      if entities.View() != start {
        AddingGrows(start, entities.View(), entities.naming, source.merchant, ids);
        AddingKillsNothing(start, entities.View(), entities.naming, source.merchant, ids);
      }
      if merchant.Failure? {
        return Failure(merchant.error);
      }
      transaction := transaction.(merchantId := merchant.value);
    }
    ghost var middle := entities.View();
    NothingDies(middle, entities.naming);
    ghost var created := if keepMerchant then {} else {source.merchant};
    if !keepCategory {
      ghost var ids := entities.categoryIds;
      var category := entities.Category(source.category);
      CategoryCreated(middle, entities.View(), entities.naming, source.category, ids);
      if entities.View() != middle {
        AddingGrows(middle, entities.View(), entities.naming, source.category, ids);
        AddingKillsNothing(middle, entities.View(), entities.naming, source.category, ids);
      }
      StepsCompose(start, middle, entities.View(), entities.naming);
      EntitiesCompose(start, middle, entities.View(), entities.naming, created, {}, {}, {source.category});
      assert created + {} == created && {} + {source.category} == {source.category};
      if category.Failure? {
        return Failure(category.error);
      }
      transaction := transaction.(categoryId := category.value);
    }
    ResolutionIsStable(middle, entities.View(), entities.naming, source.merchant, transaction.merchantId);
    r := Success(transaction.(notes := source.notes, metadata := source.metadata));
  }

  // One more row that updates nothing.
  lemma PassSkips(
    s: Ledger, n: Naming, file: SourceFile, ids: seq<Id>, i: nat, start: Tables, now: Tables, accountId: Id, p: Pass)
    requires i < |file.rows| && file.rows[i].sourceKey !in KeysOf(file.rows[..i])
    requires !Updates(s, file.key, file.rows[i].sourceKey)
    requires PassDone(s, n, file, ids, i, start, now, accountId, p)
    ensures PassDone(s, n, file, ids, i + 1, start, now, accountId, p.(duplicates := p.duplicates + 1))
  {
    var key := file.rows[i].sourceKey;
    AbsorbSkipped(s, n, file, ids, i, now, accountId, p.transactions);
    AbsorbRow(s, file, ids, i, p.rows);
    assert p.rows[key := s.rows[key]] == p.rows;
    AliasesAbsorb(s, file, ids, i, start, now, now);
  }

  ghost function Advance(s: Ledger, p: Pass, key: SourceKey, saved: SavedRow, t: Transaction): Pass {
    Pass(
      p.rows[key := saved], p.transactions[saved.id := t],
      p.inserted + (if key in s.rows then 0 else 1),
      p.duplicates + (if key in s.rows then 1 else 0),
      p.updated + (if key in s.rows && saved.id in s.transactions && s.transactions[saved.id] != t then 1 else 0),
      p.restored + (if key in s.rows && s.rows[key].disposition == Superseded then 1 else 0))
  }

  lemma PassStarts(s: Ledger, n: Naming, file: SourceFile, ids: seq<Id>, start: Tables, accountId: Id)
    requires forall k :: TransactionAlias(k) in start.aliases ==> k in s.rows
    ensures PassDone(s, n, file, ids, 0, start, start, accountId, Pass(s.rows, s.transactions, 0, 0, 0, 0))
  {
    assert Moved(s.rows, s.rows, Superseded, Present) == {};
    assert Changed(s, s.transactions) == {};
  }

  lemma ListedRowIsPristine(s: Ledger, file: SourceFile, ids: seq<Id>, i: nat, rows: map<SourceKey, SavedRow>)
    requires i < |file.rows| && file.rows[i].sourceKey !in KeysOf(file.rows[..i])
    requires RowsAbsorbed(s, file, ids, i, rows)
    ensures file.rows[i].sourceKey in rows <==> file.rows[i].sourceKey in s.rows
    ensures file.rows[i].sourceKey in s.rows ==> rows[file.rows[i].sourceKey] == s.rows[file.rows[i].sourceKey]
  {
  }

  lemma KeysBefore(file: SourceFile, i: nat)
    requires i < |file.rows| && file.rows[i].sourceKey !in KeysOf(file.rows[..i])
    ensures forall j :: 0 <= j < i ==> file.rows[j].sourceKey != file.rows[i].sourceKey
  {
    forall j | 0 <= j < i ensures file.rows[j].sourceKey != file.rows[i].sourceKey { KeyAt(file.rows, i, j); }
  }

  lemma NoKeys(rows: seq<SourceRow>)
    ensures KeysOf(rows[..0]) == {}
  {
  }

  lemma RepeatedKey(rows: seq<SourceRow>, i: nat)
    requires i < |rows| && rows[i].sourceKey in KeysOf(rows[..i])
    ensures exists j :: 0 <= j < i && rows[j].sourceKey == rows[i].sourceKey
  {
    var j :| 0 <= j < i && rows[..i][j].sourceKey == rows[i].sourceKey;
    assert rows[j].sourceKey == rows[i].sourceKey;
  }

  lemma RecordingGrows(d: Tables, key: string, id: Id)
    ensures Grew(d, d.(aliases := d.aliases[TransactionAlias(key) := id]))
  {
  }

  // Before its turn, a listed row and its transaction are as saved.
  lemma RowIsPristine(
    s: Ledger, n: Naming, file: SourceFile, ids: seq<Id>, i: nat, tables: Tables, accountId: Id,
    rows: map<SourceKey, SavedRow>, txs: map<Id, Transaction>, id: Id)
    requires DistinctIds(s) && FreshIds(s, ids)
    requires i < |file.rows| && file.rows[i].sourceKey !in KeysOf(file.rows[..i])
    requires IsIdOf(s, file, ids, i, id)
    requires RowsAbsorbed(s, file, ids, i, rows)
    requires TransactionsAbsorbed(s, n, file, ids, i, tables, accountId, txs)
    ensures Kept(s, txs, id)
    ensures file.rows[i].sourceKey in rows <==> file.rows[i].sourceKey in s.rows
    ensures file.rows[i].sourceKey in s.rows ==> rows[file.rows[i].sourceKey] == s.rows[file.rows[i].sourceKey]
    ensures forall l :: l in s.rows && l != file.rows[i].sourceKey ==> s.rows[l].id != id
  {
    hide Imported, RowImported;
    IdsDiffer(s, file, ids, i);
  }

  lemma CountsAdvance(s: Ledger, p: Pass, key: SourceKey, saved: SavedRow, t: Transaction, i: nat)
    requires DistinctIds(s) && saved.disposition == Present
    requires key in p.rows <==> key in s.rows
    requires key in s.rows ==> p.rows[key] == s.rows[key] && s.rows[key].id == saved.id
    requires forall l :: l in s.rows && l != key ==> s.rows[l].id != saved.id
    requires Kept(s, p.transactions, saved.id)
    requires CountsRight(s, p, i)
    ensures CountsRight(s, Advance(s, p, key, saved, t), i + 1)
  {
    MovedGrows(s, p.rows, key, saved);
    ChangedGrows(s, p.transactions, key, saved.id, t);
  }

  // One more row that is new, restored or refreshed.
  lemma PassAdvances(
    s: Ledger, n: Naming, file: SourceFile, ids: seq<Id>, i: nat, start: Tables, now: Tables, later: Tables,
    accountId: Id, p: Pass, id: Id, t: Transaction)
    requires DistinctIds(s) && FreshIds(s, ids)
    requires i < |file.rows| && file.rows[i].sourceKey !in KeysOf(file.rows[..i])
    requires IsIdOf(s, file, ids, i, id)
    requires PassDone(s, n, file, ids, i, start, now, accountId, p)
    requires ValidTables(now) && Grew(now, later)
    requires Imported(s, n, later, accountId, file.rows[i], id, t)
    requires AliasesAbsorbed(s, file, ids, i + 1, start, later)
    ensures PassDone(s, n, file, ids, i + 1, start, later, accountId,
                     Advance(s, p, file.rows[i].sourceKey, SavedFor(s, file.key, ids, file.rows[i], i), t))
  {
    hide Imported, RowImported, Grew, ValidTables, AliasesAbsorbed, RowsAbsorbed, TransactionsAbsorbed, CountsRight,
         DistinctIds, FreshIds;
    RowIsPristine(s, n, file, ids, i, now, accountId, p.rows, p.transactions, id);
    AbsorbRow(s, file, ids, i, p.rows);
    AbsorbTransaction(s, n, file, ids, i, now, later, accountId, p.transactions, id, t);
    CountsAdvance(s, p, file.rows[i].sourceKey, SavedFor(s, file.key, ids, file.rows[i], i), t, i);
  }

  // What `ImportRow` returns for a pristine row is its imported transaction.
  lemma RowBecomesImported(s: Ledger, n: Naming, after: Tables, accountId: Id, src: SourceRow, saved: SavedRow,
    base: Transaction, t: Transaction)
    requires src.sourceKey in s.rows ==> saved == s.rows[src.sourceKey]
    requires src.sourceKey !in s.rows ==> !saved.merchantOverride && !saved.categoryOverride
    requires
      base == if saved.id in s.transactions then s.transactions[saved.id]
              else Transaction(saved.id, src.sourceKey, accountId, "", "", src.date, src.amount, "", map[], false)
    requires t == base.(merchantId := t.merchantId, categoryId := t.categoryId, notes := src.notes,
        metadata := src.metadata)
    requires
      if saved.merchantOverride && saved.id in s.transactions then t.merchantId == base.merchantId
      else ResolvesMerchant(after, n, src.merchant, t.merchantId)
    requires
      if saved.categoryOverride && saved.id in s.transactions then t.categoryId == base.categoryId
      else ResolvesCategory(after, n, src.category, t.categoryId)
    ensures Imported(s, n, after, accountId, src, saved.id, t)
  {
  }

  // Recording a row's transaction leaves every merchant alias alone.
  lemma RecordingKillsNothing(now: Tables, recorded: Tables, later: Tables, n: Naming, key: string, id: Id,
    source: SourceRow)
    requires recorded == now || recorded == now.(aliases := now.aliases[TransactionAlias(key) := id])
    requires NoNewDeath(recorded, later, n)
    ensures NoNewDeath(now, later, n)
    ensures forall m, c, e :: Blames(n, source, recorded, m, c, e) ==> Blames(n, source, now, m, c, e)
  {
    hide Unnameable, LeadsTo;
    assert forall text :: DeadMerchantAlias(recorded, n, text) ==> DeadMerchantAlias(now, n, text);
    hide DeadMerchantAlias;
  }

  /** Why the entities of a file are refused: some row's label or dead merchant, or too few proposals. */
  ghost predicate BlamesFile(n: Naming, file: SourceFile, d: Tables, merchantIds: nat, categoryIds: nat,
    e: EntityError)
  {
    match e
    case BadLabel =>
      exists i :: 0 <= i < |file.rows|
                  && (Unnameable(file.rows[i].merchant, n.collisionKey)
                     || Unnameable(file.rows[i].category, n.collisionKey))
    case DeadAlias => exists i :: 0 <= i < |file.rows| && DeadMerchantAlias(d, n, file.rows[i].merchant)
    case Exhausted => merchantIds < |file.rows| || categoryIds < |file.rows|
  }

  lemma BlameTheFile(n: Naming, file: SourceFile, i: nat, d: Tables, now: Tables, m: nat, c: nat, mNow: nat, cNow: nat,
    e: EntityError)
    requires i < |file.rows| && NoNewDeath(d, now, n) && mNow >= m - i && cNow >= c - i
    requires Blames(n, file.rows[i], now, mNow, cNow, e)
    ensures BlamesFile(n, file, d, m, c, e)
  {
    hide Unnameable, DeadMerchantAlias;
  }

  /** One listed row of the first pass: match it with its saved row, allocate it if it is new, and
  rewrite its row and transaction if the file may update them. */
  method AbsorbRowAt(
    s: Ledger, file: SourceFile, ids: seq<Id>, i: nat, entities: Entities, accountId: Id, p: Pass, ghost start: Tables)
    returns (r: Result<Pass, ImportError>)
    requires DistinctIds(s) && FreshIds(s, ids) && LiveIffPresent(s)
    requires i < |file.rows| && file.rows[i].sourceKey !in KeysOf(file.rows[..i])
    requires entities.Valid() && Grew(start, entities.View())
    requires PassDone(s, entities.naming, file, ids, i, start, entities.View(), accountId, p)
    modifies entities`merchants, entities`categories, entities`aliases, entities`merchantIds, entities`categoryIds,
             entities`merchantLabels, entities`categoryLabels
    ensures entities.Valid() && Grew(start, entities.View())
    ensures r.Success? ==> PassDone(s, entities.naming, file, ids, i + 1, start, entities.View(), accountId, r.value)
    ensures r.Failure? ==> r.error.EntityFailure? || (r.error == TransactionsExhausted && |ids| < |file.rows|)
    ensures r.Failure? && r.error.EntityFailure? ==>
      Blames(entities.naming, file.rows[i], old(entities.View()), |old(entities.merchantIds)|,
          |old(entities.categoryIds)|, r.error.cause)
    ensures r.Success? ==>
      && Grew(old(entities.View()), entities.View())
      && EntitiesCreatedFor(old(entities.View()), entities.View(), entities.naming,
                            MerchantLabelsAt(s, file, i), CategoryLabelsAt(s, file, i))
    ensures NoNewDeath(old(entities.View()), entities.View(), entities.naming)
    ensures |entities.merchantIds| >= |old(entities.merchantIds)| - 1
        && |entities.categoryIds| >= |old(entities.categoryIds)| - 1
  {
    hide EntitiesCreatedFor, MerchantLabelsAt, CategoryLabelsAt, NoNewDeath, Blames, Unnameable, DeadMerchantAlias;
    hide RowsAbsorbed, TransactionsAbsorbed, CountsRight, AliasesAbsorbed, RowImported, ResolvesMerchant,
         ResolvesCategory, KeysOf;
    hide Moved, Changed, DistinctIds, FreshIds, ValidTables, Extends, Grew, ActiveKeys, Unused, SameRowAliases,
         Imported;
    var source := file.rows[i];
    var key := source.sourceKey;
    ghost var now := entities.View();
    assert ValidTables(now);
    hide Entities.Valid, ValidNaming;
    ListedRowIsPristine(s, file, ids, i, p.rows);
    GrewReflexive(now);
    NothingDies(now, entities.naming);
    var known := key in p.rows;
    if known && (p.rows[key].disposition == Deleted
                 || (Claim(file.key, key) !in s.claims && p.rows[key].disposition != Superseded)) {
      PassSkips(s, entities.naming, file, ids, i, start, now, accountId, p);
      NothingCreated(now, now, entities.naming);
      NoLabelsAt(s, file, i);
      return Success(p.(duplicates := p.duplicates + 1));
    }
    var saved: SavedRow;
    if known {
      saved := p.rows[key];
    } else {
      if i >= |ids| {
        return Failure(TransactionsExhausted);
      }
      saved := SavedRow(source, ids[i], false, false, Present);
      entities.RecordTransaction(key, ids[i]);
      RecordingGrows(now, key, ids[i]);
    }
    RowIsPristine(s, entities.naming, file, ids, i, now, accountId, p.rows, p.transactions, saved.id);
    ghost var recorded := entities.View();
    var live := saved.id in p.transactions;
    var base := if live then p.transactions[saved.id]
      else Transaction(saved.id, key, accountId, "", "", source.date, source.amount, "", map[], false);
    var imported := ImportRow(entities, source, saved.merchantOverride && live, saved.categoryOverride && live, base);
    GrewTransitive(now, recorded, entities.View());
    GrewTransitive(start, now, entities.View());
    RecordingKillsNothing(now, recorded, entities.View(), entities.naming, key, saved.id, source);
    if imported.Failure? {
      return Failure(EntityFailure(imported.error));
    }
    LabelsOfRow(s, file, i, saved, live);
    CreatedAfter(now, recorded, entities.View(), entities.naming, MerchantLabelsAt(s, file, i),
                 CategoryLabelsAt(s, file, i));
    AliasesAbsorb(s, file, ids, i, start, now, entities.View());
    RowBecomesImported(s, entities.naming, entities.View(), accountId, source, saved, base, imported.value);
    PassAdvances(s, entities.naming, file, ids, i, start, now, entities.View(), accountId, p, saved.id, imported.value);
    var restored := saved.disposition == Superseded;
    var changed := known && imported.value != base;
    r := Success(Pass(
      p.rows[key := saved.(row := source, disposition := Present)],
      p.transactions[saved.id := imported.value],
      if known then p.inserted else p.inserted + 1,
      if known then p.duplicates + 1 else p.duplicates,
      if !restored && changed then p.updated + 1 else p.updated,
      if restored then p.restored + 1 else p.restored));
  }

  /** The first pass over the listed rows. */
  method AbsorbRows(
    s: Ledger, file: SourceFile, ids: seq<Id>, entities: Entities, accountId: Id, sourceKeyOf: SourceRow -> SourceKey)
    returns (r: Result<Pass, ImportError>)
    requires DistinctIds(s) && FreshIds(s, ids) && LiveIffPresent(s)
    requires entities.Valid()
    requires forall k :: TransactionAlias(k) in entities.aliases ==> k in s.rows
    modifies entities`merchants, entities`categories, entities`aliases, entities`merchantIds, entities`categoryIds,
             entities`merchantLabels, entities`categoryLabels
    ensures entities.Valid() && Grew(old(entities.View()), entities.View())
    ensures r.Success? ==>
      && WellKeyed(file, sourceKeyOf)
      && PassDone(s, entities.naming, file, ids, |file.rows|, old(entities.View()), entities.View(), accountId, r.value)
    ensures r.Success? ==>
      EntitiesCreatedFor(old(entities.View()), entities.View(), entities.naming, MerchantLabels(s, file, |file.rows|),
                         CategoryLabels(s, file, |file.rows|))
    ensures r == Failure(InvalidSourceIdentity) ==> !WellKeyed(file, sourceKeyOf)
    ensures r.Failure? ==>
      r.error == InvalidSourceIdentity || r.error.EntityFailure?
          || (r.error == TransactionsExhausted && |ids| < |file.rows|)
    ensures r.Failure? && r.error.EntityFailure? ==>
      BlamesFile(entities.naming, file, old(entities.View()), |old(entities.merchantIds)|, |old(entities.categoryIds)|,
          r.error.cause)
  {
    hide EntitiesCreatedFor, MerchantLabels, CategoryLabels, MerchantLabelsAt, CategoryLabelsAt;
    hide NoNewDeath, Blames, BlamesFile, SameRowAliases;
    hide PassDone, KeysOf, DistinctIds, FreshIds, LiveIffPresent, Grew, Entities.Valid;
    ghost var start := entities.View();
    var pass := Pass(s.rows, s.transactions, 0, 0, 0, 0);
    var incoming: set<SourceKey> := {};
    PassStarts(s, entities.naming, file, ids, start, accountId);
    NoKeys(file.rows);
    GrewReflexive(start);
    NothingDies(start, entities.naming);
    NothingCreated(start, start, entities.naming);
    NoLabels(s, file);
    var i := 0;
    while i < |file.rows|
      invariant 0 <= i <= |file.rows|
      invariant NoNewDeath(start, entities.View(), entities.naming)
      invariant EntitiesCreatedFor(start, entities.View(), entities.naming, MerchantLabels(s, file, i),
                                   CategoryLabels(s, file, i))
      invariant |entities.merchantIds| >= |old(entities.merchantIds)| - i
          && |entities.categoryIds| >= |old(entities.categoryIds)| - i
      invariant entities.Valid() && Grew(start, entities.View())
      invariant incoming == KeysOf(file.rows[..i])
      invariant forall j :: 0 <= j < i ==> WellKeyedRow(file, sourceKeyOf, j)
      invariant forall l, j :: 0 <= l < j < i ==> file.rows[l].sourceKey != file.rows[j].sourceKey
      invariant PassDone(s, entities.naming, file, ids, i, start, entities.View(), accountId, pass)
    {
      var source := file.rows[i];
      if source.sourceKey in incoming || source.accountKey != file.accountKey
          || source.sourceKey != sourceKeyOf(source)
      {
        if source.sourceKey in incoming {
          RepeatedKey(file.rows, i);
        } else {
          assert !WellKeyedRow(file, sourceKeyOf, i);
        }
        return Failure(InvalidSourceIdentity);
      }
      KeysOfPrefix(file.rows, i);
      KeysBefore(file, i);
      incoming := incoming + {source.sourceKey};
      ghost var now, merchantIds, categoryIds := entities.View(), |entities.merchantIds|, |entities.categoryIds|;
      var step := AbsorbRowAt(s, file, ids, i, entities, accountId, pass, start);
      DeathsCompose(start, now, entities.View(), entities.naming);
      if step.Failure? {
        if step.error.EntityFailure? {
          BlameTheFile(entities.naming, file, i, start, now, |old(entities.merchantIds)|, |old(entities.categoryIds)|,
                       merchantIds, categoryIds, step.error.cause);
        }
        return step;
      }
      LabelsGrow(s, file, i);
      EntitiesCompose(start, now, entities.View(), entities.naming, MerchantLabels(s, file, i),
                      CategoryLabels(s, file, i), MerchantLabelsAt(s, file, i), CategoryLabelsAt(s, file, i));
      pass := step.value;
      i := i + 1;
    }
    r := Success(pass);
  }

  // The second pass: rows the file stopped listing --------------------------------------------

  ghost function SweptKeys(s: Ledger, file: SourceFile, pending: set<Id>, done: set<SourceKey>): set<SourceKey> {
    set k | k in done && Supersedes(s, file, pending, k)
  }

  ghost function KeptKeys(s: Ledger, file: SourceFile, pending: set<Id>, done: set<SourceKey>): set<SourceKey> {
    set k | k in done && k in s.rows && Dropped(s, file, k) && Shielded(s, pending, k)
  }

  ghost function IdsOf(s: Ledger, keys: set<SourceKey>): set<Id> {
    set k | k in keys && k in s.rows :: s.rows[k].id
  }

  ghost predicate Swept(
    s: Ledger, swept: set<SourceKey>, p: Pass, rows: map<SourceKey, SavedRow>, txs: map<Id, Transaction>)
  {
    && rows.Keys == p.rows.Keys
    && (forall k :: k in p.rows ==>
          rows[k] == if k in swept then p.rows[k].(disposition := Superseded) else p.rows[k])
    && txs == p.transactions - IdsOf(s, swept)
  }

  ghost predicate KnownClaims(s: Ledger) {
    forall c :: c in s.claims ==> c.source in s.rows
  }

  // Rows this file stopped listing still look as they did before the import.
  lemma DroppedIsPristine(s: Ledger, n: Naming, file: SourceFile, ids: seq<Id>, start: Tables, now: Tables,
    accountId: Id, p: Pass, k: SourceKey)
    requires PassDone(s, n, file, ids, |file.rows|, start, now, accountId, p)
    requires k in s.rows && k !in KeysOf(file.rows)
    ensures k in p.rows && p.rows[k] == s.rows[k] && Kept(s, p.transactions, s.rows[k].id)
  {
    hide RowImported, AliasesAbsorbed, CountsRight;
    assert file.rows[..|file.rows|] == file.rows;
  }

  lemma SweepOne(
    s: Ledger, p: Pass, swept: set<SourceKey>, k: SourceKey, rows: map<SourceKey, SavedRow>, txs: map<Id, Transaction>)
    requires Swept(s, swept, p, rows, txs)
    requires k in s.rows && k in p.rows && p.rows[k] == s.rows[k]
    ensures Swept(s, swept + {k}, p, rows[k := s.rows[k].(disposition := Superseded)], txs - {s.rows[k].id})
  {
    assert IdsOf(s, swept + {k}) == IdsOf(s, swept) + {s.rows[k].id};
  }

  lemma NothingSwept(s: Ledger, file: SourceFile, pending: set<Id>, p: Pass)
    ensures SweptKeys(s, file, pending, {}) == {} && KeptKeys(s, file, pending, {}) == {}
    ensures Swept(s, {}, p, p.rows, p.transactions)
  {
    assert IdsOf(s, {}) == {};
  }

  // What the second pass reads for a claim it has not visited yet.
  lemma SweepLook(
    s: Ledger, n: Naming, file: SourceFile, ids: seq<Id>, start: Tables, now: Tables, accountId: Id, p: Pass,
    swept: set<SourceKey>, rows: map<SourceKey, SavedRow>, txs: map<Id, Transaction>, k: SourceKey, pending: set<Id>)
    requires DistinctIds(s) && LiveIffPresent(s)
    requires PassDone(s, n, file, ids, |file.rows|, start, now, accountId, p)
    requires Swept(s, swept, p, rows, txs)
    requires k in s.rows && k in EarlierClaims(s, file.key) && k !in ClaimedBy(s, file)
        && k !in OtherClaims(s, file.key)
    requires k !in swept
    ensures k in p.rows && p.rows[k] == s.rows[k] && k in rows && rows[k] == s.rows[k]
    ensures Dropped(s, file, k) <==> s.rows[k].disposition == Present
    ensures s.rows[k].disposition == Present ==>
      && s.rows[k].id in txs
      && (Shielded(s, pending, k) <==>
          s.rows[k].merchantOverride || s.rows[k].categoryOverride || txs[s.rows[k].id].hidden
              || s.rows[k].id in pending)
  {
    hide PassDone;
    DroppedIsPristine(s, n, file, ids, start, now, accountId, p, k);
    SweptIdsKeep(s, swept, k);
  }

  /** The second pass: supersede what the file dropped, unless another file lists it or the user
  changed it.  The order in which the claims are visited does not matter. */
  method SweepDropped(
    s: Ledger, n: Naming, file: SourceFile, ids: seq<Id>, pending: set<Id>, p: Pass,
    ghost start: Tables, ghost now: Tables, ghost accountId: Id)
    returns (rows: map<SourceKey, SavedRow>, txs: map<Id, Transaction>, superseded: nat, retained: nat)
    requires DistinctIds(s) && LiveIffPresent(s) && KnownClaims(s)
    requires PassDone(s, n, file, ids, |file.rows|, start, now, accountId, p)
    ensures Swept(s, SweptKeys(s, file, pending, EarlierClaims(s, file.key)), p, rows, txs)
    ensures superseded == |SweptKeys(s, file, pending, EarlierClaims(s, file.key))|
    ensures retained == |KeptKeys(s, file, pending, EarlierClaims(s, file.key))|
  {
    hide PassDone, Swept, SweptKeys, KeptKeys, DistinctIds, LiveIffPresent, KnownClaims, KeysOf, EarlierClaims,
         OtherClaims, ClaimedBy, Dropped, Shielded;
    var prior, other, incoming := EarlierClaims(s, file.key), OtherClaims(s, file.key), ClaimedBy(s, file);
    EarlierClaimsKnown(s, file);
    rows, txs, superseded, retained := p.rows, p.transactions, 0, 0;
    var todo := prior;
    NothingSwept(s, file, pending, p);
    ghost var done: set<SourceKey> := {};
    while todo != {}
      invariant forall k :: k in prior <==> k in done || k in todo
      invariant forall k :: k in todo ==> k !in done
      invariant Swept(s, SweptKeys(s, file, pending, done), p, rows, txs)
      invariant superseded == |SweptKeys(s, file, pending, done)|
      invariant retained == |KeptKeys(s, file, pending, done)|
      decreases todo
    {
      var key :| key in todo;
      todo := todo - {key};
      ghost var swept := SweptKeys(s, file, pending, done);
      SweptKeysGrow(s, file, pending, done, key);
      done := done + {key};
      if key in incoming || key in other {
        ListedIsNotDropped(s, file, key);
        continue;
      }
      SweepLook(s, n, file, ids, start, now, accountId, p, swept, rows, txs, key, pending);
      var saved := rows[key];
      if saved.disposition != Present {
        continue;
      }
      var transaction := txs[saved.id];
      if saved.merchantOverride || saved.categoryOverride || transaction.hidden || saved.id in pending {
        retained := retained + 1;
        continue;
      }
      SweepOne(s, p, swept, key, rows, txs);
      txs := txs - {saved.id};
      rows := rows[key := saved.(disposition := Superseded)];
      superseded := superseded + 1;
    }
    assert done == prior;
  }

  lemma ListedIsNotDropped(s: Ledger, file: SourceFile, k: SourceKey)
    requires k in ClaimedBy(s, file) || k in OtherClaims(s, file.key)
    ensures !Dropped(s, file, k)
  {
  }

  lemma EarlierClaimsKnown(s: Ledger, file: SourceFile)
    requires KnownClaims(s)
    ensures forall k :: k in EarlierClaims(s, file.key) <==> Claim(file.key, k) in s.claims
    ensures forall k :: k in EarlierClaims(s, file.key) ==> k in s.rows
    ensures KeysOf(file.rows) <= ClaimedBy(s, file)
  {
  }

  lemma SweptKeysGrow(s: Ledger, file: SourceFile, pending: set<Id>, done: set<SourceKey>, k: SourceKey)
    requires k !in done
    ensures SweptKeys(s, file, pending, done + {k}) ==
            SweptKeys(s, file, pending, done) + (if Supersedes(s, file, pending, k) then {k} else {})
    ensures KeptKeys(s, file, pending, done + {k}) ==
            KeptKeys(s, file, pending, done) + (if k in s.rows && Dropped(s, file, k)
                && Shielded(s, pending, k) then {k} else {})
    ensures k !in SweptKeys(s, file, pending, done) && k !in KeptKeys(s, file, pending, done)
  {
  }

  lemma SweptIdsKeep(s: Ledger, swept: set<SourceKey>, k: SourceKey)
    requires DistinctIds(s) && k in s.rows && k !in swept
    ensures s.rows[k].id !in IdsOf(s, swept)
  {
  }

  // The whole import ---------------------------------------------------------------------------

  lemma SupersedesFacts(s: Ledger, file: SourceFile, pending: set<Id>)
    ensures forall k :: k in SweptKeys(s, file, pending, EarlierClaims(s, file.key)) <==>
        Supersedes(s, file, pending, k)
    ensures forall k :: Supersedes(s, file, pending, k) ==>
        k in s.rows && k !in KeysOf(file.rows) && s.rows[k].disposition == Present
    ensures KeptKeys(s, file, pending, EarlierClaims(s, file.key)) == Retained(s, file, pending)
  {
  }

  lemma PlanRows(
    s: Ledger, file: SourceFile, ids: seq<Id>, pending: set<Id>, p: Pass, rows: map<SourceKey, SavedRow>,
    txs: map<Id, Transaction>)
    requires RowsAbsorbed(s, file, ids, |file.rows|, p.rows)
    requires Swept(s, SweptKeys(s, file, pending, EarlierClaims(s, file.key)), p, rows, txs)
    ensures RowsAfter(s, file, ids, pending, rows)
  {
    SupersedesFacts(s, file, pending);
    hide SweptKeys, Supersedes, EarlierClaims, SavedFor, IdsOf;
    assert file.rows[..|file.rows|] == file.rows;
    forall j | 0 <= j < |file.rows| ensures file.rows[j].sourceKey in KeysOf(file.rows) {
      KeyAt(file.rows, |file.rows|, j);
    }
  }

  lemma PlanTransactions(
    s: Ledger, n: Naming, file: SourceFile, ids: seq<Id>, pending: set<Id>, now: Tables, p: Pass,
    rows: map<SourceKey, SavedRow>, txs: map<Id, Transaction>)
    requires DistinctIds(s) && FreshIds(s, ids) && file.accountKey in now.accounts
    requires TransactionsAbsorbed(s, n, file, ids, |file.rows|, now, now.accounts[file.accountKey], p.transactions)
    requires Swept(s, SweptKeys(s, file, pending, EarlierClaims(s, file.key)), p, rows, txs)
    ensures TransactionsAfter(s, n, file, ids, pending, now, txs)
  {
    SupersedesFacts(s, file, pending);
    hide Imported, Updates, Supersedes, EarlierClaims, SweptKeys, FromRow;
    assert file.rows[..|file.rows|] == file.rows;
    var swept := SweptKeys(s, file, pending, EarlierClaims(s, file.key));
    forall j | 0 <= j < |file.rows| ensures RowImported(s, n, file, ids, now, now.accounts[file.accountKey], txs, j) {
      assert RowImported(s, n, file, ids, now, now.accounts[file.accountKey], p.transactions, j);
      KeyAt(file.rows, |file.rows|, j);
      if file.rows[j].sourceKey in s.rows || j < |ids| {
        assert IdFor(s, ids, file.rows[j].sourceKey, j) !in IdsOf(s, swept);
      }
    }
    forall k | k in s.rows && !(k in KeysOf(file.rows) && Updates(s, file.key, k))
      ensures if Supersedes(s, file, pending, k) then s.rows[k].id !in txs else Kept(s, txs, s.rows[k].id)
    {
      assert Kept(s, p.transactions, s.rows[k].id);
      if Supersedes(s, file, pending, k) {
        assert k in swept;
      } else {
        SweptIdsKeep(s, swept, k);
      }
    }
  }

  lemma PlanCounts(
    s: Ledger, n: Naming, file: SourceFile, ids: seq<Id>, pending: set<Id>, start: Tables, now: Tables, accountId: Id,
    p: Pass,
    rows: map<SourceKey, SavedRow>, txs: map<Id, Transaction>)
    requires DistinctIds(s) && LiveIffPresent(s)
    requires PassDone(s, n, file, ids, |file.rows|, start, now, accountId, p)
    requires Swept(s, SweptKeys(s, file, pending, EarlierClaims(s, file.key)), p, rows, txs)
    ensures |rows| == |p.rows|
    ensures Moved(s.rows, rows, Superseded, Present) == Moved(s.rows, p.rows, Superseded, Present)
    ensures Moved(s.rows, rows, Present, Superseded) == SweptKeys(s, file, pending, EarlierClaims(s, file.key))
    ensures Changed(s, txs) == Changed(s, p.transactions)
  {
    hide PassDone, SweptKeys, Supersedes, EarlierClaims, KeysOf, Swept, Moved, Changed, LiveIffPresent, DistinctIds;
    var swept := SweptKeys(s, file, pending, EarlierClaims(s, file.key));
    SupersedesFacts(s, file, pending);
    forall k | k in swept ensures k in s.rows && k in p.rows && p.rows[k] == s.rows[k]
        && Kept(s, p.transactions, s.rows[k].id)
    {
      DroppedIsPristine(s, n, file, ids, start, now, accountId, p, k);
    }
    forall k | k in s.rows ensures k in p.rows
        && (p.rows[k].disposition == Superseded ==> s.rows[k].disposition == Superseded)
    {
      PassOnlyRevives(s, n, file, ids, start, now, accountId, p, k);
    }
    SweepMoves(s, swept, p, rows, txs);
    SweepChanges(s, swept, p, rows, txs);
  }

  lemma SweepMoves(s: Ledger, swept: set<SourceKey>, p: Pass, rows: map<SourceKey, SavedRow>, txs: map<Id, Transaction>)
    requires Swept(s, swept, p, rows, txs)
    requires forall k :: k in swept ==>
        k in s.rows && k in p.rows && p.rows[k] == s.rows[k] && s.rows[k].disposition == Present
    requires forall k :: k in s.rows ==>
        k in p.rows && (p.rows[k].disposition == Superseded ==> s.rows[k].disposition == Superseded)
    ensures |rows| == |p.rows|
    ensures Moved(s.rows, rows, Superseded, Present) == Moved(s.rows, p.rows, Superseded, Present)
    ensures Moved(s.rows, rows, Present, Superseded) == swept
  {
    hide IdsOf;
    assert |rows| == |rows.Keys| && |p.rows| == |p.rows.Keys|;
  }

  lemma SweepChanges(s: Ledger, swept: set<SourceKey>, p: Pass, rows: map<SourceKey, SavedRow>,
    txs: map<Id, Transaction>)
    requires DistinctIds(s) && Swept(s, swept, p, rows, txs)
    requires forall k :: k in swept ==> k in s.rows && Kept(s, p.transactions, s.rows[k].id)
    ensures Changed(s, txs) == Changed(s, p.transactions)
  {
    forall k | k in s.rows
      ensures k in Changed(s, txs) <==> k in Changed(s, p.transactions)
    {
      if k in swept {
        assert s.rows[k].id in IdsOf(s, swept);
      } else {
        SweptIdsKeep(s, swept, k);
      }
    }
  }

  lemma PassOnlyRevives(s: Ledger, n: Naming, file: SourceFile, ids: seq<Id>, start: Tables, now: Tables, accountId: Id,
    p: Pass, k: SourceKey)
    requires PassDone(s, n, file, ids, |file.rows|, start, now, accountId, p)
    requires k in s.rows
    ensures k in p.rows && (p.rows[k].disposition == Superseded ==> s.rows[k].disposition == Superseded)
  {
    hide RowImported, AliasesAbsorbed, CountsRight, TransactionsAbsorbed;
    assert file.rows[..|file.rows|] == file.rows;
    if k in KeysOf(file.rows) {
      var j :| 0 <= j < |file.rows| && file.rows[j].sourceKey == k;
      assert p.rows[k] == SavedFor(s, file.key, ids, file.rows[j], j);
    }
  }

  /** Identifiers the store proposes are new. */
  ghost predicate ValidProposal(s: Ledger, p: Proposed) {
    && FreshIds(s, p.transactions)
    && Unused(p.merchants, s.tables.merchants)
    && Unused(p.categories, s.tables.categories)
  }

  lemma ValidLedgerFacts(s: Ledger)
    requires ValidLedger(s)
    ensures DistinctIds(s) && LiveIffPresent(s) && KnownClaims(s) && ValidTables(s.tables)
    ensures forall k :: TransactionAlias(k) in s.tables.aliases ==> k in s.rows
  {
    hide LiveReferences;
  }

  lemma TablesFollow(s: Ledger, file: SourceFile, ids: seq<Id>, start: Tables, now: Tables)
    requires ValidTables(now) && Grew(s.tables, start) && Grew(start, now) && file.accountKey in start.accounts
    requires AliasesAbsorbed(s, file, ids, |file.rows|, start, now)
    requires
      || start == s.tables
      || start == s.tables.(accounts := start.accounts,
         aliases := s.tables.aliases[AccountAlias(file.accountKey) := start.accounts[file.accountKey]])
    requires forall a :: a in start.accounts ==> a in s.tables.accounts || a == file.accountKey
    ensures TablesAfter(s, file, ids, now)
  {
    assert file.rows[..|file.rows|] == file.rows;
    GrewTransitive(s.tables, start, now);
  }

  /** Why an import may be refused. */
  ghost predicate Blamed(
    s: Ledger, proposed: Proposed, file: SourceFile, mapping: Settings, n: Naming, sourceKeyOf: SourceRow -> SourceKey,
    journal: Journal, e: ImportError)
  {
    match e
    case MappingMismatch => SettingsDiffer(s, mapping)
    case RecordsDisagree => file.records != |file.rows| + file.skipped
    case AccountDisagrees => n.collisionKey(file.account) != Some(file.accountKey)
    case InvalidSourceIdentity => !WellKeyed(file, sourceKeyOf)
    case TransactionsExhausted => |proposed.transactions| < |file.rows|
    case EntityFailure(cause) =>
      || (cause == Exhausted && proposed.accounts == [] && file.accountKey !in s.tables.accounts)
      || BlamesFile(n, file, s.tables, |proposed.merchants|, |proposed.categories|, cause)
    case ReplayFails => !journal.replays
    case RebaseRefused => journal.rebase.RebaseFails?
    case WouldRemoveEdit =>
      journal.rebase.Rebased? && (journal.rebase.removedOperations != 0 || journal.rebase.removedTargets != 0)
  }

  lemma Reasons(
    s: Ledger, proposed: Proposed, file: SourceFile, mapping: Settings, n: Naming, sourceKeyOf: SourceRow -> SourceKey,
    journal: Journal)
    ensures SettingsDiffer(s, mapping) ==> Blamed(s, proposed, file, mapping, n, sourceKeyOf, journal, MappingMismatch)
    ensures file.records != |file.rows| + file.skipped ==>
        Blamed(s, proposed, file, mapping, n, sourceKeyOf, journal, RecordsDisagree)
    ensures n.collisionKey(file.account) != Some(file.accountKey) ==>
              Blamed(s, proposed, file, mapping, n, sourceKeyOf, journal, AccountDisagrees)
    ensures proposed.accounts == [] && file.accountKey !in s.tables.accounts ==>
              Blamed(s, proposed, file, mapping, n, sourceKeyOf, journal, EntityFailure(Exhausted))
    ensures !journal.replays ==> Blamed(s, proposed, file, mapping, n, sourceKeyOf, journal, ReplayFails)
    ensures journal.rebase.RebaseFails? ==> Blamed(s, proposed, file, mapping, n, sourceKeyOf, journal, RebaseRefused)
    ensures journal.rebase.Rebased? && (journal.rebase.removedOperations != 0 || journal.rebase.removedTargets != 0) ==>
              Blamed(s, proposed, file, mapping, n, sourceKeyOf, journal, WouldRemoveEdit)
  {
    hide BlamesFile, SettingsDiffer, WellKeyed;
  }

  lemma PassReasons(
    s: Ledger, proposed: Proposed, file: SourceFile, mapping: Settings, n: Naming, sourceKeyOf: SourceRow -> SourceKey,
    journal: Journal, start: Tables, e: ImportError)
    requires start.merchants == s.tables.merchants
    requires forall k :: MerchantAlias(k) in start.aliases ==>
               MerchantAlias(k) in s.tables.aliases
                   && start.aliases[MerchantAlias(k)] == s.tables.aliases[MerchantAlias(k)]
    requires || (e == InvalidSourceIdentity && !WellKeyed(file, sourceKeyOf))
             || (e == TransactionsExhausted && |proposed.transactions| < |file.rows|)
             || (e.EntityFailure? && BlamesFile(n, file, start, |proposed.merchants|, |proposed.categories|, e.cause))
    ensures Blamed(s, proposed, file, mapping, n, sourceKeyOf, journal, e)
  {
    hide BlamesFile, SettingsDiffer, WellKeyed;
    if e.EntityFailure? {
      AccountKillsNothing(s.tables, start, n, file, |proposed.merchants|, |proposed.categories|, e.cause);
    }
  }

  lemma AccountKillsNothing(d: Tables, after: Tables, n: Naming, file: SourceFile, m: nat, c: nat, e: EntityError)
    requires after.merchants == d.merchants
    requires forall k :: MerchantAlias(k) in after.aliases ==>
        MerchantAlias(k) in d.aliases && after.aliases[MerchantAlias(k)] == d.aliases[MerchantAlias(k)]
    requires BlamesFile(n, file, after, m, c, e)
    ensures BlamesFile(n, file, d, m, c, e)
  {
    hide LeadsTo, Unnameable;
    assert forall text :: DeadMerchantAlias(after, n, text) ==> DeadMerchantAlias(d, n, text);
    hide DeadMerchantAlias;
  }

  /** Plans one import.  A file whose content was already imported completely changes nothing unless
  the import is forced; every other outcome is one `ImportStep`, or a refusal for a stated reason. */
  method BuildImportPlan(
    s: Ledger, proposed: Proposed, file: SourceFile, mapping: Settings, force: bool,
    naming: Naming, sourceKeyOf: SourceRow -> SourceKey, journal: Journal)
    returns (r: Outcome)
    requires ValidLedger(s) && ValidProposal(s, proposed) && ValidNaming(naming)
    ensures r == Refused(MappingMismatch) <==> SettingsDiffer(s, mapping)
    ensures r == Unchanged <==> !SettingsDiffer(s, mapping) && SameDigest(s, file) && !force
    ensures r.Planned? ==>
      && ImportStep(s, naming, file, proposed.transactions, journal.pending, r.after, r.counts)
      && WellKeyed(file, sourceKeyOf)
      && file.records == |file.rows| + file.skipped
      && naming.collisionKey(file.account) == Some(file.accountKey)
      && journal.replays && journal.rebase == Rebased(0, 0, r.counts.discardedRedo)
      && r.after.settings == Some(mapping)
    ensures r.Refused? ==> Blamed(s, proposed, file, mapping, naming, sourceKeyOf, journal, r.error)
  {
    hide EntitiesCreatedFor, MerchantLabels, CategoryLabels, NoNewDeath, BlamesFile, DeadMerchantAlias, Blamed;
    Reasons(s, proposed, file, mapping, naming, sourceKeyOf, journal);
    hide ValidLedger, ImportStep, PassDone, DistinctIds, LiveIffPresent, KnownClaims, FreshIds, ValidTables, Grew,
         RowsAbsorbed, TransactionsAbsorbed, RowsAfter, TransactionsAfter, TablesAfter, WellKeyed, Swept, SweptKeys,
         KeptKeys, EarlierClaims, ClaimedBy, Moved, Changed, Retained, ActiveKeys, Unused, ClaimsAfter,
         AliasesAbsorbed, ExtendsMap, Closed;
    if s.settings.Some? && s.settings.value != mapping {
      return Refused(MappingMismatch);
    }
    if file.key in s.files && s.files[file.key].digest == file.digest && s.files[file.key].skipped == 0 && !force {
      return Unchanged;
    }
    if file.records != |file.rows| + file.skipped {
      return Refused(RecordsDisagree);
    }
    if naming.collisionKey(file.account) != Some(file.accountKey) {
      return Refused(AccountDisagrees);
    }
    assert !SettingsDiffer(s, mapping) && (force || !SameDigest(s, file));
    hide SettingsDiffer, SameDigest, Entities.Valid, ValidNaming;
    ValidLedgerFacts(s);
    var entities := new Entities(s.tables, naming, proposed.accounts, proposed.merchants, proposed.categories);
    var account := entities.Account(file.accountKey);
    if account.Failure? {
      return Refused(EntityFailure(account.error));
    }
    ghost var start := entities.View();
    var pass := AbsorbRows(s, file, proposed.transactions, entities, account.value, sourceKeyOf);
    if pass.Failure? {
      PassReasons(s, proposed, file, mapping, naming, sourceKeyOf, journal, start, pass.error);
      return Refused(pass.error);
    }
    if !journal.replays {
      return Refused(ReplayFails);
    }
    ghost var now := entities.View();
    CreatedAfter(s.tables, start, now, naming, MerchantLabels(s, file, |file.rows|),
                 CategoryLabels(s, file, |file.rows|));
    AccountsKeep(s, naming, file, proposed.transactions, start, now, account.value, pass.value);
    var rows, transactions, superseded, retained :=
      SweepDropped(s, naming, file, proposed.transactions, journal.pending, pass.value, start, now, account.value);
    var files := s.files[file.key :=
      SavedFile(file.accountKey, file.digest, pass.value.inserted, pass.value.duplicates, file.skipped)];
    if journal.rebase.RebaseFails? {
      return Refused(RebaseRefused);
    }
    if journal.rebase.removedOperations != 0 || journal.rebase.removedTargets != 0 {
      return Refused(WouldRemoveEdit);
    }
    var counts := Counts(
      pass.value.inserted, pass.value.duplicates, pass.value.updated, superseded, pass.value.restored, retained,
      file.skipped, journal.rebase.discardedRedo);
    var tables := Tables(entities.accounts, entities.merchants, entities.categories, entities.aliases);
    var after := Ledger(Some(mapping), files, rows, ClaimsAfter(s, file), transactions, tables);
    TablesFollow(s, file, proposed.transactions, start, now);
    AssembleStep(s, naming, file, proposed.transactions, journal.pending, start, now, pass.value, after, counts);
    r := Planned(after, counts);
  }

  lemma AccountsKeep(s: Ledger, n: Naming, file: SourceFile, ids: seq<Id>, start: Tables, now: Tables, accountId: Id,
    p: Pass)
    requires PassDone(s, n, file, ids, |file.rows|, start, now, accountId, p)
    requires file.accountKey in start.accounts && accountId == start.accounts[file.accountKey]
    ensures AliasesAbsorbed(s, file, ids, |file.rows|, start, now)
    ensures file.accountKey in now.accounts && now.accounts[file.accountKey] == accountId
  {
  }

  lemma AssembleStep(
    s: Ledger, n: Naming, file: SourceFile, ids: seq<Id>, pending: set<Id>, start: Tables, now: Tables, p: Pass,
    after: Ledger, c: Counts)
    requires DistinctIds(s) && LiveIffPresent(s) && FreshIds(s, ids)
    requires TablesAfter(s, file, ids, now) && after.tables == now
    requires EntitiesCreatedFor(s.tables, now, n, MerchantLabels(s, file, |file.rows|),
                                CategoryLabels(s, file, |file.rows|))
    requires PassDone(s, n, file, ids, |file.rows|, start, now, now.accounts[file.accountKey], p)
    requires Swept(s, SweptKeys(s, file, pending, EarlierClaims(s, file.key)), p, after.rows, after.transactions)
    requires after.claims == ClaimsAfter(s, file)
    requires after.files == s.files[file.key := SavedFile(file.accountKey, file.digest, p.inserted, p.duplicates,
        file.skipped)]
    requires after.settings.Some? && (s.settings.Some? ==> after.settings == s.settings)
    requires c.inserted == p.inserted && c.duplicates == p.duplicates && c.updated == p.updated
        && c.restored == p.restored
    requires c.skipped == file.skipped
    requires c.superseded == |SweptKeys(s, file, pending, EarlierClaims(s, file.key))|
    requires c.retained == |KeptKeys(s, file, pending, EarlierClaims(s, file.key))|
    ensures ImportStep(s, n, file, ids, pending, after, c)
  {
    hide EntitiesCreatedFor, MerchantLabels, CategoryLabels, RowsAbsorbed, TransactionsAbsorbed, AliasesAbsorbed,
         RowsAfter, TransactionsAfter, Swept, SweptKeys, KeptKeys, Moved, Changed, DistinctIds, LiveIffPresent,
         FreshIds, Supersedes, Retained, EarlierClaims, ClaimedBy, ClaimsAfter, Grew, ValidTables;
    SupersedesFacts(s, file, pending);
    PlanRows(s, file, ids, pending, p, after.rows, after.transactions);
    PlanTransactions(s, n, file, ids, pending, now, p, after.rows, after.transactions);
    PlanCounts(s, n, file, ids, pending, start, now, now.accounts[file.accountKey], p, after.rows, after.transactions);
  }
}
