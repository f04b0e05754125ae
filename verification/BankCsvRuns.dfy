/** What any run of CSV imports and user edits leaves in the ledger. */
module BankCsvRuns {
  import opened MergeChains
  import opened CsvEntities
  import opened BankCsvImport

  // One import ----------------------------------------------------------------------------------

  /** The source key is a hash of these facts; equal keys mean equal facts. */
  ghost predicate KeyDetermines(sourceKeyOf: SourceRow -> SourceKey) {
    forall a, b :: sourceKeyOf(a) == sourceKeyOf(b) ==>
      a.accountKey == b.accountKey && a.date == b.date && a.amount == b.amount && a.merchant == b.merchant
  }

  ghost predicate HashedRows(s: Ledger, sourceKeyOf: SourceRow -> SourceKey) {
    forall k :: k in s.rows ==> sourceKeyOf(s.rows[k].row) == k
  }

  /** The file key is a hash that includes the account key. */
  ghost predicate SameAccount(s: Ledger, file: SourceFile) {
    file.key in s.files ==> s.files[file.key].accountKey == file.accountKey
  }

  lemma SavedRowAfter(s: Ledger, file: SourceFile, ids: seq<Id>, pending: set<Id>, after: map<SourceKey, SavedRow>,
    k: SourceKey)
    returns (j: nat)
    requires RowsAfter(s, file, ids, pending, after) && k in KeysOf(file.rows)
    ensures j < |file.rows| && file.rows[j].sourceKey == k
    ensures (k in s.rows || j < |ids|) && after[k] == SavedFor(s, file.key, ids, file.rows[j], j)
  {
    j :| 0 <= j < |file.rows| && file.rows[j].sourceKey == k;
  }

  lemma RowWasValid(s: Ledger, k: SourceKey)
    requires ValidLedger(s) && k in s.rows
    ensures s.rows[k].row.sourceKey == k && s.rows[k].row.accountKey in s.tables.accounts && ValidRow(s, s.rows[k])
    ensures TransactionAlias(k) in s.tables.aliases && s.tables.aliases[TransactionAlias(k)] == s.rows[k].id
  {
  }

  // The transaction of an updated row carries the row's facts.
  lemma ImportedFacts(s: Ledger, n: Naming, after: Tables, accountId: Id, src: SourceRow, id: Id, t: Transaction)
    requires Imported(s, n, after, accountId, src, id, t)
    ensures
      if id in s.transactions then
        var b := s.transactions[id];
        && t.id == b.id && t.providerId == b.providerId && t.accountId == b.accountId
        && t.date == b.date && t.amount == b.amount && t.hidden == b.hidden
      else
        && t.id == id && t.providerId == src.sourceKey && t.accountId == accountId
        && t.date == src.date && t.amount == src.amount && !t.hidden
  {
  }

  lemma StepParts(s: Ledger, n: Naming, file: SourceFile, ids: seq<Id>, pending: set<Id>, after: Ledger, c: Counts)
    requires ImportStep(s, n, file, ids, pending, after, c)
    ensures TablesAfter(s, file, ids, after.tables)
    ensures RowsAfter(s, file, ids, pending, after.rows)
    ensures TransactionsAfter(s, n, file, ids, pending, after.tables, after.transactions)
    ensures after.claims == ClaimsAfter(s, file)
    ensures after.files == s.files[file.key := SavedFile(file.accountKey, file.digest, c.inserted, c.duplicates,
        c.skipped)]
    ensures c.skipped == file.skipped
  {
  }

  lemma AccountsGrow(s: Ledger, file: SourceFile, ids: seq<Id>, after: Tables)
    requires TablesAfter(s, file, ids, after)
    ensures ExtendsMap(s.tables.accounts, after.accounts) && file.accountKey in after.accounts
  {
  }

  lemma RowAliasAfter(s: Ledger, file: SourceFile, ids: seq<Id>, after: Tables, k: SourceKey)
    requires TablesAfter(s, file, ids, after)
    ensures k in s.rows && TransactionAlias(k) in s.tables.aliases ==>
      TransactionAlias(k) in after.aliases
          && after.aliases[TransactionAlias(k)] == s.tables.aliases[TransactionAlias(k)]
    ensures forall j :: 0 <= j < |file.rows| && file.rows[j].sourceKey == k && k !in s.rows ==>
      j < |ids| && TransactionAlias(k) in after.aliases && after.aliases[TransactionAlias(k)] == ids[j]
  {
    hide ValidTables, Grew;
  }

  // A listed row that the import updates.
  lemma UpdatedRowStaysValid(
    s: Ledger, n: Naming, file: SourceFile, ids: seq<Id>, pending: set<Id>, after: Ledger, c: Counts,
    sourceKeyOf: SourceRow -> SourceKey, k: SourceKey)
    requires ValidLedger(s) && FreshIds(s, ids) && WellKeyed(file, sourceKeyOf)
    requires ImportStep(s, n, file, ids, pending, after, c)
    requires HashedRows(s, sourceKeyOf) && KeyDetermines(sourceKeyOf)
    requires k in KeysOf(file.rows) && Updates(s, file.key, k)
    ensures ConsistentRow(after, k) && sourceKeyOf(after.rows[k].row) == k
    ensures after.rows[k].row.accountKey == file.accountKey
    ensures k in s.rows ==> after.rows[k].id == s.rows[k].id && after.rows[k].row.accountKey == s.rows[k].row.accountKey
  {
    StepParts(s, n, file, ids, pending, after, c);
    var j := SavedRowAfter(s, file, ids, pending, after.rows, k);
    assert WellKeyedRow(file, sourceKeyOf, j);
    var id := IdFor(s, ids, k, j);
    var accountId := after.tables.accounts[file.accountKey];
    assert RowImported(s, n, file, ids, after.tables, accountId, after.transactions, j);
    ImportedFacts(s, n, after.tables, accountId, file.rows[j], id, after.transactions[id]);
    AccountsGrow(s, file, ids, after.tables);
    RowAliasAfter(s, file, ids, after.tables, k);
    if k in s.rows {
      RowWasValid(s, k);
      assert sourceKeyOf(s.rows[k].row) == sourceKeyOf(file.rows[j]);
    }
    hide ValidLedger, ImportStep, TablesAfter, RowsAfter, TransactionsAfter, Imported, RowImported, Updates, KeysOf,
         WellKeyed;
  }

  // Any other row is untouched, or superseded together with its transaction.
  lemma OtherRowStaysValid(
    s: Ledger, n: Naming, file: SourceFile, ids: seq<Id>, pending: set<Id>, after: Ledger, c: Counts,
    sourceKeyOf: SourceRow -> SourceKey, k: SourceKey)
    requires ValidLedger(s) && WellKeyed(file, sourceKeyOf)
    requires ImportStep(s, n, file, ids, pending, after, c)
    requires HashedRows(s, sourceKeyOf) && KeyDetermines(sourceKeyOf)
    requires k in s.rows && !(k in KeysOf(file.rows) && Updates(s, file.key, k))
    ensures k in after.rows && ConsistentRow(after, k) && sourceKeyOf(after.rows[k].row) == k
    ensures k in KeysOf(file.rows) ==> after.rows[k].row.accountKey == file.accountKey
    ensures after.rows[k].id == s.rows[k].id && after.rows[k].row.accountKey == s.rows[k].row.accountKey
  {
    hide Imported, RowImported, Updates;
    StepParts(s, n, file, ids, pending, after, c);
    RowWasValid(s, k);
    AccountsGrow(s, file, ids, after.tables);
    RowAliasAfter(s, file, ids, after.tables, k);
    if k in KeysOf(file.rows) {
      var j := SavedRowAfter(s, file, ids, pending, after.rows, k);
      assert WellKeyedRow(file, sourceKeyOf, j);
      assert sourceKeyOf(s.rows[k].row) == sourceKeyOf(file.rows[j]);
    }
    SupersedesFacts(s, file, pending);
    hide ValidLedger, ImportStep, TablesAfter, KeysOf, WellKeyed, EarlierClaims, SweptKeys, Supersedes;
  }

  lemma {:induction false} RowStaysValid(
    s: Ledger, n: Naming, file: SourceFile, ids: seq<Id>, pending: set<Id>, after: Ledger, c: Counts,
    sourceKeyOf: SourceRow -> SourceKey, k: SourceKey)
    requires ValidLedger(s) && FreshIds(s, ids) && WellKeyed(file, sourceKeyOf)
    requires ImportStep(s, n, file, ids, pending, after, c)
    requires HashedRows(s, sourceKeyOf) && KeyDetermines(sourceKeyOf)
    requires k in after.rows
    ensures ConsistentRow(after, k) && sourceKeyOf(after.rows[k].row) == k
    ensures k in KeysOf(file.rows) ==> after.rows[k].row.accountKey == file.accountKey
    ensures k in s.rows ==> after.rows[k].id == s.rows[k].id && after.rows[k].row.accountKey == s.rows[k].row.accountKey
  {
    StepParts(s, n, file, ids, pending, after, c);
    if k in KeysOf(file.rows) && Updates(s, file.key, k) {
      UpdatedRowStaysValid(s, n, file, ids, pending, after, c, sourceKeyOf, k);
    } else {
      OtherRowStaysValid(s, n, file, ids, pending, after, c, sourceKeyOf, k);
    }
    hide ValidLedger, ImportStep, RowsAfter, TransactionsAfter, TablesAfter, WellKeyed, Updates, ConsistentRow;
  }

  // The identifier of every row after an import: saved before, or proposed for a new listed row.
  lemma IdAfter(s: Ledger, file: SourceFile, ids: seq<Id>, pending: set<Id>, after: map<SourceKey, SavedRow>,
    k: SourceKey)
    returns (j: nat)
    requires RowsAfter(s, file, ids, pending, after) && k in after
    ensures if k in s.rows then after[k].id == s.rows[k].id else
              j < |ids| && j < |file.rows| && file.rows[j].sourceKey == k && after[k].id == ids[j]
  {
    j := 0;
    if k in KeysOf(file.rows) {
      j := SavedRowAfter(s, file, ids, pending, after, k);
    }
  }

  lemma IdsStayDistinct(s: Ledger, file: SourceFile, ids: seq<Id>, pending: set<Id>, after: map<SourceKey, SavedRow>,
    k: SourceKey, l: SourceKey)
    requires DistinctIds(s) && FreshIds(s, ids)
    requires RowsAfter(s, file, ids, pending, after) && k in after && l in after && k != l
    ensures after[k].id != after[l].id
  {
    hide RowsAfter;
    var i := IdAfter(s, file, ids, pending, after, k);
    var j := IdAfter(s, file, ids, pending, after, l);
  }

  lemma DispositionAfter(s: Ledger, file: SourceFile, ids: seq<Id>, pending: set<Id>, after: map<SourceKey, SavedRow>,
    k: SourceKey)
    requires RowsAfter(s, file, ids, pending, after) && k in after
    ensures after[k].disposition ==
      if k in KeysOf(file.rows) && Updates(s, file.key, k) then Present
      else if k !in KeysOf(file.rows) && Supersedes(s, file, pending, k) then Superseded
      else s.rows[k].disposition
  {
    if k in KeysOf(file.rows) {
      var j := SavedRowAfter(s, file, ids, pending, after, k);
    }
  }

  lemma ClaimWasValid(s: Ledger, claim: Claim)
    requires ValidLedger(s) && claim in s.claims
    ensures ValidClaim(s, claim)
  {
  }

  // A claim after the import is a listed row of this file, or a claim that was there before.
  lemma ClaimOrigin(s: Ledger, file: SourceFile, claim: Claim)
    requires claim in ClaimsAfter(s, file)
    ensures claim.file == file.key ==> claim.source in ClaimedBy(s, file)
    ensures claim.file != file.key ==> claim in s.claims && claim.source in OtherClaims(s, file.key)
    ensures claim.source !in KeysOf(file.rows) ==> claim in s.claims
  {
  }

  lemma ClaimStaysValid(
    s: Ledger, n: Naming, file: SourceFile, ids: seq<Id>, pending: set<Id>, after: Ledger, c: Counts,
    sourceKeyOf: SourceRow -> SourceKey, claim: Claim)
    requires ValidLedger(s) && FreshIds(s, ids) && WellKeyed(file, sourceKeyOf) && SameAccount(s, file)
    requires ImportStep(s, n, file, ids, pending, after, c)
    requires HashedRows(s, sourceKeyOf) && KeyDetermines(sourceKeyOf)
    requires claim in after.claims
    ensures ValidClaim(after, claim)
  {
    hide ValidLedger, ImportStep, TransactionsAfter, TablesAfter, WellKeyed, FreshIds, KeyDetermines, HashedRows,
         ClaimsAfter, KeysOf, ClaimedBy, OtherClaims;
    StepParts(s, n, file, ids, pending, after, c);
    var k := claim.source;
    ClaimOrigin(s, file, claim);
    if claim in s.claims {
      ClaimWasValid(s, claim);
    }
    RowStaysValid(s, n, file, ids, pending, after, c, sourceKeyOf, k);
    DispositionAfter(s, file, ids, pending, after.rows, k);
    hide RowsAfter, ConsistentRow;
  }

  lemma ListedRowOwns(s: Ledger, file: SourceFile, ids: seq<Id>, pending: set<Id>, after: Ledger, j: nat, id: Id)
    requires RowsAfter(s, file, ids, pending, after.rows)
    requires j < |file.rows| && IsIdOf(s, file, ids, j, id)
    ensures Owned(after, id)
  {
    assert after.rows[file.rows[j].sourceKey].id == id;
  }

  lemma OwnerAfter(s: Ledger, n: Naming, file: SourceFile, ids: seq<Id>, pending: set<Id>, after: Ledger, c: Counts,
    id: Id)
    requires ValidLedger(s) && ImportStep(s, n, file, ids, pending, after, c) && id in after.transactions
    ensures Owned(after, id)
  {
    hide RowsAfter, TablesAfter;
    StepParts(s, n, file, ids, pending, after, c);
    if id in s.transactions {
      hide TransactionsAfter;
      assert Owned(s, id);
      var k :| k in s.rows && s.rows[k].id == id;
      RowStaysListed(s, file, ids, pending, after.rows, k);
      var j := IdAfter(s, file, ids, pending, after.rows, k);
    } else {
      hide ValidLedger, Imported;
      assert FromRow(s, file, ids, |file.rows|, id);
      var j :| 0 <= j < |file.rows| && IsIdOf(s, file, ids, j, id);
      ListedRowOwns(s, file, ids, pending, after, j, id);
    }
  }

  lemma RowStaysListed(s: Ledger, file: SourceFile, ids: seq<Id>, pending: set<Id>, after: map<SourceKey, SavedRow>,
    k: SourceKey)
    requires RowsAfter(s, file, ids, pending, after) && k in s.rows
    ensures k in after
  {
  }

  lemma RowsStayValid(
    s: Ledger, n: Naming, file: SourceFile, ids: seq<Id>, pending: set<Id>, after: Ledger, c: Counts,
    sourceKeyOf: SourceRow -> SourceKey)
    requires ValidLedger(s) && FreshIds(s, ids) && WellKeyed(file, sourceKeyOf) && SameAccount(s, file)
    requires ImportStep(s, n, file, ids, pending, after, c)
    requires HashedRows(s, sourceKeyOf) && KeyDetermines(sourceKeyOf)
    ensures (forall k :: k in after.rows ==> ConsistentRow(after, k)) && DistinctIds(after)
        && HashedRows(after, sourceKeyOf)
  {
    hide ImportStep, ConsistentRow, RowsAfter, TransactionsAfter, TablesAfter, KeyDetermines, WellKeyed, FreshIds,
         ValidTables;
    hide LiveIffPresent, KnownClaims, SameAccount;
    ValidLedgerFacts(s);
    StepParts(s, n, file, ids, pending, after, c);
    forall k | k in after.rows ensures ConsistentRow(after, k) && sourceKeyOf(after.rows[k].row) == k {
      RowStaysValid(s, n, file, ids, pending, after, c, sourceKeyOf, k);
    }
    hide ValidLedger;
    forall k, l | k in after.rows && l in after.rows && k != l ensures after.rows[k].id != after.rows[l].id {
      IdsStayDistinct(s, file, ids, pending, after.rows, k, l);
    }
  }

  /** Every import takes saved state that passes the store's checks to state that passes them. */
  lemma ImportKeepsLedgerValid(
    s: Ledger, n: Naming, file: SourceFile, ids: seq<Id>, pending: set<Id>, after: Ledger, c: Counts,
    sourceKeyOf: SourceRow -> SourceKey)
    requires ValidLedger(s) && FreshIds(s, ids) && WellKeyed(file, sourceKeyOf) && SameAccount(s, file)
    requires ImportStep(s, n, file, ids, pending, after, c)
    requires HashedRows(s, sourceKeyOf) && KeyDetermines(sourceKeyOf)
    ensures ValidLedger(after) && HashedRows(after, sourceKeyOf)
  {
    hide ImportStep, ConsistentRow, RowsAfter, TransactionsAfter, TablesAfter, ClaimsAfter, ValidClaim, Owned,
         KeyDetermines, WellKeyed, FreshIds, ValidTables;
    hide LiveIffPresent, KnownClaims, SameAccount;
    ValidLedgerFacts(s);
    StepParts(s, n, file, ids, pending, after, c);
    FilesStayValid(s, file, ids, pending, after, c);
    RowsStayValid(s, n, file, ids, pending, after, c, sourceKeyOf);
    hide HashedRows, DistinctIds;
    forall claim | claim in after.claims ensures ValidClaim(after, claim) {
      ClaimStaysValid(s, n, file, ids, pending, after, c, sourceKeyOf, claim);
    }
    forall id | id in after.transactions ensures Owned(after, id) {
      OwnerAfter(s, n, file, ids, pending, after, c, id);
    }
    ReferencesStayLive(s, n, file, ids, pending, after, c);
    hide LiveReferences;
  }

  // What a label resolves to is active, and what was active stays so.
  lemma ImportedRefersToActive(s: Ledger, n: Naming, after: Tables, accountId: Id, src: SourceRow, id: Id,
    t: Transaction)
    requires LiveReferences(s) && Grew(s.tables, after) && Imported(s, n, after, accountId, src, id, t)
    ensures RefersToActive(after, t)
  {
    hide Grew;
    ActiveStays(s.tables, after);
    hide ResolvesMerchant, ResolvesCategory;
    if id !in s.transactions || src.sourceKey !in s.rows || !s.rows[src.sourceKey].merchantOverride {
      ResolvedMerchantIsActive(after, n, src.merchant, t.merchantId);
    }
    if id !in s.transactions || src.sourceKey !in s.rows || !s.rows[src.sourceKey].categoryOverride {
      ResolvedCategoryIsActive(after, n, src.category, t.categoryId);
    }
  }

  lemma ActiveStays(d: Tables, after: Tables)
    requires Grew(d, after)
    ensures forall id :: Active(d.merchants, id) ==> Active(after.merchants, id)
    ensures forall id :: Active(d.categories, id) ==> Active(after.categories, id)
  {
  }

  lemma ResolvedMerchantIsActive(d: Tables, n: Naming, text: string, id: Id)
    requires ResolvesMerchant(d, n, text, id)
    ensures Active(d.merchants, id)
  {
  }

  lemma ResolvedCategoryIsActive(d: Tables, n: Naming, text: string, id: Id)
    requires ResolvesCategory(d, n, text, id) && Active(d.categories, UNCATEGORIZED_ID)
    ensures Active(d.categories, id)
  {
  }

  // A live transaction after an import was written for a listed row, or is as it was.
  lemma WrittenOrKept(s: Ledger, n: Naming, file: SourceFile, ids: seq<Id>, pending: set<Id>, after: Ledger, id: Id)
    returns (j: nat)
    requires file.accountKey in after.tables.accounts
    requires TransactionsAfter(s, n, file, ids, pending, after.tables, after.transactions)
    requires id in after.transactions && (id in s.transactions ==> Owned(s, id))
    ensures j <= |file.rows|
    ensures j < |file.rows| ==>
      Imported(s, n, after.tables, after.tables.accounts[file.accountKey], file.rows[j], id, after.transactions[id])
    ensures j == |file.rows| ==> id in s.transactions && after.transactions[id] == s.transactions[id]
  {
    hide Imported, Supersedes, Updates;
    j := |file.rows|;
    if id !in s.transactions {
      assert FromRow(s, file, ids, |file.rows|, id);
      j :| 0 <= j < |file.rows| && IsIdOf(s, file, ids, j, id);
      assert RowImported(s, n, file, ids, after.tables, after.tables.accounts[file.accountKey], after.transactions, j);
    } else {
      var k :| k in s.rows && s.rows[k].id == id;
      if k in KeysOf(file.rows) && Updates(s, file.key, k) {
        j :| 0 <= j < |file.rows| && file.rows[j].sourceKey == k;
        assert RowImported(s, n, file, ids, after.tables, after.tables.accounts[file.accountKey], after.transactions,
            j);
      }
    }
  }

  lemma ReferencesStayLive(
    s: Ledger, n: Naming, file: SourceFile, ids: seq<Id>, pending: set<Id>, after: Ledger, c: Counts)
    requires LiveReferences(s) && (forall id :: id in s.transactions ==> Owned(s, id))
    requires TablesAfter(s, file, ids, after.tables)
    requires TransactionsAfter(s, n, file, ids, pending, after.tables, after.transactions)
    ensures LiveReferences(after)
  {
    assert Grew(s.tables, after.tables) by {
      hide Grew, ValidTables;
    }
    ActiveStays(s.tables, after.tables);
    hide Grew, TablesAfter, TransactionsAfter, Imported, Owned;
    forall id | id in after.transactions ensures RefersToActive(after.tables, after.transactions[id]) {
      var j := WrittenOrKept(s, n, file, ids, pending, after, id);
      if j < |file.rows| {
        ImportedRefersToActive(
          s, n, after.tables, after.tables.accounts[file.accountKey], file.rows[j], id, after.transactions[id]);
      }
    }
  }

  lemma FilesStayValid(s: Ledger, file: SourceFile, ids: seq<Id>, pending: set<Id>, after: Ledger, c: Counts)
    requires ValidLedger(s) && TablesAfter(s, file, ids, after.tables)
    requires after.files == s.files[file.key := SavedFile(file.accountKey, file.digest, c.inserted, c.duplicates,
        c.skipped)]
    requires RowsAfter(s, file, ids, pending, after.rows)
    ensures ValidTables(after.tables)
    ensures forall f :: f in after.files ==> after.files[f].accountKey in after.tables.accounts
    ensures forall k :: TransactionAlias(k) in after.tables.aliases ==> k in after.rows
  {
    hide ValidTables, ConsistentRow, ValidClaim, Owned, DistinctIds;
  }

  // Conservation ---------------------------------------------------------------------------------

  ghost function PresentKeys(s: Ledger): set<SourceKey> {
    set k | k in s.rows && s.rows[k].disposition == Present
  }

  lemma {:induction false} ImageCardinality(s: Ledger, keys: set<SourceKey>)
    requires DistinctIds(s) && keys <= s.rows.Keys
    ensures |IdsOf(s, keys)| == |keys|
  {
    if keys == {} {
      assert IdsOf(s, {}) == {};
    } else {
      var k :| k in keys;
      ImageCardinality(s, keys - {k});
      assert IdsOf(s, keys) == IdsOf(s, keys - {k}) + {s.rows[k].id};
      SweptIdsKeep(s, keys - {k}, k);
    }
  }

  /** There is one live transaction for each present row. */
  lemma OneTransactionPerPresentRow(s: Ledger)
    requires ValidLedger(s)
    ensures s.transactions.Keys == IdsOf(s, PresentKeys(s))
    ensures |s.transactions| == |PresentKeys(s)|
  {
    ValidLedgerFacts(s);
    forall id | id in s.transactions ensures id in IdsOf(s, PresentKeys(s)) {
      assert Owned(s, id);
      var k :| k in s.rows && s.rows[k].id == id;
    }
    hide ValidLedger;
    assert s.transactions.Keys == IdsOf(s, PresentKeys(s));
    ImageCardinality(s, PresentKeys(s));
    assert |s.transactions| == |s.transactions.Keys|;
  }

  lemma PresentAfter(s: Ledger, file: SourceFile, ids: seq<Id>, pending: set<Id>, after: Ledger)
    requires RowsAfter(s, file, ids, pending, after.rows)
    ensures PresentKeys(after) ==
      (PresentKeys(s) - Moved(s.rows, after.rows, Present, Superseded))
      + (Moved(s.rows, after.rows, Superseded, Present) + (after.rows.Keys - s.rows.Keys))
  {
    forall k | k in after.rows
      ensures k !in s.rows ==> after.rows[k].disposition == Present
      ensures k in s.rows && s.rows[k].disposition == Deleted ==> after.rows[k].disposition == Deleted
      ensures k in s.rows && s.rows[k].disposition == Present ==> after.rows[k].disposition != Deleted
      ensures k in s.rows && s.rows[k].disposition == Superseded ==> after.rows[k].disposition != Deleted
    {
      DispositionAfter(s, file, ids, pending, after.rows, k);
    }
    hide RowsAfter, Supersedes, Updates, KeysOf;
  }

  lemma SplitCardinality(before: set<SourceKey>, gone: set<SourceKey>, back: set<SourceKey>, added: set<SourceKey>)
    requires gone <= before && back !! before && added !! before && back !! added
    ensures |(before - gone) + (back + added)| == |before| - |gone| + |back| + |added|
  {
    assert |before - gone| == |before| - |gone|;
    assert |back + added| == |back| + |added|;
  }

  /** Live transactions change by exactly what the result counts: new and restored rows come,
  superseded rows go. */
  lemma ImportConservesTransactions(
    s: Ledger, n: Naming, file: SourceFile, ids: seq<Id>, pending: set<Id>, after: Ledger, c: Counts,
    sourceKeyOf: SourceRow -> SourceKey)
    requires ValidLedger(s) && FreshIds(s, ids) && WellKeyed(file, sourceKeyOf) && SameAccount(s, file)
    requires ImportStep(s, n, file, ids, pending, after, c)
    requires HashedRows(s, sourceKeyOf) && KeyDetermines(sourceKeyOf)
    ensures |after.transactions| == |s.transactions| + c.inserted + c.restored - c.superseded
    ensures c.inserted + c.duplicates == |file.rows|
  {
    hide ValidLedger, RowsAfter, TransactionsAfter, TablesAfter, WellKeyed, HashedRows, KeyDetermines, FreshIds,
         ClaimsAfter;
    ImportKeepsLedgerValid(s, n, file, ids, pending, after, c, sourceKeyOf);
    OneTransactionPerPresentRow(s);
    OneTransactionPerPresentRow(after);
    StepParts(s, n, file, ids, pending, after, c);
    PresentAfter(s, file, ids, pending, after);
    KeysGrow(s, file, ids, pending, after);
    SplitCardinality(PresentKeys(s), Moved(s.rows, after.rows, Present, Superseded),
      Moved(s.rows, after.rows, Superseded, Present), after.rows.Keys - s.rows.Keys);
  }

  lemma KeysGrow(s: Ledger, file: SourceFile, ids: seq<Id>, pending: set<Id>, after: Ledger)
    requires RowsAfter(s, file, ids, pending, after.rows)
    ensures |after.rows.Keys - s.rows.Keys| == |after.rows| - |s.rows|
  {
    assert |after.rows| == |after.rows.Keys| && |s.rows| == |s.rows.Keys|;
    assert s.rows.Keys <= after.rows.Keys;
    assert |after.rows.Keys - s.rows.Keys| == |after.rows.Keys| - |s.rows.Keys|;
  }

  // Protection -------------------------------------------------------------------------------------

  /** No import removes a transaction the user hid, overrode or is editing, and none overwrites an
  overridden merchant or category. */
  lemma ImportRespectsUser(
    s: Ledger, n: Naming, file: SourceFile, ids: seq<Id>, pending: set<Id>, after: Ledger, c: Counts, k: SourceKey)
    requires ValidLedger(s) && FreshIds(s, ids) && ImportStep(s, n, file, ids, pending, after, c)
    requires k in s.rows && s.rows[k].disposition == Present && Shielded(s, pending, k)
    ensures k in after.rows && after.rows[k].disposition == Present && after.rows[k].id == s.rows[k].id
    ensures after.rows[k].id in s.transactions && after.rows[k].id in after.transactions
    ensures
      var t, t' := s.transactions[s.rows[k].id], after.transactions[s.rows[k].id];
      && t'.hidden == t.hidden
      && t'.date == t.date && t'.amount == t.amount && t'.accountId == t.accountId
      && (s.rows[k].merchantOverride ==> t'.merchantId == t.merchantId)
      && (s.rows[k].categoryOverride ==> t'.categoryId == t.categoryId)
  {
    ValidLedgerFacts(s);
    hide ValidLedger, TablesAfter;
    StepParts(s, n, file, ids, pending, after, c);
    RowStaysListed(s, file, ids, pending, after.rows, k);
    DispositionAfter(s, file, ids, pending, after.rows, k);
    var i := IdAfter(s, file, ids, pending, after.rows, k);
    if k in KeysOf(file.rows) && Updates(s, file.key, k) {
      var j := SavedRowAfter(s, file, ids, pending, after.rows, k);
      assert RowImported(s, n, file, ids, after.tables, after.tables.accounts[file.accountKey], after.transactions, j);
      hide ResolvesMerchant, ResolvesCategory, RowsAfter, DistinctIds;
    } else {
      hide Imported, RowsAfter, DistinctIds;
    }
  }

  // What the ledger shows of a file ------------------------------------------------------------------

  /** The transaction shows its source row: date, amount, notes and metadata as listed, in the file's account. */
  ghost predicate ShowsRow(t: Transaction, src: SourceRow, accountId: Id) {
    && t.providerId == src.sourceKey && t.accountId == accountId
    && t.date == src.date && t.amount == src.amount && t.notes == src.notes && t.metadata == src.metadata
  }

  /** The user's decisions on a live transaction win over the file: an overridden merchant or category stays, and
  hidden stays hidden; whatever the user left alone is what the row's label stands for. */
  ghost predicate RespectsChoices(s: Ledger, n: Naming, after: Tables, k: SourceKey, src: SourceRow, t: Transaction) {
    var live := k in s.rows && s.rows[k].disposition == Present && s.rows[k].id in s.transactions;
    && (t.hidden <==> live && s.transactions[s.rows[k].id].hidden)
    && (if live && s.rows[k].merchantOverride then t.merchantId == s.transactions[s.rows[k].id].merchantId
        else ResolvesMerchant(after, n, src.merchant, t.merchantId))
    && (if live && s.rows[k].categoryOverride then t.categoryId == s.transactions[s.rows[k].id].categoryId
        else ResolvesCategory(after, n, src.category, t.categoryId))
  }

  /** The row is new, comes back, or was this file's before. */
  ghost predicate Refreshed(s: Ledger, file: FileKey, k: SourceKey) {
    k !in s.rows || s.rows[k].disposition == Superseded
    || (s.rows[k].disposition == Present && Claim(file, k) in s.claims)
  }

  /** The row and its transaction are as the file lists them. */
  ghost predicate ShownAsListed(s: Ledger, n: Naming, src: SourceRow, accountId: Id, after: Ledger, ids: seq<Id>) {
    var k := src.sourceKey;
    && k in after.rows
    && var r := after.rows[k];
    && r.row == src && r.disposition == Present && r.id in after.transactions
    && ShowsRow(after.transactions[r.id], src, accountId)
    && RespectsChoices(s, n, after.tables, k, src, after.transactions[r.id])
    && (k !in s.rows ==> !r.merchantOverride && !r.categoryOverride && r.id in ids)
    && (k in s.rows ==>
          r.merchantOverride == s.rows[k].merchantOverride && r.categoryOverride == s.rows[k].categoryOverride
          && r.id == s.rows[k].id)
  }

  /** A listed row that is new, comes back, or was this file's before shows in the ledger as listed; one that the
  user deleted, or that another file brought and this one lists for the first time, stays as it was. */
  lemma ListedRowsShow(
    s: Ledger, n: Naming, file: SourceFile, ids: seq<Id>, pending: set<Id>, after: Ledger, c: Counts,
    sourceKeyOf: SourceRow -> SourceKey, j: nat)
    requires ValidLedger(s) && FreshIds(s, ids) && WellKeyed(file, sourceKeyOf) && SameAccount(s, file)
    requires ImportStep(s, n, file, ids, pending, after, c)
    requires HashedRows(s, sourceKeyOf) && KeyDetermines(sourceKeyOf) && j < |file.rows|
    ensures file.accountKey in after.tables.accounts
    ensures
      var k := file.rows[j].sourceKey;
      if Refreshed(s, file.key, k)
      then ShownAsListed(s, n, file.rows[j], after.tables.accounts[file.accountKey], after, ids)
      else k in s.rows && k in after.rows && after.rows[k] == s.rows[k] && Kept(s, after.transactions, s.rows[k].id)
  {
    var k := file.rows[j].sourceKey;
    StepParts(s, n, file, ids, pending, after, c);
    assert k in KeysOf(file.rows);
    RowWasListed(s, file, ids, pending, after.rows, j);
    hide ValidLedger, ImportStep, TablesAfter, RowsAfter, KeysOf, WellKeyed, HashedRows, KeyDetermines, FreshIds,
         ShownAsListed, RowImported, SavedFor;
    if Refreshed(s, file.key, k) {
      RefreshedShows(s, n, file, ids, pending, after, c, sourceKeyOf, j);
    } else {
      SavedAsBefore(s, file.key, ids, file.rows[j], j);
    }
  }

  lemma SavedAsBefore(s: Ledger, file: FileKey, ids: seq<Id>, src: SourceRow, j: nat)
    requires !Refreshed(s, file, src.sourceKey)
    ensures src.sourceKey in s.rows && !Updates(s, file, src.sourceKey)
    ensures SavedFor(s, file, ids, src, j) == s.rows[src.sourceKey]
  {
  }

  lemma ImportedShows(s: Ledger, n: Naming, after: Tables, accountId: Id, src: SourceRow, id: Id, t: Transaction)
    requires Imported(s, n, after, accountId, src, id, t)
    requires t.providerId == src.sourceKey && t.accountId == accountId && t.date == src.date && t.amount == src.amount
    requires src.sourceKey in s.rows ==> s.rows[src.sourceKey].id == id
    requires id in s.transactions <==> src.sourceKey in s.rows && s.rows[src.sourceKey].disposition == Present
    ensures ShowsRow(t, src, accountId) && RespectsChoices(s, n, after, src.sourceKey, src, t)
  {
    hide ResolvesMerchant, ResolvesCategory;
  }

  // The saved form and the identifier of a refreshed row.
  lemma RefreshedRow(s: Ledger, file: SourceFile, ids: seq<Id>, src: SourceRow, j: nat)
    requires ValidLedger(s) && FreshIds(s, ids) && (src.sourceKey in s.rows || j < |ids|)
    requires Refreshed(s, file.key, src.sourceKey)
    ensures Updates(s, file.key, src.sourceKey)
    ensures
      var k, saved := src.sourceKey, SavedFor(s, file.key, ids, src, j);
      && saved.row == src && saved.disposition == Present && saved.id == IdFor(s, ids, k, j)
      && (k !in s.rows ==> !saved.merchantOverride && !saved.categoryOverride && saved.id in ids)
      && (k in s.rows ==>
            saved.merchantOverride == s.rows[k].merchantOverride && saved.categoryOverride == s.rows[k].categoryOverride
            && saved.id == s.rows[k].id)
      && (saved.id in s.transactions <==> k in s.rows && s.rows[k].disposition == Present)
  {
    if src.sourceKey in s.rows {
      RowWasValid(s, src.sourceKey);
    }
    hide ValidLedger;
  }

  lemma RefreshedShows(
    s: Ledger, n: Naming, file: SourceFile, ids: seq<Id>, pending: set<Id>, after: Ledger, c: Counts,
    sourceKeyOf: SourceRow -> SourceKey, j: nat)
    requires ValidLedger(s) && FreshIds(s, ids) && WellKeyed(file, sourceKeyOf) && SameAccount(s, file)
    requires ImportStep(s, n, file, ids, pending, after, c)
    requires HashedRows(s, sourceKeyOf) && KeyDetermines(sourceKeyOf) && j < |file.rows|
    requires Refreshed(s, file.key, file.rows[j].sourceKey)
    ensures file.accountKey in after.tables.accounts
    ensures ShownAsListed(s, n, file.rows[j], after.tables.accounts[file.accountKey], after, ids)
  {
    var src, k := file.rows[j], file.rows[j].sourceKey;
    StepParts(s, n, file, ids, pending, after, c);
    assert k in KeysOf(file.rows) && WellKeyedRow(file, sourceKeyOf, j);
    RowWasListed(s, file, ids, pending, after.rows, j);
    var accountId := after.tables.accounts[file.accountKey];
    assert RowImported(s, n, file, ids, after.tables, accountId, after.transactions, j);
    hide ValidLedger, ImportStep, TablesAfter, RowsAfter, TransactionsAfter, KeysOf, WellKeyed, ResolvesMerchant,
         ResolvesCategory, HashedRows, KeyDetermines, FreshIds, SameAccount, Refreshed, SavedFor, Updates, IdFor,
         Imported, ShowsRow, RespectsChoices;
    RefreshedRow(s, file, ids, src, j);
    UpdatedRowStaysValid(s, n, file, ids, pending, after, c, sourceKeyOf, k);
    var id := after.rows[k].id;
    ImportedShows(s, n, after.tables, accountId, src, id, after.transactions[id]);
  }

  lemma RowWasListed(s: Ledger, file: SourceFile, ids: seq<Id>, pending: set<Id>, after: map<SourceKey, SavedRow>,
    j: nat)
    requires RowsAfter(s, file, ids, pending, after) && j < |file.rows|
    ensures file.rows[j].sourceKey in s.rows || j < |ids|
    ensures after[file.rows[j].sourceKey] == SavedFor(s, file.key, ids, file.rows[j], j)
  {
  }

  /** A new entity carries the label it was created for: plainly when no other active entity has the label's key, with
  a suffix when one had it before. */
  ghost predicate CarriesLabel(before: Table, after: Table, n: Naming, text: string, id: Id)
    requires id in after
  {
    && n.collisionKey(text).Some?
    && (after[id].text == text || text + SEPARATOR <= after[id].text)
    && (n.collisionKey(text).value !in ActiveKeys(after - {id}) ==> after[id].text == text)
    && (n.collisionKey(text).value in ActiveKeys(before) ==> text + SEPARATOR <= after[id].text)
  }

  lemma CreatedCarries(before: Table, after: Table, aliases: map<Alias, Id>, n: Naming, merchants: bool, text: string,
    id: Id)
    requires CreatedFor(before, after, aliases, n, merchants, text, id)
    ensures id in after && CarriesLabel(before, after, n, text, id)
  {
    var taken :| LabelledWith(before, after, n, merchants, text, id, taken);
    var material := n.digest(if merchants then "csv:merchant" else "csv:category", n.collisionKey(text).value, id);
    hide ActiveKeys;
    if n.collisionKey(text).value in taken {
      var length :| after[id].text == Form(text, material, length)
          && ChosenLength(text, material, taken, n.collisionKey, length);
    }
  }

  /** An import creates no merchant but for the label of a row that it updates and whose merchant the user did not
  choose, and calls it by that label. */
  lemma NewMerchantsAreListed(
    s: Ledger, n: Naming, file: SourceFile, ids: seq<Id>, pending: set<Id>, after: Ledger, c: Counts, id: Id)
    requires ImportStep(s, n, file, ids, pending, after, c)
    requires id in after.tables.merchants && id !in s.tables.merchants
    ensures exists j :: 0 <= j < |file.rows|
              && Updates(s, file.key, file.rows[j].sourceKey) && !KeepsMerchant(s, file.rows[j].sourceKey)
              && CarriesLabel(s.tables.merchants, after.tables.merchants, n, file.rows[j].merchant, id)
              && n.collisionKey(file.rows[j].merchant).Some?
              && MerchantAlias(n.collisionKey(file.rows[j].merchant).value) in after.tables.aliases
              && after.tables.aliases[MerchantAlias(n.collisionKey(file.rows[j].merchant).value)] == id
  {
    hide CreatedFor, RowsAfter, TransactionsAfter, TablesAfter, Updates, KeepsMerchant, ClaimsAfter;
    assert EntitiesCreatedFor(s.tables, after.tables, n, MerchantLabels(s, file, |file.rows|),
                              CategoryLabels(s, file, |file.rows|));
    var text :| text in MerchantLabels(s, file, |file.rows|)
        && CreatedFor(s.tables.merchants, after.tables.merchants, after.tables.aliases, n, true, text, id);
    CreatedCarries(s.tables.merchants, after.tables.merchants, after.tables.aliases, n, true, text, id);
    CreatedAlias(s.tables.merchants, after.tables.merchants, after.tables.aliases, n, true, text, id);
    hide CarriesLabel;
  }

  lemma CreatedAlias(before: Table, after: Table, aliases: map<Alias, Id>, n: Naming, merchants: bool, text: string,
    id: Id)
    requires CreatedFor(before, after, aliases, n, merchants, text, id)
    ensures n.collisionKey(text).Some?
    ensures
      var alias := AliasOf(merchants, n.collisionKey(text).value);
      alias in aliases && aliases[alias] == id
  {
  }

  /** As for merchants, for categories. */
  lemma NewCategoriesAreListed(
    s: Ledger, n: Naming, file: SourceFile, ids: seq<Id>, pending: set<Id>, after: Ledger, c: Counts, id: Id)
    requires ImportStep(s, n, file, ids, pending, after, c)
    requires id in after.tables.categories && id !in s.tables.categories
    ensures exists j :: 0 <= j < |file.rows|
              && Updates(s, file.key, file.rows[j].sourceKey) && !KeepsCategory(s, file.rows[j].sourceKey)
              && CarriesLabel(s.tables.categories, after.tables.categories, n, file.rows[j].category, id)
              && n.collisionKey(file.rows[j].category).Some?
              && CategoryAlias(n.collisionKey(file.rows[j].category).value) in after.tables.aliases
              && after.tables.aliases[CategoryAlias(n.collisionKey(file.rows[j].category).value)] == id
  {
    hide CreatedFor, RowsAfter, TransactionsAfter, TablesAfter, Updates, KeepsCategory, ClaimsAfter;
    assert EntitiesCreatedFor(s.tables, after.tables, n, MerchantLabels(s, file, |file.rows|),
                              CategoryLabels(s, file, |file.rows|));
    var text :| text in CategoryLabels(s, file, |file.rows|)
        && CreatedFor(s.tables.categories, after.tables.categories, after.tables.aliases, n, false, text, id);
    CreatedCarries(s.tables.categories, after.tables.categories, after.tables.aliases, n, false, text, id);
    CreatedAlias(s.tables.categories, after.tables.categories, after.tables.aliases, n, false, text, id);
    hide CarriesLabel;
  }
}
