# moneyflow: import, analytics and bookmark model

This project models the parts of moneyflow where many branches touch shared state, and proves what
they promise together. Each module models one component; the module's header comment says what
it contains.

- **Bank CSV imports** (`MergeChains`, `CsvEntities`, `BankCsvImport`, `BankCsvRuns`,
  `BankCsvReference`). One import rewrites source rows with their dispositions, file membership,
  transactions and entity aliases. The program's two passes are methods over the four linked
  structures; `ImportStep` says what one completed import is. A declarative reference (the latest
  version of every file, minus what the user deleted, plus what the user protects) is refined over
  whole runs, and from it follows that after complete imports the present rows are exactly the union
  of the latest versions of all files.
- **Amazon imports** (`Ranking`, `AmazonReconcile`, `AmazonRuns`, `AmazonProfile`, `AmazonMaterialize`,
  `AmazonTaxonomy`, `AmazonHistory`, with further laws in `AmazonPairing`, `AmazonNaming` and
  `AmazonLedger`). The pairing passes are methods on sets, specified by ranks, so that independence
  of listing order, conservation, and the fixed point of repeated imports are statements about one
  relation. The materializer turns items into transactions and validates the profile; when that
  validation fails is stated on the input. Histories of imports and edits show that user fields survive
  retirement and restoration.
- **The import coordinator** (`ImportProtocol`, `ImportRequests`, `ImportCoordinator`). The protocol is a
  state machine whose steps are the critical sections; all properties hold in every interleaving. The
  class updates its fields as the program does, and each method is proved equal to a protocol step.
- **Periods, scopes and tables** (`Calendar`, `Periods`, `PeriodRanges`, `RangeLaws`, `QueryScope`,
  `ViewLaws`, `CrossTab`, `Rounding`, `Compositions`, `Totals`, `Aggregates`). Dates are those of the
  proleptic Gregorian calendar (section 3.2.1 of ISO 8601:2004), years 1 to 9999. Money is 64-bit minor
  units; wrap-around, checked additions and the 128-bit ratio are written out.
- **Order matching** (`AmazonMatching`, `AmazonMatchLaws`, `MatchingCache`). The passes over prebuilt
  indexes, and the revision cache while other parties write, create, remove and recreate profiles.
- **Hide toggles** (`HideToggle`), **bookmarks** (`Text`, `RowIdentity`, `ViewCodec`, `ViewState`,
  `ViewRoundTrip`, `BookmarkLaws`) and the **shutdown barrier** (`InstanceShutdown`).

Library functions enter as parameters with the property the program relies on: the collision key of a
label, hexadecimal digests (64 characters), the query encoder and parser (parsing reverses encoding of
known fields, and no encoding starts with a question mark), the UTF-8 test, compiled search expressions, and the
outcome of replaying and rebasing the journal. Clocks, random identifiers and loader answers are
parameters or events. Check the whole project with `dafny verify dfyconfig.toml`.

Four facts of the code differ from what one might expect, and the model follows the code:

- Importing the same Amazon rows twice may still update items in the second run.
  `AmazonRuns.SecondRunIsIdle` gives the exact condition under which it does not, a comparison of
  stored items and rows of equal fingerprint and rank; `AmazonRuns.SecondRunMayUpdate` gives an input
  where the condition fails, and from the third run on nothing changes.
- An Amazon import need not keep live transactions on active entities. After the user merged a
  product's merchant, a new item of that product takes the retired merchant, and the closing validation
  refuses the whole import (`AmazonHistory.MergedProductIsRefused`, with the input
  `AmazonHistory.MergedShopIsRefused`). `AmazonMaterialize.ReferencesStayActive` gives the exact
  condition, which can be read off the saved profile and the reconciled items.
- Label allocation gives a colliding label when the plain form and all 31 suffixes are taken;
  `MergeChains.AllocateLabel` says that it does so exactly then. A clash between two entities of one
  kind makes the validation of an Amazon import fail (`AmazonMaterialize.AcceptedExactly`).
- Decoding a bookmark restores a scoped view's granularity only when it was chosen;
  `ViewRoundTrip.DecodeInvertsEncode` gives the exact condition.

## Model

| member | source | states |
|---|---|---|
| MergeChains.ActiveDestination | internal/app/bankcsv_import.go:252-287 | The bounded walk along merge destinations finds an active entity exactly when a chain of retired entities leads to one, on cyclic tables as well: the loop bound never cuts a walk short. |
| MergeChains.ActiveDestinationOr | internal/app/amazon_import.go:433-480 | The Amazon walk returns the active end of the chain, and the fallback exactly when no chain reaches an active entity. |
| MergeChains.ActiveChainIsShort | internal/app/amazon_import.go:437-457 | A chain that ends in an active entity is no longer than the table: the pigeonhole fact behind the loop bound. |
| MergeChains.LeadsToUnique | internal/app/amazon_import.go:433-457 | Merge destinations lead an identifier to at most one active entity. |
| MergeChains.LeadsToMonotone | internal/app/amazon_import.go:433-457 | Adding entities never redirects an existing chain. |
| MergeChains.MergeRedirects | internal/replay/replay.go:435-461 | A user's merge redirects every chain that led to the merged entity, also through earlier merges, and leaves the end of every other chain. |
| MergeChains.AllocateLabel | internal/app/amazon_import.go:494-526 | The plain label if its collision key is free, else the shortest free digest suffix of 31, else the whole digest; the key clashes exactly when the plain form and all 31 suffixed forms are taken; it fails only on a form without a collision key. |
| CsvEntities.Entities.constructor | internal/app/bankcsv_import.go:209-235 | The importer starts with the saved tables, the labels of active entities reserved, and the proposed identifiers unused. |
| CsvEntities.Entities.Account | internal/app/bankcsv_import.go:237-250 | Finds or creates the account of a key; it fails exactly when a new account finds no proposed identifier, and changes only accounts and their aliases. |
| CsvEntities.Entities.Merchant | internal/app/bankcsv_import.go:252-287 | A label stands for the active end of its alias's merge chain; an unknown label adds one active merchant with the chosen label under the next proposed identifier; a dead alias, an exhausted list and an unnameable label are the only failures. |
| CsvEntities.Entities.Category | internal/app/bankcsv_import.go:289-327 | As for merchants, but the reserved label and a dead alias stand for Uncategorized, never for an error. |
| CsvEntities.Entities.RecordTransaction | internal/app/bankcsv_import.go:107 | Adds the row's transaction alias and nothing else. |
| CsvEntities.ResolutionIsStable | internal/app/bankcsv_import.go:252-327 | What a label stood for it still stands for after any entities were added. |
| CsvEntities.ResolutionIsUnique | internal/app/bankcsv_import.go:252-327 | A label stands for one merchant and for one category. |
| CsvEntities.LabelsStayDistinct | internal/app/bankcsv_import.go:277-286 | Active labels stay collision-free when an entity is added, whenever one of its label forms was free. |
| CsvEntities.AddingKillsNothing | internal/app/bankcsv_import.go:252-327 | Adding entities makes no label's merchant dead. |
| BankCsvImport.ImportRow | internal/app/bankcsv_import.go:110-127 | The transaction of an updated row: source notes and metadata always, source merchant and category unless overridden on a live transaction, every other field kept; a failure names the label, the dead merchant or the missing identifier. |
| BankCsvImport.AbsorbRowAt | internal/app/bankcsv_import.go:93-134 | One listed row: deleted rows and rows of other files are only counted, new rows are allocated, superseded rows restored, own rows updated; it takes the first-pass relation from i to i + 1 rows. |
| BankCsvImport.AbsorbRows | internal/app/bankcsv_import.go:88-135 | The whole first pass, proved against the relation on rows, transactions, tables and counters; a repeated or wrongly keyed row is refused. |
| BankCsvImport.SweepDropped | internal/app/bankcsv_import.go:136-164 | Supersedes exactly the present rows that the file stopped listing, no other file lists, and no user decision or pending edit shields; counts them and the shielded ones. |
| BankCsvImport.BuildImportPlan | internal/app/bankcsv_import.go:44-196 | Unchanged exactly for a complete file with the same digest and no force; a plan is one import step with an untouched journal and verified record counts; every refusal is justified by its stated cause. |
| BankCsvRuns.ImportKeepsLedgerValid | internal/app/bankcsv_import.go:44-196 | Every import takes saved state that passes the store's cross-checks to state that passes them: rows and live transactions correspond, identifiers are distinct, claims and aliases resolve, and live transactions have active merchants and categories. |
| BankCsvRuns.ReferencesStayLive | internal/app/bankcsv_import.go:110-127 | After an import every live transaction, written or kept, references an active merchant and an active category, whatever was merged before. |
| BankCsvRuns.OneTransactionPerPresentRow | internal/app/bankcsv_import.go:110-134 | The live transactions are exactly those of the present rows, one each. |
| BankCsvRuns.ImportConservesTransactions | internal/app/bankcsv_import.go:88-164 | Live transactions change by inserted plus restored minus superseded, and inserted plus duplicates is the number of listed rows. |
| BankCsvRuns.ImportRespectsUser | internal/app/bankcsv_import.go:110-164 | No import removes a transaction that is hidden, overridden or being edited, and none overwrites an overridden merchant or category. |
| BankCsvRuns.ListedRowsShow | internal/app/bankcsv_import.go:93-134 | A listed row that is new, comes back, or was this file's before shows in the ledger as listed: date, amount, notes and metadata, the merchant and category its labels stand for unless the user chose others, hidden only if it was; every other listed row stays as it was. |
| BankCsvRuns.NewMerchantsAreListed | internal/app/bankcsv_import.go:110-127 | An import creates a merchant only for the label of a row it updates and whose merchant the user did not choose, and calls it by that label: plainly when no other active merchant has its key, with a suffix when one had it before. |
| BankCsvRuns.NewCategoriesAreListed | internal/app/bankcsv_import.go:110-127 | The same for categories. |
| BankCsvReference.ImportFollows | internal/app/bankcsv_import.go:88-184 | One import changes claims, dispositions and user marks as the declarative reference says: latest version of every file, minus deletions, plus what the user shields. |
| BankCsvReference.RepeatedContentIsNoOp | internal/app/bankcsv_import.go:49-53 | For the reference, importing content that is already in place is the identity. |
| BankCsvReference.ShortcutMatchesForcedImport | internal/app/bankcsv_import.go:49-53 | A forced re-import of an unchanged file gives the same rows, dispositions, claims and live transactions, so the digest shortcut skips nothing. |
| BankCsvReference.RunFollowsReference | internal/app/bankcsv_import.go:44-196 | After every run of imports, overrides, hidings, deletions, merges and other table edits the ledger is valid and equals the reference. |
| BankCsvReference.UserStepKeepsLedgerValid | internal/replay/replay.go:435-461 | A merge retires one merchant or category, repoints its transactions and marks their rows; like every other user decision it keeps the ledger valid. |
| BankCsvReference.MergeRedirectsLabels | internal/app/bankcsv_import.go:252-287 | After a merge a source label that stood for the merged merchant stands for the other one, and every other label for what it stood for. |
| BankCsvReference.MergeMovesItsTransactions | internal/replay/replay.go:435-461 | A merge moves exactly the transactions of the merged merchant, marks exactly their rows as the user's own, and leaves everything else about transactions and rows as it was. |
| BankCsvReference.CategoryMergeMovesItsTransactions | internal/replay/replay.go:559-576 | The same for categories. |
| BankCsvReference.PresentIsUnionOfLatest | internal/app/bankcsv_import.go:44-196 | After any run of complete imports the present source keys are exactly the union of the latest version of every file. |
| AmazonReconcile.PairExact | internal/app/amazon_reconcile.go:124-157 | Pairs items and rows of equal fingerprints by rank and removes exactly the paired ones. |
| AmazonReconcile.PairSole | internal/app/amazon_reconcile.go:159-215 | Pairs one product when exactly one leftover item and one leftover row have it, and otherwise pairs nothing. |
| AmazonReconcile.PairAsinSingletons | internal/app/amazon_reconcile.go:159-190 | All products with an identifier that are unique among leftovers on both sides are paired, and only those. |
| AmazonReconcile.PairAsinLessSingleton | internal/app/amazon_reconcile.go:192-215 | The one leftover item and row without a product identifier are paired exactly when each is the only one. |
| AmazonReconcile.PairOrder | internal/app/amazon_reconcile.go:98-122 | Runs the passes in precedence order: exact active, exact retired, singletons with and without a product identifier; leftover rows come sorted. |
| AmazonReconcile.MatchPartitions | internal/app/amazon_reconcile.go:98-215 | Pairing is one to one; active items and rows are each either paired or left over, and only the second pass touches retired items. |
| AmazonReconcile.ExactIsMaximal | internal/app/amazon_reconcile.go:124-157 | A fingerprint pass never leaves an item and a row with equal fingerprints. |
| AmazonReconcile.ActiveBeforeRetired | internal/app/amazon_reconcile.go:116-121 | A retired item comes back only when every active item with its fingerprint is already paired. |
| AmazonPairing.EqualFingerprintsWin | internal/app/amazon_reconcile.go:98-157 | Active items with a fingerprint are kept by rows with that fingerprint as often as there are both, whatever products they name. |
| AmazonPairing.EqualFingerprintsPairInOrder | internal/app/amazon_reconcile.go:124-157 | Items with one fingerprint are paired with rows in the order of transactions, files and records. |
| AmazonPairing.OnlyOnesOfAProductPair | internal/app/amazon_reconcile.go:159-215 | Of what fingerprints left over, an active item is kept by a row of its product exactly when both are the only ones of that product, whatever else differs; an item and a row without a product likewise. |
| AmazonPairing.LeftoversHaveNothingInCommon | internal/app/amazon_reconcile.go:98-215 | A row becomes a new item only if no unpaired item of its order, active or retired, has its fingerprint, and no product is left once among the active items and once among the rows. |
| AmazonReconcile.ApplyPairs | internal/app/amazon_reconcile.go:52-65 | Writes each row into its item's slot, leaves other slots alone, and counts restored, updated and unchanged items. |
| AmazonReconcile.RetireLeft | internal/app/amazon_reconcile.go:66-72 | Retires and counts exactly the unmatched active items. |
| AmazonReconcile.InsertRows | internal/app/amazon_reconcile.go:73-85 | Leftover rows take the next proposed identifiers in order; it fails exactly when they run out. |
| AmazonReconcile.ReconcileOrder | internal/app/amazon_reconcile.go:48-86 | Takes the whole-export relation from a set of finished orders to one more order. |
| AmazonReconcile.Slots | internal/app/amazon_reconcile.go:34-43 | The stored items by transaction, none lost. |
| AmazonReconcile.ReconcileRows | internal/app/amazon_reconcile.go:24-96 | The reconciliation relates stored items, rows and the summary as specified per order, leaves orders that were not observed alone, and fails exactly when more identifiers are needed than proposed. |
| AmazonRuns.ActivePartition | internal/app/amazon_reconcile.go:48-72 | The active items of observed orders are exactly those kept and those retired. |
| AmazonRuns.RowPartition | internal/app/amazon_reconcile.go:48-85 | Every row of an observed order is matched or inserted, never both. |
| AmazonRuns.RunMirrorsRows | internal/app/amazon_reconcile.go:24-96 | After any run the active items of observed orders correspond one to one with the rows and hold exactly their facts. |
| AmazonRuns.RunConserves | internal/app/amazon_reconcile.go:24-96 | Active before plus inserted plus restored is active after plus retired; active after is inserted plus updated plus restored plus unchanged. |
| AmazonRuns.RunKeepsIdentities | internal/app/amazon_reconcile.go:48-91 | No stored identity is lost or duplicated, and inserted rows take the first proposed identifiers. |
| AmazonRuns.OneIdPerRowSuffices | internal/app/amazon_import.go:105-109 | Proposing one identifier per row never runs out. |
| AmazonRuns.MirrorIsQuiet | internal/app/amazon_reconcile.go:24-96 | Once the active items mirror the rows, the same rows insert, restore and retire nothing. |
| AmazonRuns.RepeatingReachesFixedPoint | internal/app/amazon_reconcile.go:24-157 | Importing the same rows repeatedly: from the second run nothing is inserted, restored or retired; from the third nothing is updated and the items are identical. |
| AmazonRuns.ListingOrderIsIrrelevant | internal/app/amazon_reconcile.go:24-157 | Permuting the stored items or the incoming rows changes nothing in the result. |
| AmazonRuns.SecondRunIsIdle | internal/app/amazon_reconcile.go:24-157 | Importing the same rows a second time updates nothing if and only if after the first import every item agrees in full with the row of equal fingerprint and rank in its order; nothing is inserted, restored or retired in any case. |
| AmazonRuns.SecondRunMayUpdate | internal/app/amazon_reconcile.go:124-157 | That condition can fail, and the bound of three runs is sharp: for two new rows with one fingerprint whose proposed identifiers sort the other way, the second run updates items. |
| AmazonMaterialize.Remember | internal/app/amazon_import.go:290-298 | Every item with a live transaction remembers that transaction's user fields; other items are untouched. |
| AmazonMaterialize.Provide | internal/app/amazon_import.go:322-356 | An external key that names an entity keeps it; an unknown one creates one active entity under the next proposed identifier with the chosen label; failures are an exhausted list or an unnameable label. |
| AmazonMaterialize.ResolveProviders | internal/app/amazon_import.go:314-357 | Every active item's order gets an account and its product a merchant, existing names are kept, and every new entity is called by the first active item that needed it: an account by the order number, a merchant by the product name, plain when its key was free and suffixed otherwise; it fails only when more new names are needed than proposed, or one cannot be labelled. |
| AmazonNaming.LabelsArePlainWhenFree | internal/app/amazon_import.go:494-526 | A new entity's label is plain unless another active entity has its key, and suffixed when one had it before; it is never anything but the text with or without a suffix. |
| AmazonNaming.OneMoreCalled | internal/app/amazon_import.go:319-356 | Creating an entity for the first active item that needs it keeps every new entity called by its item. |
| AmazonMaterialize.ChooseLocal | internal/app/amazon_import.go:371-394 | The user fields of an active item: a live transaction's own, with the merchant following the product only while it still was the provider's; else the remembered ones resolved through merges; else provider defaults. |
| AmazonMaterialize.WriteTransactions | internal/app/amazon_import.go:364-410 | Each active item gets its transaction and remembers its user fields; retired items are untouched. |
| AmazonMaterialize.DropRetired | internal/app/amazon_import.go:411-415 | Deletes exactly the transactions of items that were active and no longer are. |
| AmazonMaterialize.ReferencesStayActive | internal/app/amazon_import.go:358-421 | After materializing, every live transaction references an active account, merchant and category if and only if no active item takes its product's merchant, or its order's account, where the saved profile had retired it: a new item, a restored one whose remembered merchant leads nowhere, or a live one that still had its product's merchant. |
| AmazonMaterialize.AcceptedExactly | internal/app/amazon_import.go:421 | From a valid profile the closing validation accepts if and only if no active item takes a retired entity and no label clashes for want of a free suffix. |
| AmazonMaterialize.Materialize | internal/app/amazon_import.go:264-422 | The materialized profile: tables only grow, live transactions are those of active items plus unrelated ones; it is returned only if it is valid. Refusals are too few identifiers, an unnameable label, or an invalid result, the latter exactly as in AcceptedExactly. |
| AmazonProfile.ValidateCollisions | internal/domain/profile.go:375-388 | Accepts exactly tables whose active entities have different collision keys. |
| AmazonProfile.ValidateMerges | internal/domain/profile.go:390-402 | Accepts exactly tables where only retired entities were merged, each directly into another active one. |
| AmazonProfile.ValidateReferences | internal/domain/profile.go:219-234 | Accepts exactly profiles whose live transactions all reference active accounts, merchants and categories. |
| AmazonTaxonomy.InitializeTaxonomy | internal/app/amazon_import.go:211-262 | A first import gets the protected group and categories, and copies of another profile's open ones under the proposed identifiers in order; it fails exactly when too few were proposed or a category's group is not copied. |
| AmazonTaxonomy.CopyMemberships | internal/app/amazon_import.go:248-260 | Every copied category is put into the copy of its group, and it fails exactly when that group is not copied. |
| AmazonTaxonomy.InitializedIsValid | internal/app/amazon_import.go:211-262 | The taxonomy of a first import passes validation whenever the copied one did. |
| AmazonTaxonomy.ValidTaxonomyIsCopied | internal/app/amazon_import.go:211-262 | A valid taxonomy always has a copied group for every category, so only too few identifiers can refuse it. |
| AmazonHistory.LiveAreUnretired | internal/app/amazon_import.go:358-415 | After every import the live Amazon transactions are exactly those of unretired items, and every other transaction is untouched. |
| AmazonHistory.EditsSurvive | internal/app/amazon_import.go:371-405 | An item that stays active keeps the user's account, category, notes and visibility; its merchant changes only with its product and only if it still was the provider's. |
| AmazonHistory.RetireRestoreRoundTrip | internal/app/amazon_import.go:290-415 | Whatever imports and edits happen between retirement and restoration, the restored transaction has the same identifier and gets back its user fields, each reference resolved through merges made meanwhile. |
| AmazonHistory.ActiveReferencesComeBack | internal/app/amazon_import.go:389-394 | In a restoration every reference that is still active comes back unchanged. |
| AmazonHistory.RunKeepsSources | internal/app/amazon_reconcile.go:77-94 | Source identities stay unique, so the sorted listing of the result is well defined. |
| AmazonHistory.ImportNames | internal/app/amazon_import.go:317-357 | After every import each active item's order and product name an account and a merchant. |
| AmazonHistory.ProposalsSuffice | internal/app/amazon_import.go:105-123 | In such a state one account per observed order and one merchant per row are always enough. |
| AmazonHistory.UnmergedIsAccepted | internal/app/amazon_import.go:358-421 | While the merchant of every product and the account of every order are active, no import is refused for its references. |
| AmazonHistory.MergedProductIsRefused | internal/app/amazon_import.go:373-421 | After the user merged a product's merchant, any import that brings a new item of that product leaves a live transaction of a retired merchant and is refused. |
| AmazonHistory.MergedShopIsRefused | internal/app/amazon_import.go:373-421 | Such an input, before and after the merge: both profiles are valid, and only the merged one makes the same import fail. |
| AmazonHistory.ImportedTakesNothingRetired | internal/app/amazon_import.go:264-422 | A completed import gave no item a retired merchant or account. |
| AmazonLedger.RowsBecomeTransactions | internal/app/amazon_import.go:126-415 | After an import the ledger mirrors the export: the rows of the observed orders correspond one to one to the transactions of those orders' active items, each with its row's date, amount, currency and scale. |
| AmazonLedger.TransactionsShowItems | internal/app/amazon_import.go:395-404 | Every active item has its transaction, with the item's source identity, date, amount and currency and the user fields the item remembers. |
| AmazonLedger.NewItemsArePlain | internal/app/amazon_import.go:371-377 | The transaction of an item never stored before has the account of its order, the merchant of its product, no category, no notes, and is visible. |
| AmazonHistory.BuildImportPlan | internal/app/amazon_import.go:126-262 | Checks the settings, reconciles, copies a taxonomy on the first import, materializes and validates; a success is one step of the histories above. With the program's own proposal counts it is refused only for the settings, a taxonomy that cannot be copied, a row's label without a collision key, a journal that does not rebase, or, exactly then, an item that takes a retired entity or a label that clashes. |
| ImportProtocol.StepKeepsInv | internal/amazonimport/coordinator.go:51-349 | Every step of every interleaving keeps the invariant that ties attempt states, running work, locks, targets and staged files together. |
| ImportProtocol.AcknowledgedCancelNeverImports | internal/amazonimport/coordinator.go:142-237 | In every interleaving an attempt whose cancel was acknowledged never has its import called, before or after. |
| ImportProtocol.VersionNamesState | internal/amazonimport/attempts.go:39-66 | Equal versions of one attempt at any two moments of a run mean equal state and failure code. |
| ImportProtocol.CompleteExactlyWhenImported | internal/amazonimport/coordinator.go:294-314 | When its work has ended, an attempt is complete exactly when its import returned successfully. |
| ImportProtocol.OneImporterPerProfile | internal/amazonimport/coordinator.go:240-278 | At most one attempt or directory import per profile is running or holds the import lock, and it is the lock's holder. |
| ImportProtocol.ImportsHoldTheLock | internal/amazonimport/coordinator.go:142-278 | Whenever an import is called, the caller's target is open and it alone holds the profile's lock. |
| ImportProtocol.EndedAttemptsHoldNothing | internal/amazonimport/coordinator.go:335-356 | Every target is closed at most once, and an ended attempt holds neither lock nor target nor files. |
| ImportProtocol.CloseReleasesEverything | internal/amazonimport/coordinator.go:282-349 | After Close, once no work is left, all locks are free and every target ever opened is closed. |
| ImportRequests.AcceptedActsOnSeenState | internal/amazonimport/coordinator.go:87-237 | In every interleaving an accepted Stage, Execute or Cancel names the version its attempt has at that moment, so it acts on the state and failure its client saw whenever the client saw that version. |
| ImportRequests.StaleRequestChangesNothing | internal/amazonimport/attempts.go:47-66 | A request with another version than its attempt has is never accepted and changes nothing but the time of the attempt's last activity; an attempt that was idle for half an hour is given up instead. |
| ImportRequests.RequestAnswers | internal/amazonimport/coordinator.go:87-237 | The exact answers to a versioned request: invalid for an attempt that is not its profile's or was idle too long, stale for another version, and accepted exactly when the attempt can do what is asked. |
| ImportRequests.RefusalChangesNothing | internal/amazonimport/coordinator.go:87-237 | A refused request leaves every attempt, lock and profile as it was, up to the time of the last activity, unless it gave an idle attempt up. |
| ImportRequests.AcceptanceActs | internal/amazonimport/coordinator.go:87-237 | An accepted request changes its own attempt and its profile's lock as asked and no other attempt: staging takes the lock, executing begins to parse under the next version, canceling ends the attempt or asks its work to stop. |
| ImportRequests.ActivityIsRefreshed | internal/amazonimport/attempts.go:47-59 | Whatever finds an attempt, and every report of progress, begins its idle time anew. |
| ImportRequests.StartAnswers | internal/amazonimport/coordinator.go:51-84 | The exact answers to a start: closed, busy while the profile's attempt is alive, no identifier, or a fresh attempt that holds only its target. |
| ImportRequests.DirectoryExcludes | internal/amazonimport/coordinator.go:240-278 | A directory import goes on exactly when nobody imports into its profile, and then no staging in that profile is accepted. |
| ImportRequests.StateDiagram | internal/amazonimport/coordinator.go:51-332 | The state diagram of an attempt: a step moves it along a named edge, with the next version, exactly when it takes one; every other step leaves version, state and failure alone. |
| ImportRequests.EndsHaveCauses | internal/amazonimport/coordinator.go:294-326 | In every run an attempt fails exactly with an error that its parse, import or panic brought, and is canceled only after an accepted cancel or a canceled work; an accepted cancel always ends in the canceled state. |
| ImportRequests.WorkProceeds | internal/amazonimport/coordinator.go:115-196 | In every step the work on an attempt goes on as named and in no other order: from staging back to rest, from parsing to an install unless it failed or was canceled, from there to the import if the target has one, and to a stop with the outcome of what was done last. |
| ImportRequests.ImportIsCalled | internal/amazonimport/coordinator.go:182-195 | In every run the import of an attempt is called at most once, and exactly in a step that found an import in its target. |
| ImportRequests.StagingAnswers | internal/amazonimport/coordinator.go:115-139 | The exact answers when staging ends: closed, canceled, the error, or accepted files. |
| ImportRequests.ExecutionAnswers | internal/amazonimport/coordinator.go:294-314 | What a client is told when its execution ends agrees with the attempt: accepted exactly when it is complete, otherwise the error it failed with or a cancel. |
| ImportRequests.StatusAnswers | internal/amazonimport/coordinator.go:199-207 | A status is answered exactly for the profile's own attempt while it is not idle too long. |
| ImportCoordinator.Coordinator.Start | internal/amazonimport/coordinator.go:51-84 | Refused when closed or when the profile's attempt is still live; otherwise replaces an expired one by a new attempt in its first state. The new fields equal the protocol step; AcknowledgedCancelNeverImports, OneImporterPerProfile, CompleteExactlyWhenImported and CloseReleasesEverything say what runs of these steps guarantee. |
| ImportCoordinator.Coordinator.StageBegin | internal/amazonimport/coordinator.go:88-112 | Checks existence, version, state and lock, busy or unusable, then takes the lock; ImportRequests.RequestAnswers and AcceptanceActs say what each check answers and what an accepted request does. The new fields equal the protocol step; AcknowledgedCancelNeverImports, OneImporterPerProfile, CompleteExactlyWhenImported and CloseReleasesEverything say what runs of these steps guarantee. |
| ImportCoordinator.Coordinator.StageEnd | internal/amazonimport/coordinator.go:115-139 | Back under the mutex after staging: accepts the files, or releases what a close, a cancel or an error requires. The new fields equal the protocol step; AcknowledgedCancelNeverImports, OneImporterPerProfile, CompleteExactlyWhenImported and CloseReleasesEverything say what runs of these steps guarantee. |
| ImportCoordinator.Coordinator.ExecuteBegin | internal/amazonimport/coordinator.go:143-163 | Checks existence, version and readiness, then starts parsing; by ImportRequests.AcceptedActsOnSeenState an accepted request names the version the attempt has, and by StaleRequestChangesNothing another version is refused. The new fields equal the protocol step; AcknowledgedCancelNeverImports, OneImporterPerProfile, CompleteExactlyWhenImported and CloseReleasesEverything say what runs of these steps guarantee. |
| ImportCoordinator.Coordinator.UpdateProgress | internal/amazonimport/coordinator.go:328-333 | Progress keeps the attempt alive and changes neither state nor version. The new fields equal the protocol step; AcknowledgedCancelNeverImports, OneImporterPerProfile, CompleteExactlyWhenImported and CloseReleasesEverything say what runs of these steps guarantee. |
| ImportCoordinator.Coordinator.ParseEnd | internal/amazonimport/coordinator.go:169-181 | A parse that succeeded installs unless a cancel came first. The new fields equal the protocol step; AcknowledgedCancelNeverImports, OneImporterPerProfile, CompleteExactlyWhenImported and CloseReleasesEverything say what runs of these steps guarantee. |
| ImportCoordinator.Coordinator.ImportCall | internal/amazonimport/coordinator.go:182-188 | The import is called unless the target has no import boundary. The new fields equal the protocol step; AcknowledgedCancelNeverImports, OneImporterPerProfile, CompleteExactlyWhenImported and CloseReleasesEverything say what runs of these steps guarantee. |
| ImportCoordinator.Coordinator.ImportEnd | internal/amazonimport/coordinator.go:189-195 | Work stops with the import's outcome. The new fields equal the protocol step; AcknowledgedCancelNeverImports, OneImporterPerProfile, CompleteExactlyWhenImported and CloseReleasesEverything say what runs of these steps guarantee. |
| ImportCoordinator.Coordinator.FailPanickedAttempt | internal/amazonimport/coordinator.go:319-326 | A panic stops the attempt with an unmapped error and finishes it. The new fields equal the protocol step; AcknowledgedCancelNeverImports, OneImporterPerProfile, CompleteExactlyWhenImported and CloseReleasesEverything say what runs of these steps guarantee. |
| ImportCoordinator.Coordinator.Finish | internal/amazonimport/coordinator.go:294-314 | Concludes the attempt with its outcome and releases files, lock and target. The new fields equal the protocol step; AcknowledgedCancelNeverImports, OneImporterPerProfile, CompleteExactlyWhenImported and CloseReleasesEverything say what runs of these steps guarantee. |
| ImportCoordinator.Coordinator.Status | internal/amazonimport/coordinator.go:199-207 | Finds the attempt, expiring it when idle too long. The new fields equal the protocol step; AcknowledgedCancelNeverImports, OneImporterPerProfile, CompleteExactlyWhenImported and CloseReleasesEverything say what runs of these steps guarantee. |
| ImportCoordinator.Coordinator.Cancel | internal/amazonimport/coordinator.go:210-237 | Acknowledges a cancel in a cancelable state; running work keeps its lock until it stops; ImportRequests.RequestAnswers and AcceptanceActs say when and how. The new fields equal the protocol step; AcknowledgedCancelNeverImports, OneImporterPerProfile, CompleteExactlyWhenImported and CloseReleasesEverything say what runs of these steps guarantee. |
| ImportCoordinator.Coordinator.Close | internal/amazonimport/coordinator.go:282-292 | Refuses new work and cleans up every attempt that is not running. The new fields equal the protocol step; AcknowledgedCancelNeverImports, OneImporterPerProfile, CompleteExactlyWhenImported and CloseReleasesEverything say what runs of these steps guarantee. |
| ImportCoordinator.Coordinator.CleanupAttempt | internal/amazonimport/coordinator.go:335-342 | Drops files, lock and target of one attempt. The new fields equal the protocol step; AcknowledgedCancelNeverImports, OneImporterPerProfile, CompleteExactlyWhenImported and CloseReleasesEverything say what runs of these steps guarantee. |
| ImportCoordinator.Coordinator.ReleaseAttemptLock | internal/amazonimport/coordinator.go:344-349 | Frees the lock only if this attempt holds it. The new fields equal the protocol step; AcknowledgedCancelNeverImports, OneImporterPerProfile, CompleteExactlyWhenImported and CloseReleasesEverything say what runs of these steps guarantee. |
| ImportCoordinator.Coordinator.FindAttempt | internal/amazonimport/attempts.go:47-59 | Lookup by profile and identifier: an idle attempt is cleaned up and forgotten; the new fields equal the protocol's lookup, a part of every step StepKeepsInv is about. |
| ImportCoordinator.Coordinator.constructor | internal/amazonimport/coordinator.go:38-48 | A new coordinator is the initial state of the protocol, from which every run of the ImportProtocol theorems starts. |
| Calendar.DayNumberOrders | internal/domain/date.go:51-62 | The field-wise comparison of valid dates agrees with their day numbers, so equal day numbers mean equal dates. |
| Calendar.AddDaysIsExact | internal/domain/date.go:65-71 | Adding days is exact in day numbers and fails exactly when it would leave years 1 to 9999. |
| Calendar.AddMonthsIsExact | internal/domain/date.go:126-133 | Adding months lands in the right month on the same day or, if that is past it, the month's last day; it fails exactly when the month lies outside years 1 to 9999. |
| Periods.MatchingIsContainment | internal/analytics/filter.go:93-104 | Field-wise period matching equals membership in the period's calendar bounds. |
| Periods.NextPeriodFollows | internal/analytics/aggregate.go:312-347 | The next period starts the day after a period ends, and is missing exactly at the last supported day. |
| Periods.PeriodsBetween | internal/analytics/aggregate.go:292-310 | Terminates without failing on valid dates and lists every period from that of the first to that of the last date. |
| PeriodRanges.ValidatePeriods | internal/analytics/crosstab.go:99-109 | Accepts exactly frames of ordered, disjoint periods with at least one day each. |
| PeriodRanges.FrameIsDisjoint | internal/analytics/crosstab.go:99-109 | A date lies in at most one period of an accepted frame. |
| PeriodRanges.EnumerationPartitions | internal/analytics/ranges.go:289-312 | Enumerated periods cover exactly the days from the first start to the last end, each once. |
| PeriodRanges.ClippedPartitions | internal/analytics/ranges.go:289-323 | Clipped periods partition the bounds exactly and still form a frame. |
| PeriodRanges.ClipKeepsFrame | internal/analytics/ranges.go:315-323 | Clipping overlapping periods keeps them ordered and disjoint. |
| PeriodRanges.EnumeratePeriods | internal/analytics/ranges.go:289-312 | Never fails on valid bounds and lists every overlapping period, clipped on request. |
| PeriodRanges.TimeRows | internal/analytics/ranges.go:215-262 | The rows of a Time grouping are exactly the enumerated periods of its bounds and unit, clipped as the scope and a chosen unit require; they cover the bounds and stay within the scope. |
| PeriodRanges.ContextPeriods | internal/analytics/ranges.go:157-210 | The chart columns are exactly the enumerated periods of the context for each kind of scope; they cover the scope, and fail exactly when the first month or year would leave the supported years. |
| PeriodRanges.TrendPeriods | internal/analytics/ranges.go:325-357 | The twelve months that end with the trend's last day, absent when they end before the first transaction; it fails exactly when the first month is before year 1. |
| PeriodRanges.ComparisonIsOrdered | internal/analytics/ranges.go:359-434 | A comparison range starts on or before its last day. |
| PeriodRanges.ComparisonPrecedesScope | internal/analytics/ranges.go:359-434 | A comparison ends before its scope starts, and a custom scope is compared with as many days. |
| RangeLaws.ComparisonMeans | internal/analytics/ranges.go:359-434 | What each scope is compared with, in days: a day with the day before; a month with the month before, as many days of it as the month through today while the month is in progress and no more than it has, and all of it otherwise; a year with the year before through the same month and day, or all of it; another range with as many days right before it; all time with nothing. |
| RangeLaws.HeatmapMeans | internal/analytics/ranges.go:436-465 | The days a heatmap draws: the month of a day or a month, a year itself, the whole months of a range of at most 62 days, and 53 weeks that end with a longer range or the newest transaction. |
| RangeLaws.ContextMeans | internal/analytics/ranges.go:157-210 | The columns of a chart: the days of a day's month, the thirteen months that end with a month, at most ten years that end with a year and begin with the first transaction's, and another range's days, months or years, clipped to it and without gaps. |
| RangeLaws.TrendMeans | internal/analytics/ranges.go:325-357 | The trend is twelve consecutive months to that of today while the scope is in progress, of the scope's last day otherwise, or of the newest transaction; a month is absent exactly when it ended before the first transaction. |
| RangeLaws.TimeRowsMean | internal/analytics/ranges.go:215-287 | The rows of a Time grouping in the scope's own unit: days through today, months of a year through today, the clipped columns of another range, and for all time months, or years beyond sixty months. |
| RangeLaws.PartialWhileInProgress | internal/analytics/ranges.go:289-312 | A whole period is partial exactly while it is in progress, and never absent. |
| RangeLaws.ClippedArePartial | internal/analytics/ranges.go:315-323 | Clipping marks exactly the periods it cuts, and what was partial stays so. |
| RangeLaws.ScopeKinds | internal/analytics/ranges.go:89-102 | A scope is one day, one whole month, one whole year, another range or all time, exactly by its first and last day. |
| RangeLaws.MonthLengths | internal/domain/date.go:149-151 | Month lengths follow the Gregorian calendar: leap years are those divisible by 4, but of the centuries only those divisible by 400. |
| RangeLaws.ResolvedRangesMean | internal/analytics/ranges.go:106-130 | The same for what ResolveRanges returns: comparison, chart columns and trend of a view, in days. |
| PeriodRanges.CalendarDays | internal/analytics/insights.go:381-394 | The heatmap's days one by one, and none for a grouped view of more than a day. |
| PeriodRanges.ResolveRanges | internal/analytics/ranges.go:106-130 | Fails exactly on a reversed scope or a range outside the supported years; otherwise each range is the specified one and every frame passes the cross-tab's check; RangeLaws.ResolvedRangesMean says in days what those ranges are. |
| PeriodRanges.RangesFailByDates | internal/analytics/ranges.go:106-434 | That failure in dates: a reversed scope, or one that lies too early in the first two supported years for its comparison, context, trend or heatmap; the end of the supported years is never a reason. |
| QueryScope.EffectiveScope | internal/analytics/insights.go:273-306 | Folding time drill-downs into the scope preserves meaning: a transaction matches the query if and only if it matches the rewritten query and lies in the scope, with disjoint drill-downs matching nothing; the rewritten query leaves the date open, so charts can reach beyond the scope. |
| QueryScope.FilterTransactions | internal/analytics/filter.go:12-91 | Keeps exactly the transactions that match the query, in order; ViewLaws says what each filter and each drill-down keeps. |
| ViewLaws.DrillKeepsTheRow | internal/analytics/filter.go:73-91 | Drilling into a row of a merchant, category, group or account table keeps exactly the view's transactions of that currency, scale and key. |
| ViewLaws.DrillKeepsThePeriod | internal/analytics/filter.go:86-104 | Drilling into a period keeps exactly the view's transactions between its first and last day. |
| ViewLaws.DrilledViewShowsTheRow | internal/analytics/crosstab.go:141-213 | In every period the whole of a drilled view is the row's cell in the view it was drilled from. |
| ViewLaws.DrilledStatisticsAreTheRow | internal/analytics/statistics.go:16-69 | The statistics of a drilled view are the totals of the aggregate row that was drilled into. |
| ViewLaws.ViewIsNarrowedByItsFilters | internal/analytics/filter.go:41-66 | A view is everything narrowed by each filter of its query: dates, currency, search in merchant or category names, transfers, hidden ones in aggregate views, and drill-downs. |
| ViewLaws.HiddenAreLeftOut | internal/analytics/filter.go:57-59 | An aggregate view without hidden transactions is the view with them less the hidden ones; a detail view shows them either way. |
| ViewLaws.TransfersAreLeftOut | internal/analytics/filter.go:54-56 | A view without transfers is the view with them less those of the Transfers group. |
| ViewLaws.DatesNarrow | internal/analytics/filter.go:42-45 | A date range keeps exactly the view's transactions within it. |
| ViewLaws.CurrencyNarrows | internal/analytics/filter.go:46-71 | A currency scope keeps exactly the view's transactions in its currency and scale. |
| ViewLaws.SearchNarrows | internal/analytics/filter.go:49-53 | A search keeps exactly the view's transactions whose merchant or category name it finds. |
| ViewLaws.CellAddsVisibleMoney | internal/analytics/crosstab.go:196-213 | A cell counts its transactions with the hidden and pending ones among them, and its income, spending and net are the sums of the visible amounts received, spent, and in all. |
| QueryScope.FilterInsights | internal/analytics/insights.go:189-207 | Search matches, when given, replace the search expression. |
| QueryScope.ChartsShowTheTable | internal/analytics/insights.go:189-207 | Filtering by the rewritten query and then by the scope keeps exactly the table's transactions. |
| CrossTab.AddMinorIsExact | internal/analytics/crosstab.go:215-221 | The checked addition detects exactly the sums that leave 64 bits, although it compares after wrapping. |
| CrossTab.PeriodIndex | internal/analytics/crosstab.go:186-194 | Binary search finds the one period that holds the date, or proves there is none. |
| CrossTab.AddToFrame | internal/analytics/crosstab.go:141-213 | Adding a transaction to a frame succeeds exactly when the true totals still fit, and then the cells are the brute-force sums. |
| CrossTab.NewFrames | internal/analytics/crosstab.go:111-127 | Every frame starts as the table of no transactions. |
| CrossTab.AddTransaction | internal/analytics/crosstab.go:141-166 | One transaction added to every frame keeps all cells equal to the brute-force sums; a failure means some total does not fit. |
| CrossTab.ComputeCrossTab | internal/analytics/crosstab.go:62-96 | The one-pass table succeeds exactly when the specification is valid, the money is uniform and every period's true income and spending fit in 64 bits; then every cell is its brute-force sum. |
| CrossTab.CellSumIsOrderFree | internal/analytics/crosstab.go:141-166 | A brute-force cell does not depend on the order of the transactions. |
| CrossTab.OrderDoesNotMatter | internal/analytics/crosstab.go:62-81 | Success, failure and every number are independent of the order of the transactions. |
| CrossTab.KeysAddUp | internal/analytics/crosstab.go:169-176 | The cells of all keys add up to the cell of all transactions. |
| CrossTab.SeriesAddUp | internal/analytics/crosstab.go:169-176 | When every key is collected, the series of a period add up to its total. |
| CrossTab.NetFits | internal/analytics/crosstab.go:43-45 | The net of a cell whose parts fit cannot overflow. |
| CrossTab.NetsNeverOverflow | internal/analytics/crosstab.go:43-45 | In a finished table no net overflows. |
| Rounding.RatioIsExact | internal/analytics/aggregate.go:424-444 | The half-up ratio through 128 bits equals the exact rounded quotient, and fails only on a zero denominator or a result beyond 63 bits. |
| Rounding.RoundedIsNearest | internal/analytics/aggregate.go:424-444 | The rounded ratio is the nearest whole number, and of two equally near ones the larger. |
| Rounding.SharesAddUp | internal/analytics/aggregate.go:381-444 | The shares of k parts of a whole differ from 1000 tenths by at most k/2. |
| Rounding.AverageIsWithinHalf | internal/analytics/insights_summary.go:81-97 | The average per transaction fits in 64 bits and is the nearest to the exact quotient, ties away from zero, also at the smallest 64-bit net. |
| Compositions.ShareDenominator | internal/analytics/insights_summary.go:244-254 | The exact sum of magnitudes, or nothing exactly when it leaves 64 unsigned bits. |
| Compositions.AddNets | internal/analytics/insights_summary.go:256-274 | Nets of one sign are added exactly, or nothing exactly when the sum leaves 64 bits. |
| Compositions.Share | internal/analytics/insights_summary.go:205-228 | The share of a part never fails and is the rounded ratio. |
| Compositions.AppendOthers | internal/analytics/insights_summary.go:256-274 | The folded rows get one slice with their net and share; it fails exactly when their net does not fit. |
| Compositions.RankEntries | internal/analytics/insights_summary.go:205-242 | The seven largest rows keep a slice and the rest share one; it fails exactly when the denominator or the folded net overflows. |
| Compositions.ComposeEntries | internal/analytics/insights_summary.go:184-203 | Ranks the spending and the income rows apart and leaves out rows without a net; it fails exactly when a denominator or a folded net overflows. |
| Compositions.CompositionIsConsistent | internal/analytics/insights_summary.go:184-274 | A composition has at most eight slices, conserves the net, and its shares total 996 to 1004 tenths. |
| Compositions.OwnSlicesAreLargest | internal/analytics/insights_summary.go:231-242 | No folded row is larger than a row with its own slice. |
| Compositions.SlicesStandForAllRows | internal/analytics/insights_summary.go:205-274 | The slices stand for every row once: up to seven rows have slices of their own, and of more all but the first seven share one slice that says how many they are and adds up their nets. |
| Compositions.SidesAreStrict | internal/analytics/insights_summary.go:184-203 | A side shows rows of its own sign only, and every row with a net of that sign stands in its list. |
| Compositions.EqualRowsAreListedByName | internal/analytics/insights_summary.go:231-242 | Rows of equal magnitude are listed by name, and rows of equal names by key. |
| Compositions.CompositionAddsUp | internal/analytics/insights_summary.go:152-203 | In a computed table with every key collected, the spending and the income slices of a period add up to that period's net, folded slices included. |
| Compositions.Compositions | internal/analytics/insights_summary.go:152-180 | The composition of every period of a computed table ranks that period's rows and conserves its net; it fails exactly when in some period the sorted rows of one sign overflow a denominator or the folded net. |
| Totals.TotalNeverOverflows | internal/analytics/aggregate.go:53-66 | Adding to a row fails exactly when income or spending leaves 64 bits; the running total never overflows on its own. |
| Totals.MoneyAddIsExact | internal/domain/money.go:121-131 | The checked money addition fails exactly when the sum leaves 64 bits. |
| Aggregates.ActivityFits | internal/analytics/aggregate.go:128-135 | The activity overflow branch of merchants can never be taken: whenever a row's money fits, its category activities and their total fit in 64 unsigned bits. |
| Aggregates.Accumulate | internal/analytics/aggregate.go:93-136 | One accumulator per currency, scale and key with exactly its transactions, and for merchants the activity of every category name; it fails exactly when some row's true income or spending leaves 64 bits. |
| Aggregates.SetTopCategory | internal/analytics/aggregate.go:168-198 | The top category is the most active one, the first by name of equals, with its rounded percentage; an unnamed category only wins when there is no other, and no branch fails. |
| Aggregates.FinishRows | internal/analytics/aggregate.go:138-146 | The finished rows list every accumulator once, with its totals and top category. |
| Aggregates.Aggregate | internal/analytics/aggregate.go:77-151 | The whole grouping fails exactly when some row's true income or spending leaves 64 bits or a share denominator, summed over the true nets of one sign, leaves 64 unsigned bits; otherwise there is one row per currency, scale and key, with exact totals, share and top category. |
| Aggregates.AggregateSharesAddUp | internal/analytics/aggregate.go:77-151 | In every successful grouping the shares of the k rows of one currency, scale and sign differ from 1000 tenths by at most k/2. |
| Aggregates.SuccessIsOrderFree | internal/analytics/aggregate.go:77-151 | Whether a grouping succeeds does not depend on the order of the transactions. |
| Aggregates.AggregateOrderIsIrrelevant | internal/analytics/aggregate.go:77-151 | Two orders of the same transactions give the same rows: totals, shares, top categories and their percentages. |
| Totals.Statistics | internal/analytics/statistics.go:16-69 | Exact totals per currency and scale; it fails exactly when one of them leaves 64 bits. |
| Totals.RowsAddUpToStatistics | internal/analytics/statistics.go:16-69 | The aggregate rows of a currency and scale add up to its statistics under every grouping. |
| Totals.CollectDenominators | internal/analytics/aggregate.go:381-404 | The share denominators per currency, scale and sign, or nothing exactly when one leaves 64 unsigned bits. |
| Totals.ApplyShares | internal/analytics/aggregate.go:381-422 | Writes every row's share in place; it fails exactly when a denominator leaves 64 unsigned bits. |
| Totals.RowSharesAddUp | internal/analytics/aggregate.go:381-422 | The shares of the k rows of one currency, scale and sign differ from 1000 tenths by at most k/2. |
| AmazonMatching.DifferenceIsExact | internal/analytics/amazon_matching.go:355-371 | The difference of two amounts is exact, and an error exactly when its magnitude has no 64-bit representation. |
| AmazonMatching.ComputePower10 | internal/analytics/amazon_matching.go:344-353 | The power loop is the checked power of ten. |
| AmazonMatching.PassIsTotal | internal/analytics/amazon_matching.go:383-407 | The comparator orders the matches of a pass totally, so their sorted list is unique. |
| AmazonMatching.MatchItems | internal/analytics/amazon_matching.go:254-285 | The item matches of one order; an error exactly when some item's difference is unrepresentable. |
| AmazonMatching.RunPass | internal/analytics/amazon_matching.go:106-153 | One pass yields exactly the matches of its class; it fails exactly when some candidate's does. |
| AmazonMatching.MatchOrders | internal/analytics/amazon_matching.go:106-153 | The first of the three passes that finds anything decides, independently of the order of sources and items; an error in a pass that is reached is an error. |
| AmazonMatching.TotalAndDate | internal/analytics/amazon_matching.go:157-197 | Order total and earliest date, or an error exactly when a running total overflows; AmazonMatchLaws.IndexListsOrders says what both are for every candidate of an index. |
| AmazonMatchLaws.EarliestIsEarliest | internal/analytics/amazon_matching.go:180-182 | The earliest date is the date of some item, and no item is before it. |
| AmazonMatchLaws.IndexListsOrders | internal/analytics/amazon_matching.go:157-197 | An index has one candidate for every order of its source and no others; each lists exactly its order's items by identifier, with their sum and the earliest of their dates. |
| AmazonMatchLaws.OrderMatchesExactly | internal/analytics/amazon_matching.go:199-252 | An order that is no error matches exactly when it is at most seven days from the payment and costs the payment up to two cents, or in the fuzzy pass more by at most fifteen units or a tenth; a match is highly confident exactly within two days and less than a cent, and shows days, difference and the order's facts. |
| AmazonMatchLaws.ItemMatchesExactly | internal/analytics/amazon_matching.go:254-285 | An item that is no error matches exactly when it is at most seven days from the payment and costs the payment up to two cents; it is highly confident exactly within two days. |
| AmazonMatchLaws.OrderPassFindsQualifying | internal/analytics/amazon_matching.go:106-153 | An order pass without error finds exactly the qualifying orders in the payment's currency and scale. |
| AmazonMatchLaws.ItemPassFindsQualifying | internal/analytics/amazon_matching.go:106-153 | The item pass without error finds exactly the qualifying items of orders in the payment's currency and scale. |
| AmazonMatchLaws.FirstPassWithMatchesDecides | internal/analytics/amazon_matching.go:111-153 | Nothing is matched unless money was spent; then exact orders decide, without any fuzzy orders, without any exact items. |
| AmazonMatchLaws.MatchFailsExactly | internal/analytics/amazon_matching.go:106-153 | A match fails exactly when nothing may be shown, or when money was spent and a pass fails before any found something. |
| AmazonMatchLaws.ShownAreClosest | internal/analytics/amazon_matching.go:383-407 | The list shows as many matches as the limit allows, closest first by days and then by difference, and no match left out is closer than one shown; the total counts all. |
| AmazonMatching.CheckedTotalIsExact | internal/analytics/amazon_matching.go:157-197 | The checked total is the true total, and an error exactly when the true total of some first items leaves 64 bits. |
| AmazonMatching.IndexFailsExactly | internal/analytics/amazon_matching.go:157-197 | A source cannot be indexed exactly when, in some order, its items listed by identifier, the true total of some first items leaves 64 bits. |
| AmazonMatching.OrderFailsExactly | internal/analytics/amazon_matching.go:199-252 | An order pass errs exactly on a candidate inside the date window whose difference has no 64-bit representation, whose scale is too large for the tolerance, or, in the fuzzy pass, whose comparison of two outflows overflows. |
| AmazonMatching.ItemsFailExactly | internal/analytics/amazon_matching.go:254-285 | The item pass errs exactly on a scale too large for the tolerance or an item inside the date window whose difference has no 64-bit representation. |
| AmazonMatching.IndexOrders | internal/analytics/amazon_matching.go:157-197 | Groups a source into one candidate per order; it fails exactly when some order's running total overflows. |
| AmazonMatching.BuiltIndexesAreValid | internal/analytics/amazon_matching.go:157-197 | Freshly built indexes of different profiles are valid inputs of the passes. |
| MatchingCache.Service.CachedRevision | internal/app/amazon_matching.go:200-204 | The revision to send with a probe: zero or one the profile had; if the answer is that it is still current, the cached index is the fresh index of the current source. |
| MatchingCache.Service.CachedIndex | internal/app/amazon_matching.go:206-217 | An answered index is the fresh index of a source the profile had, at the asked revision or a later one; there is none exactly when nothing that new is cached. |
| MatchingCache.Service.IndexSource | internal/app/amazon_matching.go:242-279 | Yields the freshly built index of the snapshot, builds at most once per revision, and keeps every cached index right. |
| MatchingCache.Service.LoadOne | internal/app/amazon_matching.go:137-198 | Whatever the cache held, one load yields the index of the source that was current when the probe was answered, while others write, create and remove profiles; its effect on the cache is a run of the state machine. |
| MatchingCache.Service.LoadSources | internal/app/amazon_matching.go:137-198 | The loaded indexes are exactly the fresh indexes of the observed sources; profiles are used, skipped or failed for the stated reasons and every one is counted; the whole load is a run of the state machine. |
| MatchingCache.OutsideStepEvolves | internal/app/amazon_matching.go:137-198 | Writes, creations and removals by other parties during a load keep every source on record, which is what a load relies on. |
| MatchingCache.Service.EvictMissing | internal/app/amazon_matching.go:281-289 | Drops exactly the entries of profiles that are gone. |
| MatchingCache.Service.InvalidateDuring | internal/app/amazon_matching.go:300-313 | Recreating a profile inside the bracket leaves no stale index behind. |
| MatchingCache.Service.MatchBatch | internal/app/amazon_matching.go:95-135 | Nothing is loaded when no payment qualifies; otherwise a success gives every qualified payment what the three passes give over freshly built indexes of the sources observed, whatever the cache held; a refusal is a source that was read and cannot be indexed, or a pass over those fresh indexes that errs. |
| MatchingCache.LoadedAreValid | internal/app/amazon_matching.go:137-198 | Loaded indexes of different profiles are valid inputs of the passes. |
| MatchingCache.MatchAll | internal/app/amazon_matching.go:95-135 | Each qualified payment gets what the three passes give over the loaded indexes; the batch fails exactly when one of them does. |
| MatchingCache.MismatchedAreNotSearched | internal/app/amazon_matching.go:122-127 | An index is searched for a payment exactly when it is in the payment's currency and scale, and counted as mismatched otherwise. |
| MatchingCache.OthersAreCounted | internal/app/amazon_matching.go:137-198 | Every profile is either Amazon's or counted among the skipped others. |
| MatchingCache.CachedRevisionIsEnough | internal/app/amazon_matching.go:206-217 | In every reachable state of loads, writes, evictions, creations, removals and recreations, a cached index with the current revision is the fresh index of the current source; the loads, evictions and invalidations of the service are proved to be such steps. |
| HideToggle.FlipTargets | internal/app/mutation_preview_transactions.go:35-45 | Flips exactly the wanted targets of one toggle. |
| HideToggle.CanCancelHide | internal/app/hide.go:70-91 | True exactly when every target has an odd number of pending toggles. |
| HideToggle.BuildHideMutation | internal/app/hide.go:35-67 | Hides unless all targets are hidden; cancels exactly when the scope is uniform and every target is oddly toggled; otherwise toggles exactly the targets that must change. |
| HideToggle.DeleteTargets | internal/store/sqlite/cancel_hide.go:152-191 | Removes the targets from every toggle and the toggles left empty, and counts those. |
| HideToggle.Journal.CancelHide | internal/store/sqlite/cancel_hide.go:15-80 | Succeeds exactly on sorted targets that are all covered by active toggles, at the expected revision below the last one; then it forgets the redo tail, leaves the active journal without the targets and moves cursor and revision; every refusal leaves the journal as it was. |
| HideToggle.OddIsCovered | internal/app/hide.go:70-91 | The targets of a cancellation that the builder chose are covered, so the store never refuses them for lack of effect. |
| HideToggle.PreviewCancel | internal/app/mutation_preview_transactions.go:28-50 | The parity fold flips exactly the oddly toggled targets of the present rows. |
| HideToggle.CancellationIsParity | internal/app/mutation_preview_transactions.go:28-50 | For every journal prefix and target set, replaying without the targets gives the present state with the oddly toggled targets flipped. |
| HideToggle.PreviewIsReplay | internal/app/mutation_preview_transactions.go:28-50 | The preview of a cancellation is the replay of the journal the store leaves behind. |
| HideToggle.EveryTargetEndsAsPlanned | internal/app/hide.go:35-67 | Whichever branch is taken, after replay every requested target is hidden exactly when the plan says it hides. |
| HideToggle.ReplayMeans | internal/replay/replay.go:359-420 | A replay leaves every transaction that no operation deleted and hides it exactly when an odd number of toggles changed what it was; it fails exactly when an operation needs a transaction that is not there. |
| RowIdentity.ParseReversesEncode | internal/app/insights.go:242-266 | The length-prefixed parser inverts the encoder for every key, colons included. |
| RowIdentity.ParseAcceptsEncodings | internal/app/insights.go:242-266 | The parser accepts only encodings. |
| RowIdentity.IdentitiesAreDistinct | internal/app/insights.go:242-266 | Different rows have different identity texts. |
| ViewCodec.DateRoundTrip | internal/domain/date.go:30-39 | Parsing reverses formatting on valid dates. |
| ViewCodec.PeriodRoundTrip | internal/api/viewstate.go:456-488 | Parsing reverses formatting on valid periods. |
| ViewCodec.DrilldownRoundTrip | internal/api/viewstate.go:405-454 | Parsing reverses formatting on durable drill-downs, also when the key contains colons. |
| ViewCodec.CurrencyRoundTrip | internal/api/viewstate.go:433-443 | Parsing reverses formatting on valid currency scopes. |
| ViewCodec.SortRoundTrip | internal/api/viewstate.go:381-387 | Parsing reverses formatting when neither part contains a colon. |
| ViewCodec.AnchorRoundTrip | internal/api/viewstate.go:490-508 | Parsing reverses formatting on every depth of 64 bits. |
| ViewState.EncodeAnalytical | internal/api/viewstate.go:250-303 | The fields set step by step are exactly the canonical entries of the state: non-default values, and the granularity only where it is view state. |
| ViewState.EncodeDrilldowns | internal/api/viewstate.go:283-289 | Drill-downs are appended in order, and one that cannot be formatted fails the encoding. |
| ViewRoundTrip.FrameBack | internal/api/viewstate.go:107-130 | A return frame within bounds can be written, and reading the text back, kind, fields and state, gives the frame with its state in normal form. |
| ViewRoundTrip.FramesBack | internal/api/viewstate.go:107-130 | So does a list of frames of any length, in order. |
| ViewRoundTrip.DatesBack | internal/api/viewstate.go:155-170 | Both date bounds, or neither, are read back from the fields that encode a state. |
| ViewState.EncodeViewState | internal/api/viewstate.go:234-248 | Version and return frames join the current state's fields. |
| ViewState.DecodeAnalytical | internal/api/viewstate.go:140-232 | Reading the fields step by step equals the declarative reading: defaults, paired dates, flags, and the chosen granularity of scoped views. |
| ViewState.DecodeDrilldowns | internal/api/viewstate.go:202-208 | All drill-downs in order, or a refusal if one is malformed. |
| ViewState.DecodeTopLevel | internal/api/viewstate.go:96-138 | Accepts exactly allowed fields of the supported version whose state and frames are valid and within bounds. |
| ViewState.DecodeViewQuery | internal/api/viewstate.go:33-61 | The state a bookmark stands for and its canonical form, with every refusal of the parser, the validator and the length limits; ViewRoundTrip.CanonicalFormIsFixed and CanonicalFormNamesState say what the canonical form is good for. |
| ViewState.EncodeViewQuery | internal/api/viewstate.go:64-94 | The canonical bookmark, or the error the program distinguishes: too large, or invalid; ViewRoundTrip.DecodeReadsEncoding and DecodeInvertsEncode say what reading it gives back. |
| ViewRoundTrip.EncodingFailsOnlyOnLength | internal/api/viewstate.go:64-94 | A valid state within bounds fails to encode only when its text is too long. |
| ViewRoundTrip.DecodeReadsEncoding | internal/api/viewstate.go:33-94 | Decoding what was encoded, return frames included, gives the state's normal form and the same text. |
| ViewRoundTrip.DecodeInvertsEncode | internal/api/viewstate.go:250-303 | Decoding inverts encoding if and only if the state is in normal form: only scoped views have a chosen granularity, and one not chosen is the default. |
| ViewRoundTrip.CanonicalFormIsFixed | internal/api/viewstate.go:33-61 | Any accepted bookmark and its canonical form stand for the same normal-form state and canonical form. |
| ViewRoundTrip.CanonicalFormNamesState | internal/api/viewstate.go:33-61 | Two accepted bookmarks have one canonical form exactly when they stand for one state. |
| BookmarkLaws.PublishedBookmarks | internal/api/viewstate_test.go:22-102 | The bookmarks of the program's own tests, field by field: the default view is the version alone, and every other field says what is not the default. |
| BookmarkLaws.PublishedFormats | internal/api/viewstate_test.go:22-102 | The dates, drill-downs, currencies, anchors and sorts inside those bookmarks, character by character. |
| BookmarkLaws.FieldsMean | internal/api/viewstate.go:140-232 | What the fields of a bookmark mean: each field's reading and what stands for a field left out, the sort by mode and grouping included. |
| BookmarkLaws.DatesAreCanonical | internal/domain/date.go:30-39 | A text is read as a date if and only if it is the one form that date is written in. |
| BookmarkLaws.PeriodsAreCanonical | internal/api/viewstate.go:456-488 | The same for periods. |
| BookmarkLaws.CurrenciesAreCanonical | internal/api/viewstate.go:433-443 | The same for valid currency scopes. |
| BookmarkLaws.SortsAreCanonical | internal/api/viewstate.go:381-387 | The same for sorts. |
| BookmarkLaws.AnchorsAreCanonical | internal/api/viewstate.go:490-508 | The same for search anchors. |
| BookmarkLaws.DrilldownsAreCanonical | internal/api/viewstate.go:405-454 | A text read as a drill-down is what that drill-down is written as, so different texts never stand for one drill-down. |
| BookmarkLaws.FramesAreRead | internal/api/viewstate.go:107-130 | A text read as a return frame is its kind, a colon, and the fields of its state. |
| BookmarkLaws.KeepableViews | internal/api/viewstate.go:64-138 | The views that can be kept as bookmarks are exactly those of version 1 with at most six return frames, each state in them sound, within the length limits and made of UTF-8 texts. |
| BookmarkLaws.AcceptedBookmarksAreSound | internal/api/viewstate.go:33-138 | Whatever text was accepted, the state read from it is sound and bounded: known names, ordered dates, one drill-down per dimension in the view's currency, a sort its rows have, at most six frames, five drill-downs and the length limits; and the text was a version 1 bookmark of at most 65536 bytes, or empty. |
| BookmarkLaws.AcceptedFieldsStandOnce | internal/api/viewstate.go:96-138 | No accepted bookmark has an unknown field, or a field more often than it may stand. |
| InstanceShutdown.StepKeepsInv | moneyflow.go:346-373 | Every step of calls, supervisors, Close and shutdown keeps the invariant of locks, phases and supervisor sets. |
| InstanceShutdown.NothingRunsPastTheBarrier | moneyflow.go:369-372 | Once shutdown holds the catalog barrier, no catalog call runs and none ever runs again. |
| InstanceShutdown.EverySupervisorIsClosed | moneyflow.go:365-387 | From the moment shutdown collected supervisors, every supervisor ever created was dropped or is in the collected set. |
| InstanceShutdown.NoAdmissionAfterErrClosed | moneyflow.go:352-355 | After any call was answered ErrClosed, every API request is refused admission. |
| InstanceShutdown.BarrierExcludesCalls | moneyflow.go:369-372 | While shutdown has the barrier no catalog call has either side of the lock. |
| InstanceShutdown.CallsRunOrAreRefused | catalog.go:212-220 | A call that is over either ran, or was refused by a closed instance that admits no API request any more. |
| InstanceShutdown.ShutdownGoesOn | moneyflow.go:363-373 | A shutdown never gets stuck: until it has passed the barrier it can go on itself, or a call that has the lock can finish. |
| InstanceShutdown.DroppingForgets | tools.go:52-58 | Dropping forgets the profile's supervisor, records it, and keeps every other one. |
| InstanceShutdown.Instance.Supervisor | tools.go:35-48 | One supervisor per profile, none once closed. The new fields equal the step of the interleaving model; NothingRunsPastTheBarrier, EverySupervisorIsClosed and NoAdmissionAfterErrClosed say what its runs guarantee. |
| InstanceShutdown.Instance.DropSupervisor | tools.go:52-58 | Forgets exactly the profile's supervisor and hands it back for closing. The new fields equal the step of the interleaving model; NothingRunsPastTheBarrier, EverySupervisorIsClosed and NoAdmissionAfterErrClosed say what its runs guarantee. |
| InstanceShutdown.Instance.BeginClose | moneyflow.go:346-361 | Stops admission before the instance shows as closed; a second Close is refused. The new fields equal the step of the interleaving model; NothingRunsPastTheBarrier, EverySupervisorIsClosed and NoAdmissionAfterErrClosed say what its runs guarantee. |
| InstanceShutdown.Instance.CollectSupervisors | moneyflow.go:363-368 | Collects every supervisor present. The new fields equal the step of the interleaving model; NothingRunsPastTheBarrier, EverySupervisorIsClosed and NoAdmissionAfterErrClosed say what its runs guarantee. |
| InstanceShutdown.Instance.CheckOpen | catalog.go:212-220 | A call that holds its side of the lock runs only while the instance is open. The new fields equal the step of the interleaving model; NothingRunsPastTheBarrier, EverySupervisorIsClosed and NoAdmissionAfterErrClosed say what its runs guarantee. |
| InstanceShutdown.Instance.constructor | moneyflow.go:187-223 | A new instance is the initial state of the interleaving model, from which the runs of its theorems start. |

## Left out

- BankCsvImport.BuildImportPlan: timestamps, the label allocation records and the sorting of the saved lists are not modelled, and the journal's replay and rebase outcome is input data.
- BankCsvReference.ShortcutMatchesForcedImport: rows, dispositions, claims and live transactions are compared, not notes and metadata, because a forced import may refresh those when overlapping files disagree (internal/app/bankcsv_import.go:99-101).
- AmazonHistory.BuildImportPlan: label allocation records, item metadata and order-item identities are not modelled; whether the journal rebases is input data, and its rebased content is not modelled.
- AmazonMaterialize.Materialize: of the closing validation, the uniqueness of identifiers across kinds and of local external identities, and the required fields and currency of a transaction, are not modelled; identifiers are drawn at random and rows are validated by the parser.
- AmazonReconcile.ReconcileRows: returns the items as a set; the final sort by source identity is part of `AmazonHistory.BuildImportPlan`.
- Text keys that the Amazon code only compares (order and product identifiers, fingerprints, notes) are integers in the model.
- ImportCoordinator.Coordinator.Start: the target that a refused Start resolved and closes again is not modelled, and attempts are values in a map, not shared heap objects.
- ImportCoordinator.Coordinator.StageEnd: the stage directory is not modelled; the canceled branch leaves a directory that was just created (internal/amazonimport/coordinator.go:126-131).
- ImportProtocol.VersionNamesState: versions are unbounded, so their 64-bit wrap-around is not modelled.
- The import lock is one lock per profile; lock files, leases and two profiles that share a directory are not modelled.
- MatchingCache.Service.LoadSources: the service-wide load mutex is modelled by making a load one step with outside writes before and after it.
- MatchingCache.Service.MatchBatch: display names and the copy of the skip counts per payment are not modelled.
- Aggregates.Aggregate: the Time dimension's rows (internal/analytics/aggregate.go:200-262), labels, category groups, the pending count and the final sort order are not modelled.
- Comparison labels, heatmap layout names, cross-tab and period labels, indicators and the removal of empty context periods add only easy members.
- HideToggle.Journal.CancelHide: the ordinals of stored targets are their positions, so their renumbering is implicit; other journal operations are per-transaction effects that leave visibility alone.
- Percent-encoding and the text layout of query encodings are the library's; the model works on field maps.
- ViewState.EncodeDrilldowns: a time drill-down with an invalid period fails to format in the model; the program checks validity before it encodes, so the difference cannot be seen.
- InstanceShutdown.Instance.BeginClose: the thirty-second timeout, the setup coordinators and the closing of each supervisor after the barrier are not modelled.
- Provider clients, HTTP routing, storage, credentials, the terminal interface, duplicate grouping and export are outside the model.
