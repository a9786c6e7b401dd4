# Pawn-shop services: a verified model

A Dafny model of the multi-tenant pawn-shop backend and of the properties its services rely on.

The centre is the contract engine: assets, contracts and transactions of several tenants in one set of tables.
`Domain` holds the rows, `Engine` gives every service method as a function from the tables before to the tables after
and the reply, and runs of such steps. `Services` has the methods as the services write them, statement by statement on
a shared mutable `DataSource`; each is proved to do exactly what the function says. On top of that, over every run of
requests:

- `Outcomes`: when each request is accepted, the error of each refusal, and every row it writes, field by field.
- `Agreements`: in every run a contract is what its accepted requests say, and the dashboard follows them.
- `Frames`: which tables and rows each kind of step may write.
- `Integrity`: rows of different tables refer to each other properly; what `create` accepts; what only grows.
- `Isolation`, `TenantReads`: tenants do not affect each other, in rows, replies, quotes, lists and reports.
- `Pledge`: an asset backs at most one live contract, exactly as long as manual status writes are disciplined.
- `LedgerConservation`, `ExtensionChain`, `Lifecycle`: the ledger conserves money, extensions link up, contracts live legally.
- `Interest`, `Quotes`: rounding to days and months, splitting a period, settlement quotes along runs and over time.
- `Custody`, `Reports`: the inventory list against the custody count, grouped totals against the dashboard.
- `Issuance`, `ContractCodes`: the codes a run issues are gapless per month and never coincide.
- `Witnesses`: concrete runs from empty tables in which contracts come about and the failures below happen.

`SequenceProtocol` refines the number allocator to begin / lock / upsert / commit / abort events under any interleaving
(`Numbering` is shared with `Issuance`). Four smaller parts follow the code outside the engine: `Sql` and `Queries` (the
dynamic SQL builders and what their statements mean; `AssetColumns` ties them to the engine's asset rows), `ObjectKeys` (upload keys), `JwtPayload` (the base64url part of
`decodeJwt`) and `I18nKeys` (the locale parity script). `Text` has the string operations they share.

`dafny verify dfyconfig.toml` checks everything.

## How the model reads the source

- The services' vocabulary is used (`pawned`, `in_store`, `term`, one status per history row, `reference_transaction_id`)
  where the migrations disagree (docs/database-schema.md:11-15).
- Clock readings and generated keys are inputs of a step. A key that is already taken fails with `DuplicateKey` and
  changes nothing. Requests the validation pipe rejects (non-positive amounts, no assets, a rate above 100) change nothing.
- A field given as null is written as NULL (`notes`, the descriptive asset columns), one that is absent is left alone.
- `update`, `updateStatus`, `voidTransaction` and `assets.create` issue several statements without a database transaction;
  each is one atomic step here. `create` ends by reading through `dataSource` instead of `manager`
  (libs/contracts/src/contracts.service.ts:156); the model reads what was just written.
- A contract is live until it is settled, cancelled or liquidated, the statuses the customer list does not count as active
  (libs/customers/src/customers.service.ts:93).
- `assets.update` appears twice: on the engine's tables in `Services`, and as the loop that builds its SQL in `Queries`;
  `AssetColumns.UpdatesAgree` proves that the two change the same rows in the same way.
- In `SequenceProtocol` an upsert reads the committed row, as READ COMMITTED does; the lock hash is an arbitrary function, so
  collisions are included.
- Money is an exact real number. Instants are integers in milliseconds. `ILIKE` is an arbitrary relation between strings.

## What does not hold, and exactly when it does

- Manual status writes can release a pledged asset or revive a closed contract. `Pledge.StepExclusive` gives the condition
  under which one step keeps the pledge exclusive, `Pledge.RunExclusive` the same for whole runs;
  `Witnesses.ReleaseBreaksExclusivity` is a run that breaks it, after `Witnesses.ContractsComeAbout` has reached a live contract.
- `create` checks the assets before it takes the lock. Two creations that both pass the check on the same tables keep the
  pledge exclusive exactly when they name different assets (`Pledge.InterleavedCreations`);
  `Witnesses.InterleavedCreationsCollide` has two that do not.
- The same transaction can be voided any number of times, each void taking its amount off once more
  (`LedgerConservation.VoidingTwice`). A run takes every transaction off at most once exactly when no step of it is a void,
  under a fresh key, of a transaction that has been voided before (`LedgerConservation.StepAtMostOnce`,
  `LedgerConservation.RunAtMostOnce`); then a contract's net sum is that of the rows that still stand
  (`LedgerConservation.RunNetStands`). `Witnesses.SecondVoidAccepted` is a run with such a void. A request may also record rows
  of kind void or reversal itself; these carry positive amounts and are not corrections.
- A tenant is answered as it would be alone exactly when no key generated for its requests is that of another tenant's row
  (`Isolation.OwnStep`, `Isolation.TenantsDoNotInterfere`; a clash in `Witnesses.ClashIsNoticed`). The statement is about the
  services' own checks and primary keys. A foreign key on the referenced transaction, as the migration has one for `void_of_id`
  (apps/api-gateway/src/database/migrations/1700000006000-CreateTransactions.ts:24), is not part of this model: with it,
  `recordTransaction` naming another tenant's transaction id would be answered according to that tenant's rows.
- `getInventory` drops assets that were settled once and pledged again, since pledging does not clear `returned_at`; it agrees
  with the custody count exactly when there is none (`Custody.InventoryAgainstCustody`); `Witnesses.RepledgedIsNotListed` has one.
- The asset list joins contract links and its `total` does not: they agree exactly when no listed asset was linked twice
  (`Queries.AssetTotalCountsJoinedRows`, with such an asset in `Queries.TwiceLinkedIsListedTwice` and such links after the run of
  `Witnesses.RepledgedTables`).
- The parity script skips locale files that hold a falsy value such as `null`: it can exit with 0 although key sets differ,
  exactly when such a file lies beside one with keys (`I18nKeys.ParityVersusAgreement`, `I18nKeys.NullFilePasses`). Keys with
  dots and empty keys can make different trees look alike (`I18nKeys.UnplainKeysCollide`).
- A base64url segment whose length leaves one character over is not decoded (`JwtPayload.SegmentAcceptance`).

## Model

| member | source | states |
|---|---|---|
| Services.AssetsService.Create | libs/assets/src/assets.service.ts:22-63 | the new asset is pawned, its inventory row is in store at the given location, every other row and table is as before; the answer is that asset |
| Services.AssetsService.Update | libs/assets/src/assets.service.ts:143-190 | only the tenant's row with that id takes the supplied fields, nulls included; a request without fields writes nothing; the answer is the row afterwards or not-found |
| Services.AssetsService.UpdateStatus | libs/assets/src/assets.service.ts:192-207 | only the status and time of the tenant's row change; not-found otherwise with nothing changed |
| Services.ContractsService.UpsertSequence | libs/contracts/src/contracts.service.ts:96-104 | the row of the tenant, store and month is created at 1 or raised by one, and its new number returned |
| Services.ContractsService.GenerateContractCode | libs/contracts/src/contracts.service.ts:24-51 | takes the next number of the store's month and prints it; an unknown or foreign store changes nothing |
| Services.ContractsService.Validate | libs/contracts/src/contracts.service.ts:59-86 | the four checks in the source's order, with the error of the first that fails |
| Services.ContractsService.Create | libs/contracts/src/contracts.service.ts:53-158 | refuses as the checks say with nothing written; otherwise writes sequence, contract, links, assets, inventory and history together |
| Services.ContractsService.PledgeAssets | libs/contracts/src/contracts.service.ts:131-147 | the loop adds one link per id in order, and marks and receives exactly the tenant's assets among the ids, leaving returned_at alone |
| Services.ContractsService.Update | libs/contracts/src/contracts.service.ts:255-292 | a new due date is refused once any transaction exists; otherwise exactly the supplied fields change, notes also to NULL |
| Services.ContractsService.CountTransactions | libs/contracts/src/contracts.service.ts:262-271 | the count is positive exactly when the tenant's contract has a ledger row |
| Services.ContractsService.UpdateStatus | libs/contracts/src/contracts.service.ts:294-313 | any status may be written, with one history row |
| Services.TransactionsService.CheckStatus | libs/transactions/src/transactions.service.ts:38-52 | which statuses allow which kinds; adjustments, voids, reversals and extensions are not checked |
| Services.TransactionsService.ReleaseAssets | libs/transactions/src/transactions.service.ts:87-99 | exactly the assets the tenant's link rows of the contract name are redeemed and given back |
| Services.TransactionsService.Settle | libs/transactions/src/transactions.service.ts:77-100 | closes the contract with a history row and releases its assets, touching nothing else |
| Services.TransactionsService.RecordTransaction | libs/transactions/src/transactions.service.ts:23-109 | the status check by kind, one appended row, and for a settlement the closed contract, its history row, redeemed assets and returned inventory |
| Frames.StepFramed | libs/contracts/src/contracts.service.ts:53-313 | every kind of step writes only its tables, moves statuses and due dates of existing contracts only as allowed, and appends at most one ledger row of its kind |
| Services.TransactionsService.ExtendContract | libs/transactions/src/transactions.service.ts:164-235 | only active, near-due and overdue contracts; appends ledger and extension rows with the old due date and moves the contract to the new one |
| Services.TransactionsService.VoidTransaction | libs/transactions/src/transactions.service.ts:237-274 | appends the negated row of the original's store and contract; voids and reversals are refused |
| Services.TransactionsService.SumPaid | libs/transactions/src/transactions.service.ts:124-131 | the sum over exactly the interest and fee rows of the tenant's contract |
| Services.TransactionsService.CalculateSettlement | libs/transactions/src/transactions.service.ts:111-162 | its switch over the interest type gives the same interest as `calculateInterest` on that contract, and the quote built from it |
| Outcomes.RecordAnswer | libs/transactions/src/transactions.service.ts:31-52 | a transaction is recorded if and only if amount, owner, store, status and key are in order; the error of each refusal, and refusals write nothing |
| Outcomes.RecordWrites | libs/transactions/src/transactions.service.ts:54-74 | the one appended row equals the request field by field; only a settlement touches another table |
| Outcomes.SettlementWrites | libs/transactions/src/transactions.service.ts:77-100 | the contract closed, the history row, and asset by asset and shelf row by shelf row what is returned and what stays |
| Outcomes.ExtendAnswer | libs/transactions/src/transactions.service.ts:171-180 | an extension is granted if and only if payment, owner, store, status and key are in order; the error of each refusal |
| Outcomes.ExtendWrites | libs/transactions/src/transactions.service.ts:182-233 | the contract takes the requested date and status extended; one extension row with old date, requested date, interest and fee (0 when absent); the ledger row carries the interest paid |
| Outcomes.VoidAnswer | libs/transactions/src/transactions.service.ts:243-252 | a void is accepted if and only if the tenant has such a row that is no void or reversal and the key is fresh; the error of each refusal |
| Outcomes.VoidWrites | libs/transactions/src/transactions.service.ts:254-271 | the row negates the original's amount in its contract, store and payment method and refers to it |
| Outcomes.CreateAnswer | libs/contracts/src/contracts.service.ts:59-86 | a contract comes about if and only if bounds, store, customer, assets and key are in order; each refusal names the first demand that is not met |
| Outcomes.CreateWrites | libs/contracts/src/contracts.service.ts:107-156 | the stored row and the row in the reply carry the request's store, customer, principal, rate, type, dates and notes, its user as creator, and status active |
| Outcomes.CreatePledges | libs/contracts/src/contracts.service.ts:131-147 | exactly the requested assets are linked in their order, pawned and received |
| Outcomes.UpdateAnswer | libs/contracts/src/contracts.service.ts:255-271 | an update is accepted if and only if the contract is the tenant's and a new due date meets no transaction; the error of each refusal |
| Outcomes.UpdateWrites | libs/contracts/src/contracts.service.ts:273-292 | exactly the supplied fields of exactly that contract change |
| Outcomes.StatusOutcome | libs/contracts/src/contracts.service.ts:294-313 | the status asked for, in the row and in one history row, for the tenant's contract and no other |
| Outcomes.AssetCreateOutcome | libs/assets/src/assets.service.ts:22-63 | asset row, shelf row and reply, field by field |
| Outcomes.AssetUpdateOutcome | libs/assets/src/assets.service.ts:169-189 | column by column: a supplied value replaces the old one, nulls included; every other column, row and table stays |
| Outcomes.AssetStatusOutcome | libs/assets/src/assets.service.ts:192-207 | the status asked for, for the tenant's asset and no other |
| Outcomes.ContractShown | libs/contracts/src/contracts.service.ts:216-253 | a contract is shown with its customer and, each once, exactly its linked assets with their statuses |
| Outcomes.AssetShown | libs/assets/src/assets.service.ts:123-141 | an asset is shown with the contract of its earliest link |
| Outcomes.CodeAnswer | libs/contracts/src/contracts.service.ts:32-37 | a code is issued if and only if the store is the tenant's, and only the sequence table changes |
| Agreements.ContractsAreAsAgreed | libs/transactions/src/transactions.service.ts:219-224 | in every run a contract exists if and only if its creation was accepted, with that request's terms; its due date is that of the last accepted extension, dated update or creation, its notes and status the last accepted |
| Agreements.CreationRaisesOutstanding | libs/reports/src/reports.service.ts:55-59 | an accepted creation raises the tenant's outstanding principal by exactly the requested principal, and no other tenant's |
| Agreements.ClosingLowersOutstanding | libs/reports/src/reports.service.ts:55-59 | a settlement or extension takes the principal of an active contract off the outstanding sum |
| Integrity.CountingRowsChecksIds | libs/contracts/src/contracts.service.ts:75-81 | comparing row count with id count holds exactly when the ids are distinct and all lie in the tenant and store |
| Integrity.CreateAcceptance | libs/contracts/src/contracts.service.ts:59-86 | `create` passes its checks exactly when store and customer are the tenant's and the assets are distinct, in that store and not pawned |
| Integrity.CreateContractSound | libs/contracts/src/contracts.service.ts:107-154 | creating a contract keeps all references between tables intact |
| Integrity.SettleSound | libs/transactions/src/transactions.service.ts:77-100 | a settlement keeps all references between tables intact |
| Integrity.StepSound | libs/contracts/src/contracts.service.ts:53-313 | every step keeps referential integrity: owners, stores, unique ids, one inventory row per asset, no double links |
| Integrity.LinksStayWithinStore | libs/contracts/src/contracts.service.ts:132-147 | in every run each link joins an existing contract and asset of its own tenant and of one store |
| Integrity.StepGrows | libs/transactions/src/transactions.service.ts:54-74 | no step removes or rewrites a ledger, link, extension or history row, or changes a contract's terms |
| Integrity.RunGrows | libs/transactions/src/transactions.service.ts:54-74 | the same along every run: the ledger only grows by appending |
| Isolation.FindSeesOwnRows | libs/contracts/src/contracts.service.ts:216-253 | reading a contract or an asset gives the same answer on the tenant's own rows |
| Isolation.RefusalSeesOwnRows | libs/contracts/src/contracts.service.ts:59-86 | whether and why `create` refuses depends only on the tenant's rows |
| Isolation.RestrictSettle | libs/transactions/src/transactions.service.ts:77-100 | a settlement does to the tenant's rows what it would do alone, and nothing to another tenant's |
| Isolation.ClashedStep | libs/transactions/src/transactions.service.ts:54-73 | a generated key of another tenant's row is refused, where the tenant alone would have been served |
| Isolation.OwnStep | libs/transactions/src/transactions.service.ts:31-108 | the reply is the one the tenant would get alone if and only if the generated key clashes with no foreign row, and then its rows change as they would alone |
| Isolation.ForeignStep | libs/contracts/src/contracts.service.ts:255-313 | a step leaves every other tenant's rows as they were |
| Isolation.TenantsDoNotInterfere | libs/contracts/src/contracts.service.ts:58-157 | for any interleaving, a tenant's replies, errors of the services included, are those of its own requests run alone if and only if no generated key of them clashes with a foreign row, and then so are its final rows |
| TenantReads.ReadsSeeOwnRows | libs/reports/src/reports.service.ts:50-103 | quotes, inventory list, custody count, dashboard sum and store report are those of the tenant's own rows |
| Pledge.CreateExclusive | libs/contracts/src/contracts.service.ts:73-147 | run atomically, `create` keeps every asset with at most one live contract |
| Pledge.WriteExclusive | libs/contracts/src/contracts.service.ts:131-147 | the writes alone keep it exactly when none of the assets already backs a live contract |
| Pledge.InterleavedCreations | libs/contracts/src/contracts.service.ts:75-90 | two creations by any users at any times that passed the check on the same tables keep it exactly when their assets are disjoint |
| Pledge.SettleExclusive | libs/transactions/src/transactions.service.ts:77-100 | redeeming the assets of a settled contract never releases an asset of another live contract |
| Pledge.SetStatusExclusive | libs/contracts/src/contracts.service.ts:294-313 | a manual contract status keeps it exactly when it does not revive a contract whose assets are not free |
| Pledge.SetAssetStatusExclusive | libs/assets/src/assets.service.ts:192-207 | a manual asset status keeps it exactly when it does not release an asset of a live contract |
| Pledge.UpdateAssetExclusive | libs/assets/src/assets.service.ts:143-190 | the same for a status among the fields of an update |
| Pledge.StepExclusive | libs/contracts/src/contracts.service.ts:53-313 | from exclusive tables any step leaves exclusive tables if and only if it is disciplined |
| Pledge.RunExclusive | libs/contracts/src/contracts.service.ts:73-147 | a run is exclusive throughout if and only if its manual writes are disciplined throughout |
| Pledge.RunsFromScratchAreExclusive | libs/contracts/src/contracts.service.ts:73-147 | in disciplined runs from empty tables live contracts have pawned assets and no asset backs two |
| LedgerConservation.Conservation | libs/transactions/src/transactions.service.ts:254-271 | a contract's net sum is the sum over uncorrected rows of amount times one minus the number of its voids |
| LedgerConservation.StepExtends | libs/transactions/src/transactions.service.ts:54-74 | a step appends at most one row, and a correction of an earlier row exactly when it is a void |
| LedgerConservation.RunConserves | libs/transactions/src/transactions.service.ts:243-271 | conservation in every run from empty tables |
| LedgerConservation.NoVoidIsVoided | libs/transactions/src/transactions.service.ts:250-252 | every correction negates an earlier row that is no void or reversal, and is itself never corrected |
| LedgerConservation.VoidTakesOff | libs/transactions/src/transactions.service.ts:243-271 | a void under a fresh key is counted once more and takes the amount off the contract's net sum |
| LedgerConservation.VoidingTwice | libs/transactions/src/transactions.service.ts:243-271 | a second void of the same row is accepted and takes the amount off again |
| LedgerConservation.StepAtMostOnce | libs/transactions/src/transactions.service.ts:243-252 | after a step every transaction is voided at most once if and only if it was so before and the step is no fresh void of a voided transaction |
| LedgerConservation.RunAtMostOnce | libs/transactions/src/transactions.service.ts:243-271 | a run voids every transaction at most once if and only if none of its steps is such a void |
| LedgerConservation.RunNetStands | libs/transactions/src/transactions.service.ts:254-271 | in runs without such voids a contract's net sum is the sum of the rows neither written by a void nor voided |
| ExtensionChain.OtherStepsChained | libs/contracts/src/contracts.service.ts:262-271 | all steps but extensions keep the chain, because a due date is locked once a transaction exists |
| ExtensionChain.ExtensionsChainUp | libs/transactions/src/transactions.service.ts:182-224 | in every run each extension starts at the due date the one before ended with, and the last ends at the current one |
| Lifecycle.LifecycleLanguage | libs/transactions/src/transactions.service.ts:38-100 | without manual status writes: active, perhaps extended, perhaps settled; at most one settlement and no checked row after it |
| Lifecycle.RecordLives | libs/transactions/src/transactions.service.ts:38-52 | recording keeps every contract's life legal |
| Interest.CeilOfCeil | libs/contracts/src/contracts.service.ts:360-365 | rounding up to days and then to months is one rounding up |
| Interest.MonthsSingleCeiling | libs/contracts/src/contracts.service.ts:360-365 | months are the started spans of thirty days of the exact time |
| Interest.UnitsSplit | libs/contracts/src/contracts.service.ts:360-370 | adjoining periods count at least the units of the whole and at most one more |
| Interest.InterestSplit | libs/contracts/src/contracts.service.ts:352-374 | I(a,c) <= I(a,b)+I(b,c) <= I(a,c) plus one unit charge, for all three interest types |
| Interest.InterestMonotone | libs/contracts/src/contracts.service.ts:352-374 | interest is never negative and never falls as the date moves later |
| Quotes.QuoteNeverRises | libs/transactions/src/transactions.service.ts:124-152 | for a fixed date, along every run the remaining amount never rises and is never negative |
| Quotes.QuoteAddsUp | libs/transactions/src/transactions.service.ts:133-161 | total is principal plus interest plus fees, remaining the unpaid part of it or zero; interest is rate percent of the principal per started day, per started thirty days, or once |
| Quotes.PaidIsTotal | libs/transactions/src/transactions.service.ts:124-131 | already paid is the total of exactly the interest and fee rows of the tenant's contract |
| Quotes.QuoteGrowsWithTime | libs/transactions/src/transactions.service.ts:133-152 | for fixed tables the remaining amount never falls with a later date |
| Quotes.PaymentLowersQuote | libs/transactions/src/transactions.service.ts:124-152 | an interest or fee payment lowers the remaining amount by itself, down to zero; other kinds leave it |
| Custody.SettlementReturns | libs/transactions/src/transactions.service.ts:94-99 | a settlement marks as returned exactly the assets linked to its contract |
| Custody.RunReturns | libs/contracts/src/contracts.service.ts:142-145 | in every run returned_at is set exactly on assets a settlement returned; pledging again does not clear it |
| Custody.InventoryIsUnreturned | libs/assets/src/assets.service.ts:209-232 | the list holds, each once, exactly the pawned assets never returned by a settlement |
| Custody.InventoryAgainstCustody | libs/reports/src/reports.service.ts:99-103 | in every run the list is contained in the custody count, equally long exactly when no asset in custody was returned before |
| Reports.GroupsAddUp | libs/reports/src/reports.service.ts:310-321 | any column summed over the groups is its sum over the contracts in those stores |
| Reports.ActiveOnly | libs/reports/src/reports.service.ts:55-59 | the filtered dashboard sum is the CASE sum over all contracts |
| Reports.OutstandingMoves | libs/reports/src/reports.service.ts:55-59 | writing one contract moves the outstanding sum by exactly the difference it makes |
| Reports.StoreReportTotals | libs/reports/src/reports.service.ts:310-321 | active principal totals the dashboard, principal the table, and counts the number of contracts |
| Reports.GroupTotals | libs/reports/src/reports.service.ts:55-59 | in every run the report's active principal adds up to the dashboard's outstanding principal |
| Numbering.GaplessIncreasing | libs/contracts/src/contracts.service.ts:96-104 | in a gapless log the later number of a row is larger |
| SequenceProtocol.CommittedNumbersAreGapless | libs/contracts/src/contracts.service.ts:88-105 | under every interleaving and lock hash the committed numbers are 1 to last_seq, each once, in commit order |
| SequenceProtocol.OneTransactionPastTheLock | libs/contracts/src/contracts.service.ts:89-90 | two transactions of one store are never both past the lock |
| SequenceProtocol.Linearizable | libs/contracts/src/contracts.service.ts:24-50 | every interleaving is worth the atomic allocations of its committed transactions in commit order |
| SequenceProtocol.SomeoneCanProceed | libs/contracts/src/contracts.service.ts:26-27 | while a transaction is open some transaction can take its next step: no deadlock |
| ContractCodes.YearMonthHasSixDigits | libs/contracts/src/contracts.service.ts:92-93 | the month key has six digits |
| ContractCodes.YearMonthReads | libs/contracts/src/contracts.service.ts:92-93 | the month key reads as a hundred times the year plus the month, January being 1 |
| ContractCodes.FirstCodeOfJanuary | libs/contracts/src/contracts.service.ts:105 | the first code of store HN-1 in January 2026 is HN-1-202601-00001 |
| ContractCodes.ParsePrint | libs/contracts/src/contracts.service.ts:105 | reading a code from the right gives store code, month and number back, whatever dashes and widths occur |
| ContractCodes.PrintInjective | libs/contracts/src/contracts.service.ts:49 | two codes coincide exactly when store code, month and number do |
| Issuance.StepIssues | libs/contracts/src/contracts.service.ts:93-105 | a step writes the sequence table exactly when it issues the next number, and its reply prints that number |
| Issuance.RunIssuesGapless | libs/contracts/src/contracts.service.ts:96-104 | in every run the numbers per tenant, store and month are exactly 1 to last_seq in order |
| Issuance.CodesUnique | apps/api-gateway/src/database/migrations/1700000005000-CreatePawnContracts.ts:40 | with distinct store codes no two contracts of a tenant share a code, so the unique constraint never refuses |
| Issuance.IssuedCodesDiffer | apps/api-gateway/src/database/migrations/1700000002000-CreateStoresUsersRolesAssignments.ts:24 | two issued codes coincide only for two stores of one code; never while store codes are distinct |
| Sql.PagesCoverList | libs/contracts/src/contracts.service.ts:161-163 | the pages one after the other are the whole list: nothing lost, repeated or reordered |
| Sql.SelectExtends | libs/audit/src/audit.service.ts:94-107 | parameters appended for limit and offset, or cut off again, do not change what the conditions select |
| Sql.AssignPush | libs/assets/src/assets.service.ts:169-175 | pushing `column = $k` with its value overrides that column and no other |
| Queries.BuildContractFilter | libs/contracts/src/contracts.service.ts:165-194 | every placeholder is bound, and the clause is the conjunction of exactly the supplied filters |
| Queries.WantedContracts | libs/contracts/src/contracts.service.ts:165-192 | which column each search field constrains and how; absent and empty fields constrain nothing |
| Queries.JoinedColumns | libs/contracts/src/contracts.service.ts:203-206 | which customer column each joined column shows, NULL without a customer, the rest untouched |
| Queries.FindContracts | libs/contracts/src/contracts.service.ts:160-214 | total counts the wanted rows and data is the requested page of them joined with their customers' columns |
| Queries.ContractPagesCoverTotal | libs/contracts/src/contracts.service.ts:196-211 | the pages together are the whole joined list, of length total |
| Queries.BuildAuditFilter | libs/audit/src/audit.service.ts:57-89 | the same for the audit filter |
| Queries.WantedEntries | libs/audit/src/audit.service.ts:60-87 | which column each search field constrains and how |
| Queries.QueryAudit | libs/audit/src/audit.service.ts:53-132 | the count on the shortened parameter list and the page agree on the same wanted entries |
| Queries.BuildAssetFilter | libs/assets/src/assets.service.ts:73-95 | the same for the asset filter, one parameter serving three columns |
| Queries.WantedAssets | libs/assets/src/assets.service.ts:73-93 | which column each search field constrains; one text searches three columns |
| Queries.FindAssets | libs/assets/src/assets.service.ts:65-121 | total counts the wanted assets, data is the page of their rows joined with contract links |
| Queries.AssetTotalCountsJoinedRows | libs/assets/src/assets.service.ts:99-115 | the joined list has at least total rows, and exactly total when no listed asset was linked twice |
| Queries.TwiceLinkedIsListedTwice | libs/assets/src/assets.service.ts:104 | an asset with two links is counted once and listed twice |
| Queries.EveryFieldReachesItsColumn | libs/assets/src/assets.service.ts:152-167 | every field a request carries reaches its own column, never id, tenant or time |
| Queries.BuildAssetUpdate | libs/assets/src/assets.service.ts:169-179 | the loop binds every placeholder, and the SET list overrides exactly the supplied columns |
| Queries.UpdateAsset | libs/assets/src/assets.service.ts:143-190 | exactly the row with this id and tenant is overridden with the request; every other row is untouched |
| AssetColumns.UpdatesAgree | libs/assets/src/assets.service.ts:143-190 | for every request each row of the engine's asset table changes exactly as the built statement changes it |
| AssetColumns.ColumnsAreSnakeCase | libs/assets/src/assets.service.ts:152-167 | every field goes to the column of its own name in snake case |
| Queries.BuildContractUpdate | libs/contracts/src/contracts.service.ts:273-284 | every placeholder is bound, the first two parameters are tenant and id, and the SET list amends exactly notes, due date and time |
| Queries.UpdateContract | libs/contracts/src/contracts.service.ts:286-289 | exactly the tenant's contract takes the given notes and due date |
| ObjectKeys.SanitisedIsPlain | libs/files/src/files.service.ts:36 | a sanitised name has only plain characters, and plain names are left alone |
| ObjectKeys.SanitisedAt | libs/files/src/files.service.ts:36 | exactly the characters outside letters, digits, dot, underscore and dash become underscores |
| ObjectKeys.StripsOnlyTimestamp | libs/files/src/files.service.ts:68 | only the timestamp is stripped, also before a name that starts with digits and a dash |
| ObjectKeys.KeepsOtherNames | libs/files/src/files.service.ts:68 | a name that does not begin with digits and a dash is left alone |
| ObjectKeys.SplitKey | libs/files/src/files.service.ts:37 | a generated key has exactly its five parts |
| ObjectKeys.KeyRoundTrip | libs/files/src/files.service.ts:59-68 | confirming a generated key recovers entity type, entity id and sanitised name, for every file name |
| ObjectKeys.AcceptedTokens | libs/files/src/files.service.ts:54-63 | a token is accepted exactly when it has five parts beginning with `tenants` and the tenant id |
| ObjectKeys.DropsOneFinalS | libs/files/src/files.service.ts:67 | exactly one final s is dropped, and a word without one is left alone |
| ObjectKeys.ConfirmReads | libs/files/src/files.service.ts:59-68 | what any token of the tenant is read as, also when the file name holds slashes |
| ObjectKeys.TokensBelongToOneTenant | libs/files/src/files.service.ts:54-57 | no token is accepted for two tenants |
| ObjectKeys.FilesService.RequestUploadUrl | libs/files/src/files.service.ts:28-47 | a key only for an entity of the tenant, with the URL signed for it and its lifetime |
| ObjectKeys.FilesService.ConfirmUpload | libs/files/src/files.service.ts:49-103 | one complete row of the caller's tenant under the confirmed key; a refused token or repeated key adds nothing |
| ObjectKeys.FilesService.Delete | libs/files/src/files.service.ts:149-169 | deletes only that row, and only if it is the caller's tenant's |
| JwtPayload.NormalisedIsStandard | apps/web/contexts/auth.tsx:49-50 | for every byte string, swap and padding turn base64url into exactly the padded base64 |
| JwtPayload.AtobInvertsEncoding | apps/web/contexts/auth.tsx:51 | decoding padded base64 gives the bytes back |
| JwtPayload.TestVectors | apps/web/contexts/auth.tsx:49-51 | both encodings on a vector of RFC 4648 and on bytes where the alphabets differ |
| JwtPayload.PayloadRoundTrip | apps/web/contexts/auth.tsx:46-51 | for every header, payload and signature the payload bytes are recovered from the token; an empty payload is given up |
| JwtPayload.SegmentAcceptance | apps/web/contexts/auth.tsx:46-51 | a segment in the base64url alphabet is decoded exactly when its length is not one over a multiple of four |
| I18nKeys.FlattenKeys | scripts/i18n-check.mjs:33-44 | the recursive loop lists the keys in member order with the prefix accumulated |
| I18nKeys.FlattenPrintsPaths | scripts/i18n-check.mjs:33-44 | the prefix accumulator prints every leaf path, joined with dots, in order |
| I18nKeys.KeysAreLeafPaths | scripts/i18n-check.mjs:33-44 | with non-empty dot-free keys every leaf path is listed exactly once and nothing else is |
| I18nKeys.SameKeysSameShape | scripts/i18n-check.mjs:33-44 | two trees have the same keys exactly when they have the same shape after pruning empty objects |
| I18nKeys.UnplainKeysCollide | scripts/i18n-check.mjs:36 | a dot in a key, or an empty key, lets different trees have the same keys |
| I18nKeys.LoadLocales | scripts/i18n-check.mjs:52-69 | absent and unparsable files count as one missing each and hold no data |
| I18nKeys.CollectKeys | scripts/i18n-check.mjs:71-77 | exactly the truthy locales get a key set, that of their entries |
| I18nKeys.CheckFolder | scripts/i18n-check.mjs:49-117 | the missing and extra counts of a folder, against vi as the reference |
| I18nKeys.NothingCounted | scripts/i18n-check.mjs:79-116 | nothing is counted exactly when all files are readable and the compared ones agree with vi |
| I18nKeys.FewerKeysAreMissing | scripts/i18n-check.mjs:95-113 | a locale with fewer keys than vi is reported as missing them and nothing as extra |
| I18nKeys.CheckParity | scripts/i18n-check.mjs:46-131 | exits with 0 exactly when every folder is in parity; for objects of plain keys, when their pruned shapes agree |
| I18nKeys.ParityVersusAgreement | scripts/i18n-check.mjs:74-93 | the files agree exactly when the folder is in parity and no falsy file lies beside one with keys |
| I18nKeys.NullFilePasses | scripts/i18n-check.mjs:90-93 | a `null` file beside files with keys passes |
| Witnesses.BornPawned | libs/contracts/src/contracts.service.ts:82-85 | an asset as it is born cannot be pledged |
| Witnesses.ContractsComeAbout | libs/contracts/src/contracts.service.ts:53-158 | take in, release by hand, pledge: a run from empty tables reaches a live contract, exclusively pledged |
| Witnesses.ReleaseBreaksExclusivity | libs/assets/src/assets.service.ts:192-207 | one more manual release breaks the pledge |
| Witnesses.InterleavedCreationsCollide | libs/contracts/src/contracts.service.ts:75-90 | after a run, two creations that both passed the check leave one asset backing two live contracts |
| Witnesses.RepledgedTables | libs/contracts/src/contracts.service.ts:132-147 | a run settles a contract and pledges its asset again: two links, and returned_at still set |
| Witnesses.RepledgedIsNotListed | libs/assets/src/assets.service.ts:209-232 | after that run the asset is in custody and the inventory list is empty |
| Witnesses.ExtendedContractsSettle | libs/transactions/src/transactions.service.ts:48-51 | a run extends a contract to a later date, collects interest on it and settles it |
| Witnesses.SecondVoidAccepted | libs/transactions/src/transactions.service.ts:243-271 | a run voids one settlement twice |
| Witnesses.ClashIsNoticed | libs/assets/src/assets.service.ts:29-52 | a generated key that names another tenant's asset shows in the reply |

## Left out

- Controllers, guards, modules, the error filter, role tables, React pages, sessions, Flutter and native runners.
- PostgreSQL, MinIO, bcrypt, JWT signing and hashing: only the effect of each SQL statement is kept.
- Foreign keys as failing inserts, and unique constraints other than primary keys and `object_key`: the model proves instead that contract codes and links never repeat.
- Interleavings of statements of different requests, except for the number allocator and two concurrent creations.
- Floating point and time zones: amounts are exact, instants are milliseconds, and the calendar month is an input.
- The order of rows with equal `created_at`: lists follow one fixed table order.
- Steps that add or rename stores and customers: both tables are fixed during a run.
- `applyStoreFilter`, dated and store-restricted reports, and the dashboard's other counters.
- The refresh-token flow and `JSON.parse` in `decodeJwt`; what the decoded claims must contain.
- Surrogate pairs: characters are Unicode scalars, where JavaScript's replace works on UTF-16 units.
- Console output of the parity script; only counts and exit status are modelled.
- NOT NULL columns: a null status, asset type, asset name or due date makes the database refuse the statement, which then changes nothing; such requests are not steps.
- Services.AssetsService.Create: does not name the descriptive columns one by one, because nothing in the engine reads them; they are one map from column to value or NULL.
- Services.AssetsService.Update: does not refuse a null in the asset type or name, because NOT NULL columns are not modelled.
- Services.ContractsService.Update: does not take a null due date, because the column refuses NULL.
- Isolation.TenantsDoNotInterfere: does not cover refusals by foreign keys, because constraints other than keys are not modelled.
- Isolation.OwnStep: does not cover refusals by foreign keys, for the same reason.
- SequenceProtocol.SomeoneCanProceed: does not promise that a particular waiting transaction gets the lock, because the database's queueing is not modelled.
