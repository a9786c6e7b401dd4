/**
 What each request is answered and what it leaves behind, said of the request, the tables before and the
 tables after alone: when it is accepted, the error of each refusal, and every row it writes field by field.
 */
module Outcomes {
  import opened Domain
  import opened ContractCodes
  import opened Engine
  import opened Integrity

  // ---------------------------------------------------------------- what requests ask of the tables

  ghost predicate OwnStore(db: Db, tenant: Id, store: Id) {
    store in db.stores && db.stores[store].tenant == tenant
  }

  ghost predicate OwnCustomer(db: Db, tenant: Id, customer: Id) {
    customer in db.customers && db.customers[customer].tenant == tenant
  }

  ghost predicate OwnAsset(db: Db, tenant: Id, asset: Id) {
    asset in db.assets && db.assets[asset].tenant == tenant
  }

  ghost predicate OwnContract(db: Db, tenant: Id, contract: Id) {
    contract in db.contracts && db.contracts[contract].tenant == tenant
  }

  ghost predicate OwnContractAt(db: Db, tenant: Id, store: Id, contract: Id) {
    OwnContract(db, tenant, contract) && db.contracts[contract].store == store
  }

  ghost predicate FreshRow(db: Db, id: Id) {
    forall r | r in db.ledger :: r.id != id
  }

  ghost predicate Entered(db: Db, tenant: Id, contract: Id) {
    exists r | r in db.ledger :: r.contract == contract && r.tenant == tenant
  }

  lemma KeyIsFresh(db: Db, id: Id)
    ensures HasRowId(db.ledger, id) <==> !FreshRow(db, id)
  {
    if !FreshRow(db, id) {
      var r :| r in db.ledger && r.id == id;
      var i :| 0 <= i < |db.ledger| && db.ledger[i] == r;
    }
  }

  lemma TransactionsAreEntered(db: Db, tenant: Id, contract: Id)
    ensures HasTransactions(db.ledger, tenant, contract) <==> Entered(db, tenant, contract)
  {
    if Entered(db, tenant, contract) {
      var r :| r in db.ledger && r.contract == contract && r.tenant == tenant;
      var i :| 0 <= i < |db.ledger| && db.ledger[i] == r;
    }
  }

  lemma LinkedBy(links: seq<Link>, tenant: Id, contract: Id, asset: Id)
    ensures asset in LinkedAssets(links, tenant, contract) <==> Link(tenant, contract, asset) in links
  {
  }

  // ---------------------------------------------------------------- recordTransaction

  /** Which contract statuses admit which kinds of transaction. */
  predicate Admits(status: ContractStatus, kind: TransactionType) {
    match kind
    case Disbursement => status == Draft || status == Active
    case InterestCollection | FeeCollection | PartialPrincipal | Settlement =>
      status == Active || status == NearDue || status == ContractStatus.Overdue || status == Extended
    case _ => true
  }

  /** A transaction is recorded exactly when amount, contract, store, status and key are in order; each refusal has its error. */
  lemma RecordAnswer(db: Db, s: Step)
    requires s.TransactionRecord?
    ensures var (db', reply) := Apply(db, s);
            var dto := s.record;
            var own := OwnContractAt(db, s.tenant, s.store, dto.contract);
            && (reply.Recorded? <==>
                dto.amount > 0.0 && own && Admits(db.contracts[dto.contract].status, dto.kind) && FreshRow(db, s.newId))
            && (!reply.Recorded? ==> db' == db && reply.Failed?)
            && (dto.amount <= 0.0 ==> reply == Failed(InvalidRequest))
            && (dto.amount > 0.0 && !own ==> reply == Failed(ContractNotFound))
            && (dto.amount > 0.0 && own && !Admits(db.contracts[dto.contract].status, dto.kind) ==>
                reply == Failed(if dto.kind == Disbursement then DisbursementNotAllowed else TransactionNotAllowed))
            && (dto.amount > 0.0 && own && Admits(db.contracts[dto.contract].status, dto.kind) && !FreshRow(db, s.newId) ==>
                reply == Failed(DuplicateKey))
  {
    hide HasRowId, FreshRow, Settle;
    KeyIsFresh(db, s.newId);
  }

  /** The recorded row is the request's, appended; only a settlement touches anything else. */
  lemma RecordWrites(db: Db, s: Step)
    requires s.TransactionRecord? && Apply(db, s).1.Recorded?
    ensures var (db', reply) := Apply(db, s);
            var row, dto := reply.row, s.record;
            && db'.ledger == db.ledger + [row]
            && row.id == s.newId && row.tenant == s.tenant && row.store == s.store && row.contract == dto.contract
            && row.kind == dto.kind && row.amount == dto.amount && row.payment == dto.payment && row.date == dto.date
            && row.note == dto.note && row.reference == dto.reference && row.createdBy == s.user
            && dto.contract in db'.contracts && reply.status == db'.contracts[dto.contract].status
            && (dto.kind != Settlement ==> db' == db.(ledger := db'.ledger))
  {
    hide HasRowId, LinkedAssets, RedeemedAssets, ReturnedInventory;
  }

  /** A settlement closes exactly its contract, notes it, and returns exactly the assets linked to it. */
  lemma SettlementWrites(db: Db, s: Step)
    requires s.TransactionRecord? && Apply(db, s).1.Recorded? && s.record.kind == Settlement
    ensures var db' := Apply(db, s).0;
            var id := s.record.contract;
            && id in db.contracts
            && db'.contracts == db.contracts[id := db.contracts[id].(status := Settled, updatedAt := s.now, updatedBy := s.user)]
            && db'.history == db.history + [HistoryRow(s.tenant, id, Settled, s.user)]
            && db' == db.(ledger := db'.ledger, contracts := db'.contracts, history := db'.history, assets := db'.assets,
                          inventory := db'.inventory)
    ensures var db' := Apply(db, s).0;
            && db'.assets.Keys == db.assets.Keys
            && forall a | a in db.assets :: db'.assets[a] ==
                 if OwnAsset(db, s.tenant, a) && Link(s.tenant, s.record.contract, a) in db.links
                 then db.assets[a].(status := Redeemed, updatedAt := s.now) else db.assets[a]
    ensures var db' := Apply(db, s).0;
            && |db'.inventory| == |db.inventory|
            && forall i | 0 <= i < |db.inventory| :: db'.inventory[i] ==
                 var r := db.inventory[i];
                 if r.tenant == s.tenant && Link(s.tenant, s.record.contract, r.asset) in db.links
                 then r.(returnedAt := Some(s.now), status := Returned) else r
  {
    hide HasRowId, LinkedAssets;
    forall a ensures a in LinkedAssets(db.links, s.tenant, s.record.contract) <==> Link(s.tenant, s.record.contract, a) in db.links {
      LinkedBy(db.links, s.tenant, s.record.contract, a);
    }
  }

  // ---------------------------------------------------------------- extendContract

  lemma ExtendAnswer(db: Db, s: Step)
    requires s.ContractExtend?
    ensures var (db', reply) := Apply(db, s);
            var dto := s.extend;
            var own := OwnContractAt(db, s.tenant, s.store, dto.contract);
            var open := own && db.contracts[dto.contract].status in {Active, NearDue, ContractStatus.Overdue};
            && (reply.Prolonged? <==> dto.interestPaid > 0.0 && open && FreshRow(db, s.newId))
            && (!reply.Prolonged? ==> db' == db && reply.Failed?)
            && (dto.interestPaid <= 0.0 ==> reply == Failed(InvalidRequest))
            && (dto.interestPaid > 0.0 && !own ==> reply == Failed(ContractNotFound))
            && (dto.interestPaid > 0.0 && own && !open ==> reply == Failed(ExtensionNotAllowed))
            && (dto.interestPaid > 0.0 && open && !FreshRow(db, s.newId) ==> reply == Failed(DuplicateKey))
  {
    hide HasRowId, FreshRow;
    KeyIsFresh(db, s.newId);
  }

  /** The contract moves to the requested date, the extension row says from where and for what, the ledger row what was paid. */
  lemma ExtendWrites(db: Db, s: Step)
    requires s.ContractExtend? && Apply(db, s).1.Prolonged?
    ensures var (db', reply) := Apply(db, s);
            var dto := s.extend;
            var id := dto.contract;
            && id in db.contracts && reply.newDue == dto.newDue
            && db'.contracts == db.contracts[id := db.contracts[id].(
                 dueDate := dto.newDue, status := Extended, updatedAt := s.now, updatedBy := s.user)]
            && db' == db.(ledger := db.ledger + [reply.row], extensions := db'.extensions, contracts := db'.contracts,
                          history := db.history + [HistoryRow(s.tenant, id, Extended, s.user)])
    ensures var db' := Apply(db, s).0;
            |db'.extensions| == |db.extensions| + 1 && db.extensions <= db'.extensions &&
            var e := db'.extensions[|db.extensions|];
            && e.tenant == s.tenant && e.contract == s.extend.contract && e.createdBy == s.user
            && e.oldDue == db.contracts[s.extend.contract].dueDate && e.newDue == s.extend.newDue
            && e.interestPaid == s.extend.interestPaid
            && (s.extend.fee.Some? ==> e.fee == s.extend.fee.value) && (s.extend.fee.None? ==> e.fee == 0.0)
    ensures var row := Apply(db, s).1.row;
            && row.id == s.newId && row.tenant == s.tenant && row.store == s.store && row.contract == s.extend.contract
            && row.kind == Extension && row.amount == s.extend.interestPaid && row.payment == s.extend.payment
            && row.date == s.now && row.note == s.extend.note && row.reference == None && row.createdBy == s.user
  {
    hide HasRowId;
  }

  // ---------------------------------------------------------------- voidTransaction

  /** The tenant's transaction of this id, which may be voided. */
  ghost predicate Voidable(db: Db, tenant: Id, r: LedgerRow) {
    r in db.ledger && r.tenant == tenant && r.kind != Void && r.kind != Reversal
  }

  /** With unique ids, a void is accepted exactly for the tenant's voidable transaction under a fresh key. */
  lemma VoidAnswer(db: Db, s: Step)
    requires s.TransactionVoid? && UniqueIds(db.ledger)
    ensures var (db', reply) := Apply(db, s);
            var found := exists r | r in db.ledger :: r.id == s.transaction && r.tenant == s.tenant;
            var voidable := exists r | Voidable(db, s.tenant, r) :: r.id == s.transaction;
            && (reply.Voided? <==> voidable && FreshRow(db, s.newId))
            && (!reply.Voided? ==> db' == db && reply.Failed?)
            && (!found ==> reply == Failed(TransactionNotFound))
            && (found && !voidable ==> reply == Failed(CannotVoid))
            && (voidable && !FreshRow(db, s.newId) ==> reply == Failed(DuplicateKey))
  {
    hide HasRowId, FreshRow;
    KeyIsFresh(db, s.newId);
    var i := FindTransaction(db.ledger, s.tenant, s.transaction);
    if i >= 0 {
      assert db.ledger[i] in db.ledger;
      forall r | r in db.ledger && r.id == s.transaction ensures r == db.ledger[i] {
        var j :| 0 <= j < |db.ledger| && db.ledger[j] == r;
      }
    } else {
      forall r | r in db.ledger ensures !(r.id == s.transaction && r.tenant == s.tenant) {
        var j :| 0 <= j < |db.ledger| && db.ledger[j] == r;
      }
    }
  }

  /** The appended row takes back the amount of the original, in its store and by its means of payment. */
  lemma VoidWrites(db: Db, s: Step)
    requires s.TransactionVoid? && Apply(db, s).1.Voided?
    ensures var (db', reply) := Apply(db, s);
            && db' == db.(ledger := db.ledger + [reply.row])
            && reply.row.id == s.newId && reply.row.kind == Void && reply.row.reference == Some(s.transaction)
            && reply.row.date == s.now && reply.row.note == Some(s.reason) && reply.row.createdBy == s.user
            && exists o | Voidable(db, s.tenant, o) ::
                 && o.id == s.transaction && reply.row.amount == -o.amount && reply.row.payment == o.payment
                 && reply.row.tenant == o.tenant && reply.row.store == o.store && reply.row.contract == o.contract
  {
    hide HasRowId, FindTransaction;
    var i := FindTransaction(db.ledger, s.tenant, s.transaction);
    assert Voidable(db, s.tenant, db.ledger[i]);
  }

  // ---------------------------------------------------------------- create

  ghost predicate FitToPledge(db: Db, tenant: Id, dto: CreateContractDto) {
    && Distinct(dto.assets)
    && forall a | a in dto.assets :: OwnAsset(db, tenant, a) && db.assets[a].store == dto.store
  }

  ghost predicate NonePawned(db: Db, ids: seq<Id>) {
    forall a | a in ids && a in db.assets :: db.assets[a].status != Pawned
  }

  ghost predicate WithinBounds(s: Step)
    requires s.ContractCreate?
  {
    s.clock.Valid() && s.create.assets != [] && s.create.principal > 0.0 && 0.0 < s.create.rate <= 100.0
  }

  /** `create` is answered with a contract exactly when all its demands are met; each refusal names the first that is not. */
  lemma CreateAnswer(db: Db, s: Step)
    requires s.ContractCreate?
    ensures var (db', reply) := Apply(db, s);
            var dto := s.create;
            && (reply.ContractIs? <==>
                && WithinBounds(s) && OwnStore(db, s.tenant, dto.store) && OwnCustomer(db, s.tenant, dto.customer)
                && FitToPledge(db, s.tenant, dto) && NonePawned(db, dto.assets) && s.newId !in db.contracts)
            && (!reply.ContractIs? ==> db' == db)
            && (!reply.ContractIs? ==> reply == Failed(
                  if !WithinBounds(s) then InvalidRequest
                  else if !OwnStore(db, s.tenant, dto.store) then StoreNotFound
                  else if !OwnCustomer(db, s.tenant, dto.customer) then CustomerNotFound
                  else if !FitToPledge(db, s.tenant, dto) then AssetsNotFound
                  else if !NonePawned(db, dto.assets) then AssetsPawned
                  else DuplicateKey))
  {
    hide FindContract, WriteContract, CreateRefusal, FitToPledge, NonePawned;
    if WithinBounds(s) {
      RefusalNames(db, s.tenant, s.create);
      if CreateRefusal(db, s.tenant, s.create) == None {
        CreatedIsFound(db, s);
      }
    }
  }

  lemma RefusalNames(db: Db, tenant: Id, dto: CreateContractDto)
    requires dto.assets != []
    ensures CreateRefusal(db, tenant, dto) ==
            if !OwnStore(db, tenant, dto.store) then Some(StoreNotFound)
            else if !OwnCustomer(db, tenant, dto.customer) then Some(CustomerNotFound)
            else if !FitToPledge(db, tenant, dto) then Some(AssetsNotFound)
            else if !NonePawned(db, dto.assets) then Some(AssetsPawned)
            else None
  {
    hide Distinct;
    CountingRowsChecksIds(db.assets, dto.assets, tenant, dto.store);
    var selected := SelectedAssets(db.assets, dto.assets, tenant, dto.store);
    if FitToPledge(db, tenant, dto) {
      assert forall a :: a in selected <==> a in dto.assets;
    }
  }

  lemma CreatedIsFound(db: Db, s: Step)
    requires s.ContractCreate? && WithinBounds(s) && CreateRefusal(db, s.tenant, s.create) == None
    ensures s.create.store in db.stores
    ensures FindContract(WriteContract(db, s.tenant, s.user, s.create, s.newId, s.clock), s.tenant, s.newId).ContractIs?
  {
    hide YearMonth, Print, PledgedAssets, PledgedInventory, PledgeLinks, JoinedAssets, SelectedAssets;
  }

  /** The new contract is the request's, with a code of its own; the reply shows it with its customer. */
  lemma CreateWrites(db: Db, s: Step)
    requires s.ContractCreate? && Apply(db, s).1.ContractIs?
    ensures var (db', reply) := Apply(db, s);
            var id, dto := s.newId, s.create;
            && id !in db.contracts && id in db'.contracts && db'.contracts == db.contracts[id := db'.contracts[id]]
            && db'.history == db.history + [HistoryRow(s.tenant, id, Active, s.user)]
            && (var c := db'.contracts[id];
                && c.tenant == s.tenant && c.store == dto.store && c.customer == dto.customer
                && c.principal == dto.principal && c.rate == dto.rate && c.interestType == dto.interestType
                && c.startDate == dto.startDate && c.dueDate == dto.dueDate && c.notes == dto.notes
                && c.status == Active && c.createdBy == s.user && c.updatedBy == s.user && c.updatedAt == s.clock.ms
                && reply.contract.id == id && reply.contract.row == c)
            && dto.customer in db.customers && reply.contract.customer == Some(db.customers[dto.customer])
            && db' == db.(sequences := db'.sequences, contracts := db'.contracts, links := db'.links, assets := db'.assets,
                          inventory := db'.inventory, history := db'.history)
  {
    hide YearMonth, Print, PledgedAssets, PledgedInventory, PledgeLinks, JoinedAssets, SelectedAssets, NextNumber;
  }

  /** Exactly the requested assets are linked, in their order, pawned and received. */
  lemma CreatePledges(db: Db, s: Step)
    requires s.ContractCreate? && Apply(db, s).1.ContractIs?
    ensures var db' := Apply(db, s).0;
            var ids := s.create.assets;
            && |db'.links| == |db.links| + |ids| && db.links <= db'.links
            && (forall i | 0 <= i < |ids| :: db'.links[|db.links| + i] == Link(s.tenant, s.newId, ids[i]))
            && db'.assets.Keys == db.assets.Keys
            && (forall a | a in db.assets :: db'.assets[a] ==
                  if a in ids && OwnAsset(db, s.tenant, a)
                  then db.assets[a].(status := Pawned, updatedAt := s.clock.ms) else db.assets[a])
            && |db'.inventory| == |db.inventory|
            && (forall i | 0 <= i < |db.inventory| :: db'.inventory[i] ==
                  if db.inventory[i].asset in ids && db.inventory[i].tenant == s.tenant
                  then db.inventory[i].(receivedAt := s.clock.ms, status := InStore) else db.inventory[i])
  {
    hide YearMonth, Print, FindContract, CreateRefusal, NextNumber;
  }

  // ---------------------------------------------------------------- contracts.update and updateStatus

  lemma UpdateAnswer(db: Db, s: Step)
    requires s.ContractUpdate?
    ensures var (db', reply) := Apply(db, s);
            var own := OwnContract(db, s.tenant, s.contract);
            var locked := s.dueDate.Some? && Entered(db, s.tenant, s.contract);
            && (reply.ContractIs? <==> own && !locked)
            && (!own ==> reply == Failed(ContractNotFound))
            && (own && locked ==> reply == Failed(DueDateLocked))
            && (!reply.ContractIs? ==> db' == db)
            && (reply.ContractIs? ==>
                && reply.contract.id == s.contract && s.contract in db'.contracts
                && reply.contract.row == db'.contracts[s.contract])
  {
    hide HasTransactions, Entered, JoinedAssets;
    TransactionsAreEntered(db, s.tenant, s.contract);
  }

  /** Exactly the supplied fields of exactly that contract change. */
  lemma UpdateWrites(db: Db, s: Step)
    requires s.ContractUpdate? && Apply(db, s).1.ContractIs?
    ensures var db' := Apply(db, s).0;
            && s.contract in db.contracts && s.contract in db'.contracts
            && db' == db.(contracts := db.contracts[s.contract := db'.contracts[s.contract]])
            && (var c, c' := db.contracts[s.contract], db'.contracts[s.contract];
                && (s.notes.Some? ==> c'.notes == s.notes.value) && (s.notes.None? ==> c'.notes == c.notes)
                && (s.dueDate.Some? ==> c'.dueDate == s.dueDate.value) && (s.dueDate.None? ==> c'.dueDate == c.dueDate)
                && c'.updatedAt == s.now
                && c' == c.(notes := c'.notes, dueDate := c'.dueDate, updatedAt := c'.updatedAt))
  {
    hide HasTransactions, JoinedAssets;
  }

  /** A manual status is written as asked, with its history row, and nothing else changes. */
  lemma StatusOutcome(db: Db, s: Step)
    requires s.ContractStatusSet?
    ensures var (db', reply) := Apply(db, s);
            if OwnContract(db, s.tenant, s.contract) then
              && db' == db.(contracts := db.contracts[s.contract := db.contracts[s.contract].(
                              status := s.status, updatedAt := s.now)],
                            history := db.history + [HistoryRow(s.tenant, s.contract, s.status, s.user)])
              && reply.ContractIs? && reply.contract.id == s.contract
              && reply.contract.row == db'.contracts[s.contract]
            else db' == db && reply == Failed(ContractNotFound)
  {
    hide JoinedAssets;
  }

  // ---------------------------------------------------------------- assets

  /** An asset is born pawned and in store, under a key that is new. */
  lemma AssetCreateOutcome(db: Db, s: Step)
    requires s.AssetCreate?
    ensures var (db', reply) := Apply(db, s);
            if s.newId in db.assets then db' == db && reply == Failed(DuplicateKey)
            else
              && s.newId in db'.assets && |db'.inventory| == |db.inventory| + 1 && db.inventory <= db'.inventory
              && db' == db.(assets := db.assets[s.newId := db'.assets[s.newId]], inventory := db'.inventory)
              && (var a, r := db'.assets[s.newId], db'.inventory[|db.inventory|];
                  && a.tenant == s.tenant && a.store == s.store && a.status == Pawned
                  && a.details == s.newAsset.details && a.updatedAt == s.now
                  && r.tenant == s.tenant && r.store == s.store && r.asset == s.newId && r.status == InStore
                  && r.receivedAt == s.now && r.returnedAt == None
                  && r.locationCode == s.newAsset.locationCode && r.locationNote == s.newAsset.locationNote
                  && reply.AssetIs? && reply.asset.id == s.newId && reply.asset.row == a && reply.asset.contract == None)
  {
  }

  /** Column by column: a supplied value replaces the old one, nulls included, and every other column is as it was. */
  lemma AssetUpdateOutcome(db: Db, s: Step)
    requires s.AssetUpdate?
    ensures var (db', reply) := Apply(db, s);
            if !OwnAsset(db, s.tenant, s.asset) then db' == db && reply == Failed(AssetNotFound)
            else
              && s.asset in db'.assets && db' == db.(assets := db.assets[s.asset := db'.assets[s.asset]])
              && reply.AssetIs? && reply.asset.id == s.asset && reply.asset.row == db'.assets[s.asset]
              && (var a, a' := db.assets[s.asset], db'.assets[s.asset];
                  && (forall k | k in s.changes :: k in a'.details && a'.details[k] == s.changes[k])
                  && (forall k | k !in s.changes ::
                        (k in a'.details <==> k in a.details) && (k in a.details ==> a'.details[k] == a.details[k]))
                  && (s.newStatus.Some? ==> a'.status == s.newStatus.value) && (s.newStatus.None? ==> a'.status == a.status)
                  && a'.tenant == a.tenant && a'.store == a.store
                  && a'.updatedAt == if s.changes == map[] && s.newStatus == None then a.updatedAt else s.now)
  {
    hide FirstContract;
    if OwnAsset(db, s.tenant, s.asset) {
      assert db.assets[s.asset := db.assets[s.asset]] == db.assets;
    }
  }

  lemma AssetStatusOutcome(db: Db, s: Step)
    requires s.AssetStatusSet?
    ensures var (db', reply) := Apply(db, s);
            if OwnAsset(db, s.tenant, s.asset) then
              && db' == db.(assets := db.assets[s.asset := db.assets[s.asset].(status := s.assetStatus, updatedAt := s.now)])
              && reply.AssetIs? && reply.asset.id == s.asset && reply.asset.row == db'.assets[s.asset]
            else db' == db && reply == Failed(AssetNotFound)
  {
    hide FirstContract;
  }

  // ---------------------------------------------------------------- findOne

  /** A contract is shown with its customer and exactly the assets its tenant's link rows name, each with its status. */
  lemma ContractShown(db: Db, tenant: Id, id: Id)
    requires Sound(db)
    ensures var reply := FindContract(db, tenant, id);
            if !OwnContract(db, tenant, id) then reply == Failed(ContractNotFound)
            else
              && reply.ContractIs? && reply.contract.id == id && reply.contract.row == db.contracts[id]
              && db.contracts[id].customer in db.customers
              && reply.contract.customer == Some(db.customers[db.contracts[id].customer])
              && (forall a, status ::
                    (a, status) in reply.contract.assets <==>
                    Link(tenant, id, a) in db.links && a in db.assets && status == db.assets[a].status)
              && (forall i, j | 0 <= i < j < |reply.contract.assets| ::
                    reply.contract.assets[i].0 != reply.contract.assets[j].0)
  {
    hide JoinedAssets;
    if OwnContract(db, tenant, id) {
      assert ContractOk(db, id);
      JoinShowsLinks(db.links, db.assets, tenant, id);
    }
  }

  lemma {:induction false} JoinShowsLinks(links: seq<Link>, assets: map<Id, Asset>, tenant: Id, id: Id)
    requires NoDoubleLinks(links)
    ensures var shown := JoinedAssets(links, assets, tenant, id);
            && (forall a, status ::
                  (a, status) in shown <==> Link(tenant, id, a) in links && a in assets && status == assets[a].status)
            && (forall i, j | 0 <= i < j < |shown| :: shown[i].0 != shown[j].0)
  {
    if links == [] {
    } else {
      var front, last := links[..|links| - 1], links[|links| - 1];
      assert links == front + [last];
      JoinShowsLinks(front, assets, tenant, id);
      var shown := JoinedAssets(front, assets, tenant, id);
      forall i | 0 <= i < |front| ensures !(front[i].contract == last.contract && front[i].asset == last.asset) {
        assert links[i] == front[i];
      }
      forall i | 0 <= i < |shown| ensures Link(tenant, id, shown[i].0) in front {
        assert (shown[i].0, shown[i].1) in shown;
      }
    }
  }

  /** An asset is shown with the contract its earliest link row names. */
  lemma AssetShown(db: Db, tenant: Id, id: Id)
    ensures var reply := FindAsset(db, tenant, id);
            if !OwnAsset(db, tenant, id) then reply == Failed(AssetNotFound)
            else
              && reply.AssetIs? && reply.asset.id == id && reply.asset.row == db.assets[id]
              && EarliestLink(db.links, id, reply.asset.contract)
  {
    hide FirstContract;
    EarliestContract(db.links, id);
  }

  ghost predicate EarliestLink(links: seq<Link>, asset: Id, contract: Option<Id>) {
    match contract
    case None => forall l | l in links :: l.asset != asset
    case Some(c) =>
      exists i | 0 <= i < |links| :: links[i].asset == asset && links[i].contract == c && forall j | 0 <= j < i :: links[j].asset != asset
  }

  lemma {:induction false} EarliestContract(links: seq<Link>, asset: Id)
    ensures EarliestLink(links, asset, FirstContract(links, asset))
  {
    if links == [] {
    } else {
      var front, last := links[..|links| - 1], links[|links| - 1];
      assert links == front + [last];
      EarliestContract(front, asset);
      var first := FirstContract(front, asset);
      if first.Some? {
        var i :| 0 <= i < |front| && front[i].asset == asset && front[i].contract == first.value && forall j | 0 <= j < i :: front[j].asset != asset;
        assert links[i] == front[i] && forall j | 0 <= j < i :: links[j] == front[j];
      } else if last.asset == asset {
        assert forall j | 0 <= j < |front| :: links[j] == front[j] && front[j] in front;
        assert links[|front|] == last;
      }
    }
  }

  // ---------------------------------------------------------------- generateContractCode

  lemma CodeAnswer(db: Db, s: Step)
    requires s.CodeGenerate?
    ensures var (db', reply) := Apply(db, s);
            && (reply.CodeIs? <==> s.clock.Valid() && OwnStore(db, s.tenant, s.store))
            && (!reply.CodeIs? ==> db' == db && reply == Failed(if s.clock.Valid() then StoreNotFound else InvalidRequest))
            && db' == db.(sequences := db'.sequences)
  {
    hide YearMonth, Print, NextNumber;
  }
}
