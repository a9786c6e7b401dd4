/**
 Each service method as a function from the tables before to the tables after and
 the reply, and runs of such steps.
 */
module Engine {
  import opened Domain
  import opened ContractCodes

  // ---------------------------------------------------------------- lookups

  /** Every lookup by id is also by tenant. */
  predicate HasContract(db: Db, tenant: Id, id: Id) {
    id in db.contracts && db.contracts[id].tenant == tenant
  }

  predicate HasAsset(db: Db, tenant: Id, id: Id) {
    id in db.assets && db.assets[id].tenant == tenant
  }

  /** The index of the ledger row with this id and tenant, or -1. */
  function FindTransaction(ledger: seq<LedgerRow>, tenant: Id, id: Id): (i: int)
    ensures -1 <= i < |ledger|
    ensures i >= 0 ==> ledger[i].id == id && ledger[i].tenant == tenant
    ensures i == -1 ==> forall j | 0 <= j < |ledger| :: !(ledger[j].id == id && ledger[j].tenant == tenant)
  {
    if ledger == [] then -1
    else
      var i := FindTransaction(ledger[..|ledger| - 1], tenant, id);
      var last := ledger[|ledger| - 1];
      if i >= 0 then i
      else if last.id == id && last.tenant == tenant then |ledger| - 1
      else -1
  }

  predicate HasRowId(ledger: seq<LedgerRow>, id: Id) {
    exists j | 0 <= j < |ledger| :: ledger[j].id == id
  }

  predicate HasTransactions(ledger: seq<LedgerRow>, tenant: Id, contract: Id) {
    exists j | 0 <= j < |ledger| :: ledger[j].contract == contract && ledger[j].tenant == tenant
  }

  /** The assets the tenant's link rows of a contract name. */
  function LinkedAssets(links: seq<Link>, tenant: Id, contract: Id): set<Id> {
    set l | l in links && l.contract == contract && l.tenant == tenant :: l.asset
  }

  /** contract_assets of a contract joined with assets, in table order. */
  function JoinedAssets(links: seq<Link>, assets: map<Id, Asset>, tenant: Id, contract: Id): seq<(Id, AssetStatus)> {
    if links == [] then []
    else
      var l := links[|links| - 1];
      JoinedAssets(links[..|links| - 1], assets, tenant, contract) +
      (if l.contract == contract && l.tenant == tenant && l.asset in assets
       then [(l.asset, assets[l.asset].status)] else [])
  }

  /** The contract the first contract_assets row of an asset names. */
  function FirstContract(links: seq<Link>, asset: Id): Option<Id> {
    if links == [] then None
    else
      var first := FirstContract(links[..|links| - 1], asset);
      var l := links[|links| - 1];
      if first.Some? then first
      else if l.asset == asset then Some(l.contract)
      else None
  }

  /** ContractsService.findOne */
  function FindContract(db: Db, tenant: Id, id: Id): Reply {
    if !HasContract(db, tenant, id) then Failed(ContractNotFound)
    else
      var c := db.contracts[id];
      ContractIs(ContractView(id, c,
        if c.customer in db.customers then Some(db.customers[c.customer]) else None,
        JoinedAssets(db.links, db.assets, tenant, id)))
  }

  /** AssetsService.findOne */
  function FindAsset(db: Db, tenant: Id, id: Id): Reply {
    if !HasAsset(db, tenant, id) then Failed(AssetNotFound)
    else AssetIs(AssetView(id, db.assets[id], FirstContract(db.links, id)))
  }

  // ---------------------------------------------------------------- assets

  /** The inventory row an asset is born with. */
  function NewShelf(tenant: Id, store: Id, dto: CreateAssetDto, asset: Id, now: int): InventoryRow {
    InventoryRow(tenant, store, asset, dto.locationCode, dto.locationNote, now, None, InStore)
  }

  function CreateAsset(db: Db, tenant: Id, store: Id, dto: CreateAssetDto, newId: Id, now: int): (Db, Reply) {
    if newId in db.assets then (db, Failed(DuplicateKey))
    else
      var row := Asset(tenant, store, Pawned, dto.details, now);
      (db.(assets := db.assets[newId := row],
           inventory := db.inventory + [NewShelf(tenant, store, dto, newId, now)]),
       AssetIs(AssetView(newId, row, None)))
  }

  function UpdateAsset(db: Db, tenant: Id, id: Id, changes: Columns,
                       status: Option<AssetStatus>, now: int): (Db, Reply)
  {
    if !HasAsset(db, tenant, id) || (changes == map[] && status == None) then (db, FindAsset(db, tenant, id))
    else
      var a := db.assets[id];
      var db' := db.(assets := db.assets[id := a.(
        details := a.details + changes,
        status := if status.Some? then status.value else a.status,
        updatedAt := now)]);
      (db', FindAsset(db', tenant, id))
  }

  function SetAssetStatus(db: Db, tenant: Id, id: Id, status: AssetStatus, now: int): (Db, Reply) {
    if !HasAsset(db, tenant, id) then (db, Failed(AssetNotFound))
    else
      var db' := db.(assets := db.assets[id := db.assets[id].(status := status, updatedAt := now)]);
      (db', FindAsset(db', tenant, id))
  }

  // ---------------------------------------------------------------- contracts

  /** The number the upsert into contract_sequences returns. */
  function NextNumber(sequences: map<SequenceKey, nat>, key: SequenceKey): nat {
    if key in sequences then sequences[key] + 1 else 1
  }

  function GenerateCode(db: Db, tenant: Id, store: Id, clock: Clock): (Db, Reply)
    requires clock.Valid()
  {
    if store !in db.stores || db.stores[store].tenant != tenant then (db, Failed(StoreNotFound))
    else
      var key := SequenceKey(tenant, store, YearMonth(clock));
      var n := NextNumber(db.sequences, key);
      (db.(sequences := db.sequences[key := n]),
       CodeIs(Print(db.stores[store].code, YearMonth(clock), n)))
  }

  /** The ids of the rows in the tenant's store that an id list names, each once. */
  function SelectedAssets(assets: map<Id, Asset>, ids: seq<Id>, tenant: Id, store: Id): set<Id> {
    set a | a in assets && a in ids && assets[a].tenant == tenant && assets[a].store == store
  }

  /** The checks `create` makes before it touches a table. */
  function CreateRefusal(db: Db, tenant: Id, dto: CreateContractDto): Option<Error> {
    if dto.store !in db.stores || db.stores[dto.store].tenant != tenant then Some(StoreNotFound)
    else if dto.customer !in db.customers || db.customers[dto.customer].tenant != tenant then Some(CustomerNotFound)
    else if dto.assets == [] then None
    else
      var selected := SelectedAssets(db.assets, dto.assets, tenant, dto.store);
      if |selected| != |dto.assets| then Some(AssetsNotFound)
      else if exists a | a in selected :: db.assets[a].status == Pawned then Some(AssetsPawned)
      else None
  }

  function PledgedAssets(assets: map<Id, Asset>, ids: seq<Id>, tenant: Id, now: int): map<Id, Asset> {
    map a | a in assets ::
      if a in ids && assets[a].tenant == tenant then assets[a].(status := Pawned, updatedAt := now) else assets[a]
  }

  /** received_at and status are written, returned_at is not. */
  function PledgedInventory(rows: seq<InventoryRow>, ids: seq<Id>, tenant: Id, now: int): (r: seq<InventoryRow>)
    ensures |r| == |rows|
  {
    seq(|rows|, i requires 0 <= i < |rows| =>
      if rows[i].asset in ids && rows[i].tenant == tenant
      then rows[i].(receivedAt := now, status := InStore) else rows[i])
  }

  function PledgeLinks(tenant: Id, contract: Id, ids: seq<Id>): (r: seq<Link>)
    ensures |r| == |ids|
  {
    seq(|ids|, i requires 0 <= i < |ids| => Link(tenant, contract, ids[i]))
  }

  /** Everything `create` writes once its checks have passed. */
  function WriteContract(db: Db, tenant: Id, user: Id, dto: CreateContractDto, newId: Id, clock: Clock): Db
    requires clock.Valid() && dto.store in db.stores
  {
    var key := SequenceKey(tenant, dto.store, YearMonth(clock));
    var n := NextNumber(db.sequences, key);
    var row := Contract(
      tenant, dto.store, dto.customer, Print(db.stores[dto.store].code, YearMonth(clock), n),
      dto.principal, dto.rate, dto.interestType, dto.startDate, dto.dueDate,
      Active, dto.notes, user, clock.ms, user);
    db.(sequences := db.sequences[key := n],
        contracts := db.contracts[newId := row],
        links := db.links + PledgeLinks(tenant, newId, dto.assets),
        assets := PledgedAssets(db.assets, dto.assets, tenant, clock.ms),
        inventory := PledgedInventory(db.inventory, dto.assets, tenant, clock.ms),
        history := db.history + [HistoryRow(tenant, newId, Active, user)])
  }

  function CreateContract(db: Db, tenant: Id, user: Id, dto: CreateContractDto, newId: Id, clock: Clock): (Db, Reply)
    requires clock.Valid()
  {
    var refusal := CreateRefusal(db, tenant, dto);
    if refusal.Some? then (db, Failed(refusal.value))
    else if newId in db.contracts then (db, Failed(DuplicateKey))
    else
      var db' := WriteContract(db, tenant, user, dto, newId, clock);
      (db', FindContract(db', tenant, newId))
  }

  function UpdateContract(db: Db, tenant: Id, id: Id, notes: Option<Option<string>>, dueDate: Option<int>,
          now: int): (Db, Reply) {
    if !HasContract(db, tenant, id) then (db, Failed(ContractNotFound))
    else if dueDate.Some? && HasTransactions(db.ledger, tenant, id) then (db, Failed(DueDateLocked))
    else
      var c := db.contracts[id];
      var db' := db.(contracts := db.contracts[id := c.(
        notes := if notes.Some? then notes.value else c.notes,
        dueDate := if dueDate.Some? then dueDate.value else c.dueDate,
        updatedAt := now)]);
      (db', FindContract(db', tenant, id))
  }

  function SetContractStatus(db: Db, tenant: Id, id: Id, status: ContractStatus, user: Id, now: int): (Db, Reply) {
    if !HasContract(db, tenant, id) then (db, Failed(ContractNotFound))
    else
      var db' := db.(
        contracts := db.contracts[id := db.contracts[id].(status := status, updatedAt := now)],
        history := db.history + [HistoryRow(tenant, id, status, user)]);
      (db', FindContract(db', tenant, id))
  }

  // ---------------------------------------------------------------- transactions

  /** The status check of `recordTransaction`: adjustments, voids, reversals and extensions have none. */
  function RecordRefusal(kind: TransactionType, status: ContractStatus): Option<Error> {
    match kind
    case Disbursement =>
      if status == Draft || status == Active then None else Some(DisbursementNotAllowed)
    case InterestCollection | FeeCollection | Settlement | PartialPrincipal =>
      if Collectable(status) then None else Some(TransactionNotAllowed)
    case _ => None
  }

  function RedeemedAssets(assets: map<Id, Asset>, ids: set<Id>, tenant: Id, now: int): map<Id, Asset> {
    map a | a in assets ::
      if a in ids && assets[a].tenant == tenant then assets[a].(status := Redeemed, updatedAt := now) else assets[a]
  }

  function ReturnedInventory(rows: seq<InventoryRow>, ids: set<Id>, tenant: Id, now: int): (r: seq<InventoryRow>)
    ensures |r| == |rows|
  {
    seq(|rows|, i requires 0 <= i < |rows| =>
      if rows[i].asset in ids && rows[i].tenant == tenant
      then rows[i].(returnedAt := Some(now), status := Returned) else rows[i])
  }

  /** What a settlement changes besides the ledger. */
  function Settle(db: Db, tenant: Id, user: Id, contract: Id, now: int): Db
    requires contract in db.contracts
  {
    var ids := LinkedAssets(db.links, tenant, contract);
    db.(contracts := db.contracts[contract := db.contracts[contract].(
          status := Settled, updatedAt := now, updatedBy := user)],
        history := db.history + [HistoryRow(tenant, contract, Settled, user)],
        assets := RedeemedAssets(db.assets, ids, tenant, now),
        inventory := ReturnedInventory(db.inventory, ids, tenant, now))
  }

  function RecordTransaction(db: Db, tenant: Id, store: Id, user: Id, dto: RecordDto, newId: Id,
          now: int): (Db, Reply) {
    if !HasContract(db, tenant, dto.contract) || db.contracts[dto.contract].store != store then
      (db, Failed(ContractNotFound))
    else
      var refusal := RecordRefusal(dto.kind, db.contracts[dto.contract].status);
      if refusal.Some? then (db, Failed(refusal.value))
      else if HasRowId(db.ledger, newId) then (db, Failed(DuplicateKey))
      else
        var row := LedgerRow(newId, tenant, store, dto.contract, dto.kind, dto.amount,
                             dto.payment, dto.date, dto.note, dto.reference, user);
        var entered := db.(ledger := db.ledger + [row]);
        var db' := if dto.kind == Settlement then Settle(entered, tenant, user, dto.contract, now) else entered;
        (db', Recorded(row, db'.contracts[dto.contract].status))
  }

  function ExtendContract(db: Db, tenant: Id, store: Id, user: Id, dto: ExtendDto, newId: Id, now: int): (Db, Reply) {
    if !HasContract(db, tenant, dto.contract) || db.contracts[dto.contract].store != store then
      (db, Failed(ContractNotFound))
    else
      var c := db.contracts[dto.contract];
      if c.status != Active && c.status != NearDue && c.status != ContractStatus.Overdue then (db, Failed(ExtensionNotAllowed))
      else if HasRowId(db.ledger, newId) then (db, Failed(DuplicateKey))
      else
        var row := LedgerRow(newId, tenant, store, dto.contract, Extension, dto.interestPaid,
                             dto.payment, now, dto.note, None, user);
        var fee := if dto.fee.Some? then dto.fee.value else 0.0;
        (db.(ledger := db.ledger + [row],
             extensions := db.extensions +
               [ExtensionRow(tenant, dto.contract, c.dueDate, dto.newDue, dto.interestPaid, fee, user)],
             contracts := db.contracts[dto.contract := c.(
               dueDate := dto.newDue, status := Extended, updatedAt := now, updatedBy := user)],
             history := db.history + [HistoryRow(tenant, dto.contract, Extended, user)]),
         Prolonged(row, dto.newDue))
  }

  function VoidTransaction(db: Db, tenant: Id, id: Id, user: Id, reason: string, newId: Id, now: int): (Db, Reply) {
    var i := FindTransaction(db.ledger, tenant, id);
    if i < 0 then (db, Failed(TransactionNotFound))
    else
      var original := db.ledger[i];
      if original.kind == Void || original.kind == Reversal then (db, Failed(CannotVoid))
      else if HasRowId(db.ledger, newId) then (db, Failed(DuplicateKey))
      else
        var row := LedgerRow(newId, tenant, original.store, original.contract, Void, -original.amount,
                             original.payment, now, Some(reason), Some(id), user);
        (db.(ledger := db.ledger + [row]), Voided(row))
  }

  // ---------------------------------------------------------------- runs

  /** What the global validation pipe and the clock guarantee before a service sees a request. */
  predicate ValidRequest(s: Step) {
    match s
    case ContractCreate(_, _, dto, _, clock) =>
      clock.Valid() && dto.assets != [] && dto.principal > 0.0 && 0.0 < dto.rate <= 100.0
    case CodeGenerate(_, _, clock) => clock.Valid()
    case TransactionRecord(_, _, _, dto, _, _) => dto.amount > 0.0
    case ContractExtend(_, _, _, dto, _, _) => dto.interestPaid > 0.0
    case _ => true
  }

  function Apply(db: Db, s: Step): (Db, Reply) {
    if !ValidRequest(s) then (db, Failed(InvalidRequest))
    else
      match s
      case AssetCreate(t, store, dto, newId, now) => CreateAsset(db, t, store, dto, newId, now)
      case AssetUpdate(t, id, changes, status, now) => UpdateAsset(db, t, id, changes, status, now)
      case AssetStatusSet(t, id, status, now) => SetAssetStatus(db, t, id, status, now)
      case CodeGenerate(t, store, clock) => GenerateCode(db, t, store, clock)
      case ContractCreate(t, user, dto, newId, clock) => CreateContract(db, t, user, dto, newId, clock)
      case ContractUpdate(t, id, notes, due, now) => UpdateContract(db, t, id, notes, due, now)
      case ContractStatusSet(t, id, status, user, now) => SetContractStatus(db, t, id, status, user, now)
      case TransactionRecord(t, store, user, dto, newId, now) => RecordTransaction(db, t, store, user, dto, newId, now)
      case ContractExtend(t, store, user, dto, newId, now) => ExtendContract(db, t, store, user, dto, newId, now)
      case TransactionVoid(t, id, user, reason, newId, now) => VoidTransaction(db, t, id, user, reason, newId, now)
  }

  /** The tables after a run of requests. */
  function Run(db: Db, steps: seq<Step>): Db {
    if steps == [] then db
    else Apply(Run(db, steps[..|steps| - 1]), steps[|steps| - 1]).0
  }

  /** The replies of a run, one per request. */
  function Replies(db: Db, steps: seq<Step>): seq<Reply> {
    if steps == [] then []
    else
      var before := steps[..|steps| - 1];
      Replies(db, before) + [Apply(Run(db, before), steps[|steps| - 1]).1]
  }

  /** The tables before any request: stores and customers only. */
  function Initial(stores: map<Id, Store>, customers: map<Id, Customer>): Db {
    Db(stores, customers, map[], [], map[], [], map[], [], [], [])
  }
}
