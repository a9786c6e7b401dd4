/**
 The tables the pawn services share, one datatype per row, in the services' own vocabulary.
 Tables with a primary key that services update by id are maps; the others are
 sequences of rows in insertion order.
 */
module Domain {
  import opened ContractCodes
  import Sql

  /** UUIDs: the services only compare them. */
  type Id = nat

  /** NUMERIC(18,2) amounts and rates, as exact numbers. */
  type Money = real

  datatype Option<+T> = None | Some(value: T)

  datatype ContractStatus =
    Draft | Active | NearDue | Overdue | Extended | Settled | Cancelled | LiquidationPending | Liquidated

  datatype AssetStatus = Pawned | Redeemed | Overdue | PendingLiquidation | Liquidated

  datatype InventoryStatus = InStore | Returned

  datatype InterestType = Daily | Monthly | Term

  datatype TransactionType =
    | Disbursement | InterestCollection | FeeCollection | Extension | PartialPrincipal
    | Settlement | Adjustment | Void | Reversal

  datatype PaymentMethod = Cash | BankTransfer | Other

  datatype Store = Store(tenant: Id, code: string)

  datatype Customer = Customer(tenant: Id, fullName: string)

  /** Descriptive columns by name. */
  type Columns = map<string, Sql.Value>

  datatype Asset = Asset(tenant: Id, store: Id, status: AssetStatus, details: Columns, updatedAt: int)

  datatype InventoryRow = InventoryRow(
    tenant: Id, store: Id, asset: Id, locationCode: Option<string>, locationNote: Option<string>,
    receivedAt: int, returnedAt: Option<int>, status: InventoryStatus)

  datatype Contract = Contract(
    tenant: Id, store: Id, customer: Id, code: string,
    principal: Money, rate: Money, interestType: InterestType, startDate: int, dueDate: int,
    status: ContractStatus, notes: Option<string>, createdBy: Id, updatedAt: int, updatedBy: Id)

  /** contract_assets */
  datatype Link = Link(tenant: Id, contract: Id, asset: Id)

  /** contract_transactions */
  datatype LedgerRow = LedgerRow(
    id: Id, tenant: Id, store: Id, contract: Id, kind: TransactionType, amount: Money,
    payment: PaymentMethod, date: int, note: Option<string>, reference: Option<Id>, createdBy: Id)

  /** contract_extensions */
  datatype ExtensionRow = ExtensionRow(
    tenant: Id, contract: Id, oldDue: int, newDue: int, interestPaid: Money, fee: Money, createdBy: Id)

  /** contract_status_history */
  datatype HistoryRow = HistoryRow(tenant: Id, contract: Id, status: ContractStatus, changedBy: Id)

  /** The unique key of contract_sequences. */
  datatype SequenceKey = SequenceKey(tenant: Id, store: Id, yearMonth: string)

  datatype Db = Db(
    stores: map<Id, Store>,
    customers: map<Id, Customer>,
    assets: map<Id, Asset>,
    inventory: seq<InventoryRow>,
    contracts: map<Id, Contract>,
    links: seq<Link>,
    sequences: map<SequenceKey, nat>,
    ledger: seq<LedgerRow>,
    extensions: seq<ExtensionRow>,
    history: seq<HistoryRow>)

  datatype CreateAssetDto = CreateAssetDto(
    details: Columns, locationCode: Option<string>, locationNote: Option<string>)

  datatype CreateContractDto = CreateContractDto(
    store: Id, customer: Id, assets: seq<Id>, principal: Money, rate: Money,
    interestType: InterestType, startDate: int, dueDate: int, notes: Option<string>)

  datatype RecordDto = RecordDto(
    contract: Id, kind: TransactionType, amount: Money, payment: PaymentMethod,
    date: int, note: Option<string>, reference: Option<Id>)

  datatype ExtendDto = ExtendDto(
    contract: Id, newDue: int, interestPaid: Money, fee: Option<Money>, payment: PaymentMethod, note: Option<string>)

  datatype Error =
    | InvalidRequest | DuplicateKey
    | StoreNotFound | CustomerNotFound | AssetsNotFound | AssetsPawned
    | ContractNotFound | AssetNotFound | TransactionNotFound
    | DisbursementNotAllowed | TransactionNotAllowed | ExtensionNotAllowed
    | DueDateLocked | CannotVoid

  /** What `ContractsService.findOne` answers. */
  datatype ContractView = ContractView(
    id: Id, row: Contract, customer: Option<Customer>, assets: seq<(Id, AssetStatus)>)

  /** What `AssetsService.findOne` answers. */
  datatype AssetView = AssetView(id: Id, row: Asset, contract: Option<Id>)

  datatype Reply =
    | Failed(error: Error)
    | AssetIs(asset: AssetView)
    | ContractIs(contract: ContractView)
    | CodeIs(code: string)
    | Recorded(row: LedgerRow, status: ContractStatus)
    | Prolonged(row: LedgerRow, newDue: int)
    | Voided(row: LedgerRow)

  /** One request, with the clock reading and the generated key the server uses for it. */
  datatype Step =
    | AssetCreate(tenant: Id, store: Id, newAsset: CreateAssetDto, newId: Id, now: int)
    | AssetUpdate(tenant: Id, asset: Id, changes: Columns, newStatus: Option<AssetStatus>, now: int)
    | AssetStatusSet(tenant: Id, asset: Id, assetStatus: AssetStatus, now: int)
    | CodeGenerate(tenant: Id, store: Id, clock: Clock)
    | ContractCreate(tenant: Id, user: Id, create: CreateContractDto, newId: Id, clock: Clock)
    | ContractUpdate(tenant: Id, contract: Id, notes: Option<Option<string>>, dueDate: Option<int>, now: int)
    | ContractStatusSet(tenant: Id, contract: Id, status: ContractStatus, user: Id, now: int)
    | TransactionRecord(tenant: Id, store: Id, user: Id, record: RecordDto, newId: Id, now: int)
    | ContractExtend(tenant: Id, store: Id, user: Id, extend: ExtendDto, newId: Id, now: int)
    | TransactionVoid(tenant: Id, transaction: Id, user: Id, reason: string, newId: Id, now: int)

  /** The contract statuses the services treat as no longer open. */
  predicate Closed(s: ContractStatus) {
    s == Settled || s == Cancelled || s == ContractStatus.Liquidated
  }

  /** The statuses that still accept interest, fees, partial principal and settlement. */
  predicate Collectable(s: ContractStatus) {
    s == Active || s == NearDue || s == ContractStatus.Overdue || s == Extended
  }
}
