/** Which tables and rows each kind of step may write, and how. */
module Frames {
  import opened Domain
  import opened ContractCodes
  import opened Engine

  /** The tables a step of this kind writes; the others stay as they were. */
  ghost predicate Writes(s: Step, db: Db, db': Db) {
    match s
    case AssetCreate(_, _, _, _, _) => db' == db.(assets := db'.assets, inventory := db'.inventory)
    case AssetUpdate(_, _, _, _, _) => db' == db.(assets := db'.assets)
    case AssetStatusSet(_, _, _, _) => db' == db.(assets := db'.assets)
    case CodeGenerate(_, _, _) => db' == db.(sequences := db'.sequences)
    case ContractCreate(_, _, _, _, _) =>
      db' == db.(sequences := db'.sequences, contracts := db'.contracts, links := db'.links, assets := db'.assets,
                 inventory := db'.inventory, history := db'.history)
    case ContractUpdate(_, _, _, _, _) => db' == db.(contracts := db'.contracts)
    case ContractStatusSet(_, _, _, _, _) => db' == db.(contracts := db'.contracts, history := db'.history)
    case TransactionRecord(_, _, _, _, _, _) =>
      db' == db.(ledger := db'.ledger, contracts := db'.contracts, history := db'.history, assets := db'.assets,
                 inventory := db'.inventory)
    case ContractExtend(_, _, _, _, _, _) =>
      db' == db.(ledger := db'.ledger, extensions := db'.extensions, contracts := db'.contracts, history := db'.history)
    case TransactionVoid(_, _, _, _, _, _) => db' == db.(ledger := db'.ledger)
  }

  /** How a step of this kind may change a contract that is there. */
  ghost predicate Moves(s: Step, ledger: seq<LedgerRow>, id: Id, c: Contract, c': Contract) {
    match s
    case ContractUpdate(_, _, _, _, _) =>
      c'.status == c.status && (c'.dueDate == c.dueDate || !HasTransactions(ledger, c.tenant, id))
    case ContractStatusSet(_, _, _, _, _) => c'.dueDate == c.dueDate
    case TransactionRecord(_, _, _, _, _, _) => c'.dueDate == c.dueDate && (c'.status == c.status || c'.status == Settled)
    case ContractExtend(_, _, _, _, _, _) => c'.status == c.status || (c'.status == Extended && Collectable(c.status))
    case _ => c' == c
  }

  ghost predicate MovesContracts(s: Step, db: Db, db': Db) {
    forall id | id in db.contracts :: id in db'.contracts && Moves(s, db.ledger, id, db.contracts[id], db'.contracts[id])
  }

  /** At most one ledger row is appended, of the kind the step writes. */
  ghost predicate Enters(s: Step, ledger: seq<LedgerRow>, ledger': seq<LedgerRow>) {
    ledger' == ledger ||
    (|ledger'| == |ledger| + 1 && ledger'[..|ledger|] == ledger &&
     match s
     case TransactionRecord(_, _, _, dto, _, _) => ledger'[|ledger|].kind == dto.kind
     case ContractExtend(_, _, _, _, _, _) => ledger'[|ledger|].kind == Extension
     case TransactionVoid(_, _, _, _, _, _) => ledger'[|ledger|].kind == Void
     case _ => false)
  }

  ghost predicate Framed(s: Step, db: Db, db': Db) {
    Writes(s, db, db') && MovesContracts(s, db, db') && Enters(s, db.ledger, db'.ledger) &&
    (s.ContractCreate? || db'.contracts.Keys == db.contracts.Keys)
  }

  lemma NothingFramed(s: Step, db: Db)
    ensures Framed(s, db, db)
  {
  }

  lemma CreateAssetFramed(db: Db, s: Step)
    requires s.AssetCreate?
    ensures Framed(s, db, CreateAsset(db, s.tenant, s.store, s.newAsset, s.newId, s.now).0)
  {
  }

  lemma UpdateAssetFramed(db: Db, s: Step)
    requires s.AssetUpdate?
    ensures Framed(s, db, UpdateAsset(db, s.tenant, s.asset, s.changes, s.newStatus, s.now).0)
  {
    hide FindAsset;
  }

  lemma SetAssetStatusFramed(db: Db, s: Step)
    requires s.AssetStatusSet?
    ensures Framed(s, db, SetAssetStatus(db, s.tenant, s.asset, s.assetStatus, s.now).0)
  {
    hide FindAsset;
  }

  lemma GenerateCodeFramed(db: Db, s: Step)
    requires s.CodeGenerate? && s.clock.Valid()
    ensures Framed(s, db, GenerateCode(db, s.tenant, s.store, s.clock).0)
  {
    hide YearMonth, Print;
  }

  lemma CreateContractFramed(db: Db, s: Step)
    requires s.ContractCreate? && s.clock.Valid()
    ensures Framed(s, db, CreateContract(db, s.tenant, s.user, s.create, s.newId, s.clock).0)
  {
    hide FindContract, YearMonth, Print, PledgedAssets, PledgedInventory, PledgeLinks, SelectedAssets;
  }

  lemma UpdateContractFramed(db: Db, s: Step)
    requires s.ContractUpdate?
    ensures Framed(s, db, UpdateContract(db, s.tenant, s.contract, s.notes, s.dueDate, s.now).0)
  {
    hide FindContract, HasTransactions;
  }

  lemma SetContractStatusFramed(db: Db, s: Step)
    requires s.ContractStatusSet?
    ensures Framed(s, db, SetContractStatus(db, s.tenant, s.contract, s.status, s.user, s.now).0)
  {
    hide FindContract;
  }

  lemma EntryFramed(db: Db, s: Step, row: LedgerRow)
    requires s.TransactionRecord? && row.kind == s.record.kind
    ensures Framed(s, db, db.(ledger := db.ledger + [row]))
  {
  }

  lemma SettleFramed(db: Db, s: Step, row: LedgerRow)
    requires s.TransactionRecord? && row.kind == s.record.kind && s.record.contract in db.contracts
    ensures Framed(s, db, Settle(db.(ledger := db.ledger + [row]), s.tenant, s.user, s.record.contract, s.now))
  {
    hide LinkedAssets, RedeemedAssets, ReturnedInventory;
  }

  lemma RecordFramed(db: Db, s: Step)
    requires s.TransactionRecord?
    ensures Framed(s, db, RecordTransaction(db, s.tenant, s.store, s.user, s.record, s.newId, s.now).0)
  {
    hide HasRowId, Framed, Settle;
    var reply := RecordTransaction(db, s.tenant, s.store, s.user, s.record, s.newId, s.now).1;
    NothingFramed(s, db);
    if reply.Recorded? {
      EntryFramed(db, s, reply.row);
      SettleFramed(db, s, reply.row);
    }
  }

  lemma ExtendFramed(db: Db, s: Step)
    requires s.ContractExtend?
    ensures Framed(s, db, ExtendContract(db, s.tenant, s.store, s.user, s.extend, s.newId, s.now).0)
  {
    hide HasRowId, Framed;
    var (db', reply) := ExtendContract(db, s.tenant, s.store, s.user, s.extend, s.newId, s.now);
    NothingFramed(s, db);
    if reply.Prolonged? {
      ProlongedFramed(db, s, reply.row, db'.extensions[|db.extensions|], db'.contracts[s.extend.contract],
                      db'.history[|db.history|]);
    }
  }

  lemma ProlongedFramed(db: Db, s: Step, row: LedgerRow, extension: ExtensionRow, c: Contract, entry: HistoryRow)
    requires s.ContractExtend? && row.kind == Extension && s.extend.contract in db.contracts
    requires c.status == Extended && Collectable(db.contracts[s.extend.contract].status)
    ensures Framed(s, db, db.(ledger := db.ledger + [row], extensions := db.extensions + [extension],
                              contracts := db.contracts[s.extend.contract := c], history := db.history + [entry]))
  {
  }

  lemma VoidFramed(db: Db, s: Step)
    requires s.TransactionVoid?
    ensures Framed(s, db, VoidTransaction(db, s.tenant, s.transaction, s.user, s.reason, s.newId, s.now).0)
  {
    hide HasRowId, FindTransaction;
  }

  /** Every step stays within the frame of its kind. */
  lemma StepFramed(db: Db, s: Step)
    ensures Framed(s, db, Apply(db, s).0)
  {
    hide Framed, CreateAsset, UpdateAsset, SetAssetStatus, GenerateCode, CreateContract, UpdateContract,
         SetContractStatus, RecordTransaction, ExtendContract, VoidTransaction;
    NothingFramed(s, db);
    if ValidRequest(s) {
      match s
      case AssetCreate(_, _, _, _, _) => CreateAssetFramed(db, s);
      case AssetUpdate(_, _, _, _, _) => UpdateAssetFramed(db, s);
      case AssetStatusSet(_, _, _, _) => SetAssetStatusFramed(db, s);
      case CodeGenerate(_, _, _) => GenerateCodeFramed(db, s);
      case ContractCreate(_, _, _, _, _) => CreateContractFramed(db, s);
      case ContractUpdate(_, _, _, _, _) => UpdateContractFramed(db, s);
      case ContractStatusSet(_, _, _, _, _) => SetContractStatusFramed(db, s);
      case TransactionRecord(_, _, _, _, _, _) => RecordFramed(db, s);
      case ContractExtend(_, _, _, _, _, _) => ExtendFramed(db, s);
      case TransactionVoid(_, _, _, _, _, _) => VoidFramed(db, s);
    }
  }
}
