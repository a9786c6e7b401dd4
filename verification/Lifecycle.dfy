/** The life of a contract in runs without manual status changes. */
module Lifecycle {
  import opened Domain
  import opened ContractCodes
  import opened Engine
  import opened Frames
  import opened Integrity

  function StatusesOf(rows: seq<HistoryRow>, contract: Id): seq<ContractStatus> {
    if rows == [] then []
    else
      var last := rows[|rows| - 1];
      StatusesOf(rows[..|rows| - 1], contract) + if last.contract == contract then [last.status] else []
  }

  /** active, then perhaps extended, then perhaps settled. */
  ghost predicate LegalLife(statuses: seq<ContractStatus>) {
    statuses == [Active] || statuses == [Active, Extended] || statuses == [Active, Settled] ||
    statuses == [Active, Extended, Settled]
  }

  lemma LegalAppend(statuses: seq<ContractStatus>, next: ContractStatus)
    requires LegalLife(statuses)
    ensures statuses[|statuses| - 1] == Active && (next == Extended || next == Settled) ==> LegalLife(statuses + [next])
    ensures statuses[|statuses| - 1] == Extended && next == Settled ==> LegalLife(statuses + [next])
  {
  }

  /** The kinds of transaction whose status check a settled contract fails. */
  predicate Checked(kind: TransactionType) {
    kind == Disbursement || kind == InterestCollection || kind == FeeCollection || kind == PartialPrincipal || kind == Settlement
  }

  ghost predicate HasSettlement(ledger: seq<LedgerRow>, contract: Id) {
    exists r | r in ledger :: r.contract == contract && r.kind == Settlement
  }

  /**
   No checked transaction of the contract follows a settlement of it; in particular there is at most one
   settlement.
   */
  ghost predicate QuietAfterSettlement(ledger: seq<LedgerRow>, contract: Id) {
    forall i, j | 0 <= i < j < |ledger| && ledger[i].contract == ledger[j].contract == contract && ledger[i].kind == Settlement ::
      !Checked(ledger[j].kind)
  }

  ghost predicate LifeOf(db: Db, id: Id)
    requires id in db.contracts
  {
    var statuses := StatusesOf(db.history, id);
    && LegalLife(statuses)
    && statuses[|statuses| - 1] == db.contracts[id].status
    && (HasSettlement(db.ledger, id) <==> db.contracts[id].status == Settled)
    && QuietAfterSettlement(db.ledger, id)
  }

  ghost predicate Lives(db: Db) {
    forall id | id in db.contracts :: LifeOf(db, id)
  }

  lemma {:induction false} NoHistory(rows: seq<HistoryRow>, contract: Id)
    requires forall r | r in rows :: r.contract != contract
    ensures StatusesOf(rows, contract) == []
  {
    if rows == [] {
    } else {
      var front, last := rows[..|rows| - 1], rows[|rows| - 1];
      assert rows == front + [last];
      NoHistory(front, contract);
    }
  }

  lemma StatusAppend(rows: seq<HistoryRow>, r: HistoryRow, contract: Id)
    ensures StatusesOf(rows + [r], contract) == StatusesOf(rows, contract) + if r.contract == contract then [r.status] else []
  {
    assert (rows + [r])[..|rows|] == rows;
  }

  lemma SettlementAppend(ledger: seq<LedgerRow>, r: LedgerRow, contract: Id)
    ensures HasSettlement(ledger + [r], contract) <==>
            HasSettlement(ledger, contract) || (r.contract == contract && r.kind == Settlement)
    ensures QuietAfterSettlement(ledger + [r], contract) <==>
            QuietAfterSettlement(ledger, contract) &&
            (HasSettlement(ledger, contract) && r.contract == contract ==> !Checked(r.kind))
  {
    var ledger' := ledger + [r];
    if HasSettlement(ledger, contract) {
      var x :| x in ledger && x.contract == contract && x.kind == Settlement;
      assert x in ledger';
      var i :| 0 <= i < |ledger| && ledger[i] == x;
      assert ledger'[i] == x && ledger'[|ledger|] == r;
    }
    if r.contract == contract && r.kind == Settlement {
      assert r in ledger';
    }
    if QuietAfterSettlement(ledger', contract) {
      forall i, j | 0 <= i < j < |ledger| && ledger[i].contract == ledger[j].contract == contract && ledger[i].kind == Settlement
        ensures !Checked(ledger[j].kind)
      {
        assert ledger'[i] == ledger[i] && ledger'[j] == ledger[j];
      }
    }
    if QuietAfterSettlement(ledger, contract) && (HasSettlement(ledger, contract) && r.contract == contract ==> !Checked(r.kind)) {
      forall i, j | 0 <= i < j < |ledger'| && ledger'[i].contract == ledger'[j].contract == contract && ledger'[i].kind == Settlement
        ensures !Checked(ledger'[j].kind)
      {
        assert ledger[i] in ledger;
        if j < |ledger| {
          assert ledger'[j] == ledger[j];
        }
      }
    }
  }

  /** A step that changes no status and appends no checked transaction. */
  lemma LivesKept(db: Db, db': Db)
    requires Lives(db) && db'.history == db.history && db'.contracts.Keys == db.contracts.Keys
    requires forall id | id in db.contracts :: db'.contracts[id].status == db.contracts[id].status
    requires db'.ledger == db.ledger ||
             (|db'.ledger| == |db.ledger| + 1 && db'.ledger[..|db.ledger|] == db.ledger && !Checked(db'.ledger[|db.ledger|].kind))
    ensures Lives(db')
  {
    hide LegalLife, HasSettlement, QuietAfterSettlement, StatusesOf;
    forall id | id in db'.contracts ensures LifeOf(db', id) {
      assert LifeOf(db, id);
      if db'.ledger != db.ledger {
        var row := db'.ledger[|db.ledger|];
        assert db'.ledger == db.ledger + [row];
        SettlementAppend(db.ledger, row, id);
      }
    }
  }

  /** A contract that just came into being, active. */
  lemma NewContractLives(db: Db, db': Db, newId: Id, entry: HistoryRow)
    requires Sound(db) && Lives(db) && newId !in db.contracts
    requires newId in db'.contracts && db'.contracts == db.contracts[newId := db'.contracts[newId]]
    requires db'.contracts[newId].status == Active == entry.status && entry.contract == newId
    requires db'.history == db.history + [entry] && db'.ledger == db.ledger
    ensures Lives(db')
  {
    hide Sound;
    NothingYet(db, newId);
    forall id | id in db'.contracts ensures LifeOf(db', id) {
      StatusAppend(db.history, entry, id);
      if id != newId {
        assert LifeOf(db, id);
        assert StatusesOf(db'.history, id) == StatusesOf(db.history, id);
      } else {
        assert StatusesOf(db'.history, id) == [Active];
      }
    }
  }

  lemma CreateLives(db: Db, tenant: Id, user: Id, dto: CreateContractDto, newId: Id, clock: Clock)
    requires Sound(db) && Lives(db) && clock.Valid()
    ensures Lives(CreateContract(db, tenant, user, dto, newId, clock).0)
  {
    hide Sound, Lives, FindContract, CreateRefusal, YearMonth, Print, PledgedAssets, PledgedInventory, PledgeLinks;
    CreateAcceptance(db, tenant, dto);
    if CreateRefusal(db, tenant, dto) == None && newId !in db.contracts {
      NewContractLives(db, CreateContract(db, tenant, user, dto, newId, clock).0, newId,
                       HistoryRow(tenant, newId, Active, user));
    }
  }

  lemma NothingYet(db: Db, id: Id)
    requires Sound(db) && id !in db.contracts
    ensures StatusesOf(db.history, id) == [] && !HasSettlement(db.ledger, id) && QuietAfterSettlement(db.ledger, id)
  {
    assert forall r | r in db.history :: OwnedBy(db, r.contract, r.tenant);
    NoHistory(db.history, id);
    assert forall r | r in db.ledger :: LedgerRowOk(db, r);
    assert forall i | 0 <= i < |db.ledger| :: db.ledger[i] in db.ledger;
  }

  /** A ledger row of a contract, with the change of status that goes with it. */
  lemma EntryLives(db: Db, db': Db, row: LedgerRow, entry: HistoryRow)
    requires Lives(db) && row.contract in db.contracts && entry.contract == row.contract
    requires db'.ledger == db.ledger + [row] && db'.history == db.history + [entry]
    requires row.contract in db'.contracts && db'.contracts == db.contracts[row.contract := db'.contracts[row.contract]]
    requires db'.contracts[row.contract].status == entry.status
    requires var status := db.contracts[row.contract].status;
             (row.kind == Settlement && entry.status == Settled && Collectable(status)) ||
             (row.kind == Extension && entry.status == Extended && Collectable(status) && status != Extended)
    ensures Lives(db')
  {
    forall id | id in db'.contracts ensures LifeOf(db', id) {
      assert LifeOf(db, id);
      SettlementAppend(db.ledger, row, id);
      StatusAppend(db.history, entry, id);
      if id == row.contract {
        LegalAppend(StatusesOf(db.history, id), entry.status);
      } else {
        assert StatusesOf(db'.history, id) == StatusesOf(db.history, id);
      }
    }
  }

  /** A ledger row that changes no status and passed its status check. */
  lemma PlainEntryLives(db: Db, db': Db, row: LedgerRow)
    requires Lives(db) && row.contract in db.contracts && row.kind != Settlement
    requires db' == db.(ledger := db.ledger + [row])
    requires Checked(row.kind) ==> db.contracts[row.contract].status != Settled
    ensures Lives(db')
  {
    forall id | id in db'.contracts ensures LifeOf(db', id) {
      assert LifeOf(db, id);
      SettlementAppend(db.ledger, row, id);
    }
  }

  lemma RecordLives(db: Db, tenant: Id, store: Id, user: Id, dto: RecordDto, newId: Id, now: int)
    requires Lives(db)
    ensures Lives(RecordTransaction(db, tenant, store, user, dto, newId, now).0)
  {
    hide Lives, RedeemedAssets, ReturnedInventory, LinkedAssets, HasRowId;
    var (db', reply) := RecordTransaction(db, tenant, store, user, dto, newId, now);
    if reply.Recorded? {
      if dto.kind == Settlement {
        EntryLives(db, db', reply.row, HistoryRow(tenant, dto.contract, Settled, user));
      } else {
        PlainEntryLives(db, db', reply.row);
      }
    }
  }

  lemma ExtendLives(db: Db, tenant: Id, store: Id, user: Id, dto: ExtendDto, newId: Id, now: int)
    requires Lives(db)
    ensures Lives(ExtendContract(db, tenant, store, user, dto, newId, now).0)
  {
    hide Lives, HasRowId;
    var (db', reply) := ExtendContract(db, tenant, store, user, dto, newId, now);
    if reply.Prolonged? {
      EntryLives(db, db', reply.row, HistoryRow(tenant, dto.contract, Extended, user));
    }
  }

  lemma PlainStepLives(db: Db, s: Step)
    requires Lives(db)
    requires !s.ContractStatusSet? && !s.ContractCreate? && !s.TransactionRecord? && !s.ContractExtend?
    ensures Lives(Apply(db, s).0)
  {
    hide Lives, Apply, HasTransactions;
    StepFramed(db, s);
    LivesKept(db, Apply(db, s).0);
  }

  ghost predicate NoManualStatus(steps: seq<Step>) {
    forall i | 0 <= i < |steps| :: !steps[i].ContractStatusSet?
  }

  /**
   Every run without manual status changes keeps every contract's life legal and its ledger quiet after
   settlement.
   */
  lemma {:induction false} RunLives(db: Db, steps: seq<Step>)
    requires Sound(db) && Lives(db) && NoManualStatus(steps)
    ensures Lives(Run(db, steps))
  {
    hide Sound, Lives, CreateContract, RecordTransaction, ExtendContract;
    if steps == [] {
    } else {
      var before, s := steps[..|steps| - 1], steps[|steps| - 1];
      RunLives(db, before);
      RunSound(db, before);
      StepLives(Run(db, before), s);
    }
  }

  lemma StepLives(db: Db, s: Step)
    requires Sound(db) && Lives(db) && !s.ContractStatusSet?
    ensures Lives(Apply(db, s).0)
  {
    hide Sound, Lives, CreateContract, RecordTransaction, ExtendContract;
    if ValidRequest(s) {
      match s
      case ContractCreate(t, user, dto, newId, clock) => CreateLives(db, t, user, dto, newId, clock);
      case TransactionRecord(t, store, user, dto, newId, now) => RecordLives(db, t, store, user, dto, newId, now);
      case ContractExtend(t, store, user, dto, newId, now) => ExtendLives(db, t, store, user, dto, newId, now);
      case _ => PlainStepLives(db, s);
    }
  }

  /** The lifecycle theorem, from empty tables. */
  lemma LifecycleLanguage(stores: map<Id, Store>, customers: map<Id, Customer>, steps: seq<Step>, id: Id)
    requires NoManualStatus(steps) && id in Run(Initial(stores, customers), steps).contracts
    ensures var db := Run(Initial(stores, customers), steps);
            var statuses := StatusesOf(db.history, id);
            && LegalLife(statuses) && statuses[|statuses| - 1] == db.contracts[id].status
            && (HasSettlement(db.ledger, id) <==> db.contracts[id].status == Settled)
            && QuietAfterSettlement(db.ledger, id)
  {
    hide Apply, Run, Lives, Sound, LegalLife, QuietAfterSettlement;
    NothingLives(stores, customers);
    RunLives(Initial(stores, customers), steps);
    LifeHolds(Run(Initial(stores, customers), steps), id);
  }

  lemma NothingLives(stores: map<Id, Store>, customers: map<Id, Customer>)
    ensures Sound(Initial(stores, customers)) && Lives(Initial(stores, customers))
  {
  }

  lemma LifeHolds(db: Db, id: Id)
    requires Lives(db) && id in db.contracts
    ensures LifeOf(db, id)
  {
  }
}
