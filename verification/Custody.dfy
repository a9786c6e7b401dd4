/** The inventory list against the custody count of the dashboard. */
module Custody {
  import opened Domain
  import opened ContractCodes
  import opened Engine
  import opened Frames
  import opened Integrity
  import opened Lifecycle

  /** The asset of some contract a settlement was recorded for. */
  ghost predicate ReturnedBefore(db: Db, asset: Id) {
    exists l | l in db.links :: l.asset == asset && HasSettlement(db.ledger, l.contract)
  }

  /** returned_at is set exactly on the assets a settlement has returned: pledging again does not clear it. */
  ghost predicate ReturnsRecorded(db: Db) {
    forall r | r in db.inventory :: r.returnedAt.Some? <==> ReturnedBefore(db, r.asset)
  }

  predicate InScope(a: Asset, tenant: Id, store: Option<Id>) {
    a.tenant == tenant && a.status == Pawned && (store.Some? ==> a.store == store.value)
  }

  predicate Listed(db: Db, r: InventoryRow, tenant: Id, store: Option<Id>) {
    && r.tenant == tenant && r.asset in db.assets && db.assets[r.asset].status == Pawned && r.returnedAt.None?
    && (store.Some? ==> r.store == store.value)
  }

  /** AssetsService.getInventory: the assets of the listed rows. */
  function GetInventory(db: Db, rows: seq<InventoryRow>, tenant: Id, store: Option<Id>): seq<Id> {
    if rows == [] then []
    else
      var last := rows[|rows| - 1];
      GetInventory(db, rows[..|rows| - 1], tenant, store) + if Listed(db, last, tenant, store) then [last.asset] else []
  }

  /** The rows `assetsInCustody` counts. */
  function AssetsInCustody(db: Db, tenant: Id, store: Option<Id>): set<Id> {
    set a | a in db.assets && InScope(db.assets[a], tenant, store)
  }

  // ---------------------------------------------------------------- what runs keep

  /** Steps that touch neither returned_at nor the settlement rows, and add no link to a settled contract. */
  lemma ReturnsKept(db: Db, db': Db)
    requires Sound(db) && ReturnsRecorded(db)
    requires |db'.inventory| == |db.inventory|
    requires forall i | 0 <= i < |db.inventory| ::
               db'.inventory[i].asset == db.inventory[i].asset && db'.inventory[i].returnedAt == db.inventory[i].returnedAt
    requires forall l | l in db.links :: l in db'.links
    requires forall l | l in db'.links :: l in db.links || l.contract !in db.contracts
    requires forall r | r in db.ledger :: r in db'.ledger
    requires forall r | r in db'.ledger && r.kind == Settlement :: r in db.ledger
    ensures ReturnsRecorded(db')
  {
    assert forall r | r in db.ledger :: LedgerRowOk(db, r);
    forall r | r in db'.inventory ensures r.returnedAt.Some? <==> ReturnedBefore(db', r.asset) {
      var i :| 0 <= i < |db'.inventory| && db'.inventory[i] == r;
      assert db.inventory[i] in db.inventory;
      if ReturnedBefore(db, r.asset) {
        var l :| l in db.links && l.asset == r.asset && HasSettlement(db.ledger, l.contract);
        assert l in db'.links && HasSettlement(db'.ledger, l.contract);
      }
      if ReturnedBefore(db', r.asset) {
        var l :| l in db'.links && l.asset == r.asset && HasSettlement(db'.ledger, l.contract);
        assert HasSettlement(db.ledger, l.contract);
        assert l in db.links;
      }
    }
  }

  /** A settlement row together with the return of the linked assets. */
  lemma SettlementReturns(db: Db, db': Db, row: LedgerRow, now: int)
    requires Sound(db) && ReturnsRecorded(db) && row.kind == Settlement
    requires db'.links == db.links && db'.ledger == db.ledger + [row] && HasContract(db, row.tenant, row.contract)
    requires db'.inventory == ReturnedInventory(db.inventory, LinkedAssets(db.links, row.tenant, row.contract), row.tenant, now)
    ensures ReturnsRecorded(db')
  {
    var ids := LinkedAssets(db.links, row.tenant, row.contract);
    assert forall l | l in db.links :: LinkOk(db, l);
    assert row in db'.ledger;
    assert forall c :: HasSettlement(db'.ledger, c) <==> HasSettlement(db.ledger, c) || c == row.contract by {
      forall c ensures HasSettlement(db'.ledger, c) <==> HasSettlement(db.ledger, c) || c == row.contract {
        SettlementAppend(db.ledger, row, c);
      }
    }
    forall r | r in db'.inventory ensures r.returnedAt.Some? <==> ReturnedBefore(db', r.asset) {
      var i :| 0 <= i < |db'.inventory| && db'.inventory[i] == r;
      assert db.inventory[i] in db.inventory && InventoryRowOk(db, db.inventory[i]);
      if r.asset in ids {
        var l :| l in db.links && l.contract == row.contract && l.tenant == row.tenant && l.asset == r.asset;
        assert HasSettlement(db'.ledger, l.contract);
      } else if ReturnedBefore(db, r.asset) {
        var l :| l in db.links && l.asset == r.asset && HasSettlement(db.ledger, l.contract);
        assert HasSettlement(db'.ledger, l.contract);
      } else {
        assert forall l | l in db.links && l.asset == r.asset :: l.contract != row.contract;
      }
    }
  }

  lemma RecordReturns(db: Db, tenant: Id, store: Id, user: Id, dto: RecordDto, newId: Id, now: int)
    requires Sound(db) && ReturnsRecorded(db)
    ensures ReturnsRecorded(RecordTransaction(db, tenant, store, user, dto, newId, now).0)
  {
    hide Sound, ReturnsRecorded, RedeemedAssets, ReturnedInventory, LinkedAssets, HasRowId;
    var (db', reply) := RecordTransaction(db, tenant, store, user, dto, newId, now);
    if reply.Recorded? {
      if dto.kind == Settlement {
        SettlementReturns(db, db', reply.row, now);
      } else {
        ReturnsKept(db, db');
      }
    }
  }

  lemma CreateReturns(db: Db, tenant: Id, user: Id, dto: CreateContractDto, newId: Id, clock: Clock)
    requires Sound(db) && ReturnsRecorded(db) && clock.Valid()
    ensures ReturnsRecorded(CreateContract(db, tenant, user, dto, newId, clock).0)
  {
    hide Sound, ReturnsRecorded, FindContract, CreateRefusal, YearMonth, Print;
    CreateAcceptance(db, tenant, dto);
    if CreateRefusal(db, tenant, dto) == None && newId !in db.contracts {
      ReturnsKept(db, CreateContract(db, tenant, user, dto, newId, clock).0);
    }
  }

  lemma NewAssetReturns(db: Db, tenant: Id, store: Id, dto: CreateAssetDto, newId: Id, now: int)
    requires Sound(db) && ReturnsRecorded(db)
    ensures ReturnsRecorded(CreateAsset(db, tenant, store, dto, newId, now).0)
  {
    var db' := CreateAsset(db, tenant, store, dto, newId, now).0;
    if newId !in db.assets {
      assert forall l | l in db.links :: LinkOk(db, l);
      assert !ReturnedBefore(db', newId);
      forall r | r in db'.inventory ensures r.returnedAt.Some? <==> ReturnedBefore(db', r.asset) {
        if r in db.inventory {
          assert ReturnedBefore(db', r.asset) == ReturnedBefore(db, r.asset);
        }
      }
    }
  }

  lemma PlainStepReturns(db: Db, s: Step)
    requires Sound(db) && ReturnsRecorded(db)
    requires !s.AssetCreate? && !s.ContractCreate? && !s.TransactionRecord?
    ensures ReturnsRecorded(Apply(db, s).0)
  {
    hide Sound, ReturnsRecorded, Apply, MovesContracts;
    StepFramed(db, s);
    EntriesKept(s, db.ledger, Apply(db, s).0.ledger);
    ReturnsKept(db, Apply(db, s).0);
  }

  lemma EntriesKept(s: Step, ledger: seq<LedgerRow>, ledger': seq<LedgerRow>)
    requires Enters(s, ledger, ledger') && !s.TransactionRecord?
    ensures forall r | r in ledger :: r in ledger'
    ensures forall r | r in ledger' && r.kind == Settlement :: r in ledger
  {
    if ledger' != ledger {
      assert ledger' == ledger + [ledger'[|ledger|]];
    }
  }

  lemma StepReturns(db: Db, s: Step)
    requires Sound(db) && ReturnsRecorded(db)
    ensures ReturnsRecorded(Apply(db, s).0)
  {
    hide Sound, ReturnsRecorded, CreateAsset, CreateContract, RecordTransaction;
    if ValidRequest(s) {
      match s
      case AssetCreate(t, store, dto, newId, now) => NewAssetReturns(db, t, store, dto, newId, now);
      case ContractCreate(t, user, dto, newId, clock) => CreateReturns(db, t, user, dto, newId, clock);
      case TransactionRecord(t, store, user, dto, newId, now) => RecordReturns(db, t, store, user, dto, newId, now);
      case _ => PlainStepReturns(db, s);
    }
  }

  lemma {:induction false} RunReturns(db: Db, steps: seq<Step>)
    requires Sound(db) && ReturnsRecorded(db)
    ensures ReturnsRecorded(Run(db, steps))
  {
    hide Sound, ReturnsRecorded, Apply;
    if steps == [] {
    } else {
      var before := steps[..|steps| - 1];
      RunReturns(db, before);
      RunSound(db, before);
      StepReturns(Run(db, before), steps[|steps| - 1]);
    }
  }

  // ---------------------------------------------------------------- the list and the count

  lemma {:induction false} InventoryMembers(db: Db, rows: seq<InventoryRow>, tenant: Id, store: Option<Id>)
    requires OneRowPerAsset(rows)
    ensures var list := GetInventory(db, rows, tenant, store);
            && Distinct(list)
            && forall a :: a in list <==> exists r | r in rows :: r.asset == a && Listed(db, r, tenant, store)
  {
    hide Listed;
    if rows == [] {
    } else {
      var front, last := rows[..|rows| - 1], rows[|rows| - 1];
      assert rows == front + [last];
      InventoryMembers(db, front, tenant, store);
      NoOtherRow(rows);
      var list := GetInventory(db, front, tenant, store);
      assert last.asset !in list;
      DistinctAppend(list, last.asset);
    }
  }

  lemma NoOtherRow(rows: seq<InventoryRow>)
    requires OneRowPerAsset(rows) && rows != []
    ensures forall r | r in rows[..|rows| - 1] :: r.asset != rows[|rows| - 1].asset
  {
    var front := rows[..|rows| - 1];
    forall r | r in front ensures r.asset != rows[|rows| - 1].asset {
      var i :| 0 <= i < |front| && front[i] == r;
      assert rows[i] == r;
    }
  }

  lemma DistinctAppend(list: seq<Id>, a: Id)
    requires Distinct(list) && a !in list
    ensures Distinct(list + [a])
  {
  }

  /** The list holds exactly the pawned assets of the tenant (and store) never returned by a settlement. */
  lemma InventoryIsUnreturned(db: Db, tenant: Id, store: Option<Id>)
    requires Sound(db) && ReturnsRecorded(db)
    ensures var list := GetInventory(db, db.inventory, tenant, store);
            && Distinct(list)
            && (forall a :: a in list <==>
                  && a in db.assets && db.assets[a].tenant == tenant && db.assets[a].status == Pawned
                  && (store.Some? ==> db.assets[a].store == store.value) && !ReturnedBefore(db, a))
            && Elements(list) == set a | a in AssetsInCustody(db, tenant, store) && !ReturnedBefore(db, a)
  {
    InventoryMembers(db, db.inventory, tenant, store);
    var list := GetInventory(db, db.inventory, tenant, store);
    forall a ensures a in list <==> a in AssetsInCustody(db, tenant, store) && !ReturnedBefore(db, a) {
      if a in list {
        var r :| r in db.inventory && r.asset == a && Listed(db, r, tenant, store);
        assert InventoryRowOk(db, r);
      }
      if a in AssetsInCustody(db, tenant, store) && !ReturnedBefore(db, a) {
        assert HasInventory(db.inventory, a);
        var i :| 0 <= i < |db.inventory| && db.inventory[i].asset == a;
        var r := db.inventory[i];
        assert r in db.inventory && InventoryRowOk(db, r) && Listed(db, r, tenant, store);
      }
    }
  }

  /**
   In every run the list is never longer than the custody count, and equally long exactly when
   no asset now in custody was ever returned by a settlement.
   */
  lemma InventoryAgainstCustody(stores: map<Id, Store>, customers: map<Id, Customer>, steps: seq<Step>, tenant: Id,
          store: Option<Id>)
    ensures var db := Run(Initial(stores, customers), steps);
            var list, custody := GetInventory(db, db.inventory, tenant, store), AssetsInCustody(db, tenant, store);
            && Distinct(list) && Elements(list) == (set a | a in custody && !ReturnedBefore(db, a))
            && (forall a :: a in custody <==>
                  && a in db.assets && db.assets[a].tenant == tenant && db.assets[a].status == Pawned
                  && (store.Some? ==> db.assets[a].store == store.value))
            && |list| <= |custody|
            && (|list| == |custody| <==> forall a | a in custody :: !ReturnedBefore(db, a))
  {
    hide Sound, ReturnsRecorded, Apply;
    var empty := Initial(stores, customers);
    var db := Run(empty, steps);
    assert Sound(empty) && ReturnsRecorded(empty) by {
      EmptyTables(stores, customers);
    }
    RunSound(empty, steps);
    RunReturns(empty, steps);
    InventoryIsUnreturned(db, tenant, store);
    var list, custody := GetInventory(db, db.inventory, tenant, store), AssetsInCustody(db, tenant, store);
    ElementCount(list);
    SubsetCount(Elements(list), custody);
  }

  lemma EmptyTables(stores: map<Id, Store>, customers: map<Id, Customer>)
    ensures Sound(Initial(stores, customers)) && ReturnsRecorded(Initial(stores, customers))
  {
  }
}
