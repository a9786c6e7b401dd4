/**
 Tenants do not affect each other: what a tenant sees of a shared run is what it would
 have seen running alone on its own rows.
 */
module Isolation {
  import opened Domain
  import opened ContractCodes
  import opened Engine
  import opened Integrity

  // ---------------------------------------------------------------- one tenant's rows

  /** The rows of one tenant, in table order. */
  function Own<T>(rows: seq<T>, tenantOf: T -> Id, t: Id): seq<T> {
    if rows == [] then []
    else
      var last := rows[|rows| - 1];
      Own(rows[..|rows| - 1], tenantOf, t) + if tenantOf(last) == t then [last] else []
  }

  function LinkTenant(r: Link): Id { r.tenant }
  function LedgerTenant(r: LedgerRow): Id { r.tenant }
  function ExtensionTenant(r: ExtensionRow): Id { r.tenant }
  function HistoryTenant(r: HistoryRow): Id { r.tenant }
  function InventoryTenant(r: InventoryRow): Id { r.tenant }
  function StepTenant(s: Step): Id { s.tenant }

  function OwnStores(stores: map<Id, Store>, t: Id): map<Id, Store> {
    map k | k in stores && stores[k].tenant == t :: stores[k]
  }

  function OwnCustomers(customers: map<Id, Customer>, t: Id): map<Id, Customer> {
    map k | k in customers && customers[k].tenant == t :: customers[k]
  }

  function OwnAssets(assets: map<Id, Asset>, t: Id): map<Id, Asset> {
    map k | k in assets && assets[k].tenant == t :: assets[k]
  }

  function OwnContracts(contracts: map<Id, Contract>, t: Id): map<Id, Contract> {
    map k | k in contracts && contracts[k].tenant == t :: contracts[k]
  }

  function OwnSequences(sequences: map<SequenceKey, nat>, t: Id): map<SequenceKey, nat> {
    map k | k in sequences && k.tenant == t :: sequences[k]
  }

  /** The database cut down to the rows of one tenant. */
  function Restrict(db: Db, t: Id): Db {
    Db(OwnStores(db.stores, t),
       OwnCustomers(db.customers, t),
       OwnAssets(db.assets, t),
       Own(db.inventory, InventoryTenant, t),
       OwnContracts(db.contracts, t),
       Own(db.links, LinkTenant, t),
       OwnSequences(db.sequences, t),
       Own(db.ledger, LedgerTenant, t),
       Own(db.extensions, ExtensionTenant, t),
       Own(db.history, HistoryTenant, t))
  }

  lemma OwnAppend<T>(rows: seq<T>, r: T, tenantOf: T -> Id, t: Id)
    ensures Own(rows + [r], tenantOf, t) == Own(rows, tenantOf, t) + if tenantOf(r) == t then [r] else []
  {
    assert (rows + [r])[..|rows|] == rows;
  }

  lemma {:induction false} OwnConcat<T>(a: seq<T>, b: seq<T>, tenantOf: T -> Id, t: Id)
    ensures Own(a + b, tenantOf, t) == Own(a, tenantOf, t) + Own(b, tenantOf, t)
  {
    if b == [] {
      assert a + b == a;
    } else {
      var front := b[..|b| - 1];
      assert (a + b)[..|a + b| - 1] == a + front;
      OwnConcat(a, front, tenantOf, t);
    }
  }

  lemma {:induction false} OwnMembers<T>(rows: seq<T>, tenantOf: T -> Id, t: Id)
    ensures forall r :: r in Own(rows, tenantOf, t) <==> r in rows && tenantOf(r) == t
  {
    if rows == [] {
    } else {
      var front, last := rows[..|rows| - 1], rows[|rows| - 1];
      OwnMembers(front, tenantOf, t);
      assert rows == front + [last];
    }
  }

  lemma {:induction false} OwnAll<T>(rows: seq<T>, tenantOf: T -> Id, t: Id)
    requires forall r | r in rows :: tenantOf(r) == t
    ensures Own(rows, tenantOf, t) == rows
  {
    if rows == [] {
    } else {
      var front, last := rows[..|rows| - 1], rows[|rows| - 1];
      assert rows == front + [last];
      OwnAll(front, tenantOf, t);
    }
  }

  lemma {:induction false} OwnNone<T>(rows: seq<T>, tenantOf: T -> Id, t: Id)
    requires forall r | r in rows :: tenantOf(r) != t
    ensures Own(rows, tenantOf, t) == []
  {
    if rows == [] {
    } else {
      var front, last := rows[..|rows| - 1], rows[|rows| - 1];
      assert rows == front + [last];
      OwnNone(front, tenantOf, t);
    }
  }

  // ---------------------------------------------------------------- reads

  lemma {:induction false} JoinSeesOwnRows(links: seq<Link>, assets: map<Id, Asset>, own: map<Id, Asset>, t: Id,
          contract: Id)
    requires forall l | l in links && l.tenant == t && l.contract == contract :: l.asset in assets && assets[l.asset].tenant == t
    requires forall a | a in assets && assets[a].tenant == t :: a in own && own[a] == assets[a]
    ensures JoinedAssets(Own(links, LinkTenant, t), own, t, contract) == JoinedAssets(links, assets, t, contract)
  {
    if links == [] {
    } else {
      var front, last := links[..|links| - 1], links[|links| - 1];
      assert links == front + [last];
      JoinSeesOwnRows(front, assets, own, t, contract);
      if last.tenant == t {
        var kept := Own(front, LinkTenant, t) + [last];
        assert Own(links, LinkTenant, t) == kept;
        assert kept[..|kept| - 1] == Own(front, LinkTenant, t);
      } else {
        assert Own(links, LinkTenant, t) == Own(front, LinkTenant, t);
      }
    }
  }

  lemma {:induction false} FirstContractSeesOwnRows(links: seq<Link>, t: Id, asset: Id)
    requires forall l | l in links && l.asset == asset :: l.tenant == t
    ensures FirstContract(Own(links, LinkTenant, t), asset) == FirstContract(links, asset)
  {
    if links == [] {
    } else {
      var front, last := links[..|links| - 1], links[|links| - 1];
      assert links == front + [last];
      FirstContractSeesOwnRows(front, t, asset);
      if last.tenant == t {
        var kept := Own(front, LinkTenant, t) + [last];
        assert Own(links, LinkTenant, t) == kept;
        assert kept[..|kept| - 1] == Own(front, LinkTenant, t);
      } else {
        assert Own(links, LinkTenant, t) == Own(front, LinkTenant, t);
      }
    }
  }

  lemma {:induction false} FindTransactionSeesOwnRows(ledger: seq<LedgerRow>, t: Id, id: Id)
    ensures var own := Own(ledger, LedgerTenant, t);
            var i, j := FindTransaction(ledger, t, id), FindTransaction(own, t, id);
            (i < 0 <==> j < 0) && (i >= 0 ==> own[j] == ledger[i])
  {
    if ledger == [] {
    } else {
      var front, last := ledger[..|ledger| - 1], ledger[|ledger| - 1];
      FindTransactionSeesOwnRows(front, t, id);
      if last.tenant == t {
        var kept := Own(front, LedgerTenant, t) + [last];
        assert Own(ledger, LedgerTenant, t) == kept;
        assert kept[..|kept| - 1] == Own(front, LedgerTenant, t);
      } else {
        assert Own(ledger, LedgerTenant, t) == Own(front, LedgerTenant, t);
      }
    }
  }

  /** Reading a contract or an asset gives the same answer on the tenant's own rows. */
  lemma FindSeesOwnRows(db: Db, t: Id, id: Id)
    requires Sound(db)
    ensures FindContract(Restrict(db, t), t, id) == FindContract(db, t, id)
    ensures FindAsset(Restrict(db, t), t, id) == FindAsset(db, t, id)
  {
    var own := Restrict(db, t);
    if HasContract(db, t, id) {
      assert ContractOk(db, id);
      forall l | l in db.links && l.tenant == t && l.contract == id
        ensures l.asset in db.assets && db.assets[l.asset].tenant == t
      {
        assert LinkOk(db, l);
      }
      JoinSeesOwnRows(db.links, db.assets, own.assets, t, id);
    }
    if HasAsset(db, t, id) {
      forall l | l in db.links && l.asset == id ensures l.tenant == t {
        assert LinkOk(db, l);
      }
      FirstContractSeesOwnRows(db.links, t, id);
    }
  }

  // ---------------------------------------------------------------- writes

  lemma PledgedAppend(rows: seq<InventoryRow>, r: InventoryRow, ids: seq<Id>, tenant: Id, now: int)
    ensures PledgedInventory(rows + [r], ids, tenant, now) ==
            PledgedInventory(rows, ids, tenant, now) + PledgedInventory([r], ids, tenant, now)
  {
  }

  lemma {:induction false} OwnPledgedInventory(rows: seq<InventoryRow>, ids: seq<Id>, tenant: Id, now: int, t: Id)
    ensures Own(PledgedInventory(rows, ids, tenant, now), InventoryTenant, t) ==
            if tenant == t then PledgedInventory(Own(rows, InventoryTenant, t), ids, tenant, now)
            else Own(rows, InventoryTenant, t)
  {
    if rows == [] {
    } else {
      var front, last := rows[..|rows| - 1], rows[|rows| - 1];
      var changed := PledgedInventory([last], ids, tenant, now)[0];
      assert PledgedInventory([last], ids, tenant, now) == [changed];
      hide PledgedInventory, Own;
      assert rows == front + [last];
      OwnPledgedInventory(front, ids, tenant, now, t);
      PledgedAppend(front, last, ids, tenant, now);
      PledgedAppend(Own(front, InventoryTenant, t), last, ids, tenant, now);
      OwnAppend(front, last, InventoryTenant, t);
      OwnAppend(PledgedInventory(front, ids, tenant, now), changed, InventoryTenant, t);
    }
  }

  lemma ReturnedAppend(rows: seq<InventoryRow>, r: InventoryRow, ids: set<Id>, tenant: Id, now: int)
    ensures ReturnedInventory(rows + [r], ids, tenant, now) ==
            ReturnedInventory(rows, ids, tenant, now) + ReturnedInventory([r], ids, tenant, now)
  {
  }

  lemma {:induction false} OwnReturnedInventory(rows: seq<InventoryRow>, ids: set<Id>, tenant: Id, now: int, t: Id)
    ensures Own(ReturnedInventory(rows, ids, tenant, now), InventoryTenant, t) ==
            if tenant == t then ReturnedInventory(Own(rows, InventoryTenant, t), ids, tenant, now)
            else Own(rows, InventoryTenant, t)
  {
    if rows == [] {
    } else {
      var front, last := rows[..|rows| - 1], rows[|rows| - 1];
      var changed := ReturnedInventory([last], ids, tenant, now)[0];
      assert ReturnedInventory([last], ids, tenant, now) == [changed];
      hide ReturnedInventory, Own;
      assert rows == front + [last];
      OwnReturnedInventory(front, ids, tenant, now, t);
      ReturnedAppend(front, last, ids, tenant, now);
      ReturnedAppend(Own(front, InventoryTenant, t), last, ids, tenant, now);
      OwnAppend(front, last, InventoryTenant, t);
      OwnAppend(ReturnedInventory(front, ids, tenant, now), changed, InventoryTenant, t);
    }
  }

  lemma OwnPledgeLinks(links: seq<Link>, tenant: Id, contract: Id, ids: seq<Id>, t: Id)
    ensures Own(links + PledgeLinks(tenant, contract, ids), LinkTenant, t) ==
            Own(links, LinkTenant, t) + if tenant == t then PledgeLinks(tenant, contract, ids) else []
  {
    var added := PledgeLinks(tenant, contract, ids);
    OwnConcat(links, added, LinkTenant, t);
    if tenant == t {
      OwnAll(added, LinkTenant, t);
    } else {
      OwnNone(added, LinkTenant, t);
    }
  }

  lemma OwnPledgedAssets(assets: map<Id, Asset>, ids: seq<Id>, tenant: Id, now: int, t: Id)
    ensures OwnAssets(PledgedAssets(assets, ids, tenant, now), t) ==
            if tenant == t then PledgedAssets(OwnAssets(assets, t), ids, tenant, now) else OwnAssets(assets, t)
  {
  }

  lemma OwnRedeemedAssets(assets: map<Id, Asset>, ids: set<Id>, tenant: Id, now: int, t: Id)
    ensures OwnAssets(RedeemedAssets(assets, ids, tenant, now), t) ==
            if tenant == t then RedeemedAssets(OwnAssets(assets, t), ids, tenant, now) else OwnAssets(assets, t)
  {
  }

  lemma OwnContractPut(contracts: map<Id, Contract>, id: Id, c: Contract, t: Id)
    requires id in contracts ==> c.tenant == contracts[id].tenant
    ensures OwnContracts(contracts[id := c], t) ==
            if c.tenant == t then OwnContracts(contracts, t)[id := c] else OwnContracts(contracts, t)
  {
  }

  lemma OwnAssetPut(assets: map<Id, Asset>, id: Id, a: Asset, t: Id)
    requires id in assets ==> a.tenant == assets[id].tenant
    ensures OwnAssets(assets[id := a], t) ==
            if a.tenant == t then OwnAssets(assets, t)[id := a] else OwnAssets(assets, t)
  {
  }

  lemma OwnSequencePut(sequences: map<SequenceKey, nat>, key: SequenceKey, n: nat, t: Id)
    ensures OwnSequences(sequences[key := n], t) ==
            if key.tenant == t then OwnSequences(sequences, t)[key := n] else OwnSequences(sequences, t)
  {
  }

  // The checks before an insert into the ledger.

  predicate RecordPasses(db: Db, t: Id, store: Id, dto: RecordDto) {
    && HasContract(db, t, dto.contract) && db.contracts[dto.contract].store == store
    && RecordRefusal(dto.kind, db.contracts[dto.contract].status) == None
  }

  predicate ExtendPasses(db: Db, t: Id, store: Id, dto: ExtendDto) {
    && HasContract(db, t, dto.contract) && db.contracts[dto.contract].store == store
    && db.contracts[dto.contract].status in {Active, NearDue, ContractStatus.Overdue}
  }

  predicate VoidPasses(db: Db, t: Id, id: Id) {
    var i := FindTransaction(db.ledger, t, id);
    i >= 0 && db.ledger[i].kind !in {Void, Reversal}
  }

  /** The step gets as far as inserting under its generated key, and that key names another tenant's row. */
  ghost predicate ForeignKeyClash(db: Db, s: Step) {
    ValidRequest(s) &&
    match s
    case AssetCreate(t, _, _, newId, _) => newId in db.assets && db.assets[newId].tenant != t
    case ContractCreate(t, _, dto, newId, _) =>
      CreateRefusal(db, t, dto) == None && newId in db.contracts && db.contracts[newId].tenant != t
    case TransactionRecord(t, store, _, dto, newId, _) => RecordPasses(db, t, store, dto) && !KeyIsOwn(db.ledger, t, newId)
    case ContractExtend(t, store, _, dto, newId, _) => ExtendPasses(db, t, store, dto) && !KeyIsOwn(db.ledger, t, newId)
    case TransactionVoid(t, id, _, _, newId, _) => VoidPasses(db, t, id) && !KeyIsOwn(db.ledger, t, newId)
    case _ => false
  }

  ghost predicate KeyIsOwn(ledger: seq<LedgerRow>, t: Id, id: Id) {
    forall r | r in ledger && r.id == id :: r.tenant == t
  }

  lemma KeyTakenSeesOwnRows(ledger: seq<LedgerRow>, t: Id, id: Id)
    requires KeyIsOwn(ledger, t, id)
    ensures HasRowId(Own(ledger, LedgerTenant, t), id) == HasRowId(ledger, id)
  {
    var own := Own(ledger, LedgerTenant, t);
    OwnMembers(ledger, LedgerTenant, t);
    if HasRowId(ledger, id) {
      var j :| 0 <= j < |ledger| && ledger[j].id == id;
      assert ledger[j] in own;
    }
    if HasRowId(own, id) {
      var j :| 0 <= j < |own| && own[j].id == id;
      assert own[j] in ledger;
    }
  }

  /** A key of another tenant's row is taken in the shared ledger and free in the tenant's own. */
  lemma ForeignKeyIsFree(ledger: seq<LedgerRow>, t: Id, id: Id)
    requires UniqueIds(ledger) && !KeyIsOwn(ledger, t, id)
    ensures HasRowId(ledger, id) && !HasRowId(Own(ledger, LedgerTenant, t), id)
  {
    var r :| r in ledger && r.id == id && r.tenant != t;
    var i :| 0 <= i < |ledger| && ledger[i] == r;
    assert ledger[i].id == id;
    OwnMembers(ledger, LedgerTenant, t);
    var own := Own(ledger, LedgerTenant, t);
    forall j | 0 <= j < |own| ensures own[j].id != id {
      assert own[j] in ledger && own[j].tenant == t;
      var k :| 0 <= k < |ledger| && ledger[k] == own[j];
    }
  }

  lemma HasTransactionsSeesOwnRows(ledger: seq<LedgerRow>, t: Id, contract: Id)
    ensures HasTransactions(Own(ledger, LedgerTenant, t), t, contract) == HasTransactions(ledger, t, contract)
  {
    var own := Own(ledger, LedgerTenant, t);
    OwnMembers(ledger, LedgerTenant, t);
    if HasTransactions(ledger, t, contract) {
      var j :| 0 <= j < |ledger| && ledger[j].contract == contract && ledger[j].tenant == t;
      assert ledger[j] in own;
    }
    if HasTransactions(own, t, contract) {
      var j :| 0 <= j < |own| && own[j].contract == contract && own[j].tenant == t;
      assert own[j] in ledger;
    }
  }

  // ---------------------------------------------------------------- single steps

  lemma RestrictForeignCreate(db: Db, tenant: Id, user: Id, dto: CreateContractDto, newId: Id, clock: Clock, t: Id)
    requires clock.Valid() && dto.store in db.stores && newId !in db.contracts && tenant != t
    ensures Restrict(WriteContract(db, tenant, user, dto, newId, clock), t) == Restrict(db, t)
  {
    hide YearMonth, Print, NextNumber, Own, OwnAssets, OwnContracts, OwnSequences, PledgedAssets, PledgedInventory, PledgeLinks;
    var db' := WriteContract(db, tenant, user, dto, newId, clock);
    var key := SequenceKey(tenant, dto.store, YearMonth(clock));
    OwnPledgedInventory(db.inventory, dto.assets, tenant, clock.ms, t);
    OwnPledgedAssets(db.assets, dto.assets, tenant, clock.ms, t);
    OwnPledgeLinks(db.links, tenant, newId, dto.assets, t);
    OwnAppend(db.history, HistoryRow(tenant, newId, Active, user), HistoryTenant, t);
    OwnContractPut(db.contracts, newId, db'.contracts[newId], t);
    OwnSequencePut(db.sequences, key, NextNumber(db.sequences, key), t);
  }

  lemma RestrictOwnCreate(db: Db, t: Id, user: Id, dto: CreateContractDto, newId: Id, clock: Clock)
    requires clock.Valid() && dto.store in db.stores && db.stores[dto.store].tenant == t && newId !in db.contracts
    ensures Restrict(WriteContract(db, t, user, dto, newId, clock), t) ==
            WriteContract(Restrict(db, t), t, user, dto, newId, clock)
  {
    hide YearMonth, Print, Own, OwnAssets, OwnContracts, PledgedAssets, PledgedInventory, PledgeLinks;
    var db' := WriteContract(db, t, user, dto, newId, clock);
    var key := SequenceKey(t, dto.store, YearMonth(clock));
    OwnPledgedInventory(db.inventory, dto.assets, t, clock.ms, t);
    OwnPledgedAssets(db.assets, dto.assets, t, clock.ms, t);
    OwnPledgeLinks(db.links, t, newId, dto.assets, t);
    OwnAppend(db.history, HistoryRow(t, newId, Active, user), HistoryTenant, t);
    OwnContractPut(db.contracts, newId, db'.contracts[newId], t);
    OwnSequencePut(db.sequences, key, NextNumber(db.sequences, key), t);
    assert NextNumber(OwnSequences(db.sequences, t), key) == NextNumber(db.sequences, key);
  }

  lemma RefusalSeesOwnRows(db: Db, t: Id, dto: CreateContractDto)
    ensures CreateRefusal(Restrict(db, t), t, dto) == CreateRefusal(db, t, dto)
  {
    assert SelectedAssets(OwnAssets(db.assets, t), dto.assets, t, dto.store) ==
           SelectedAssets(db.assets, dto.assets, t, dto.store);
  }

  lemma RestrictSettle(db: Db, tenant: Id, user: Id, contract: Id, now: int, t: Id)
    requires HasContract(db, tenant, contract)
    ensures Restrict(Settle(db, tenant, user, contract, now), t) ==
            if tenant == t then Settle(Restrict(db, t), t, user, contract, now) else Restrict(db, t)
  {
    var db' := Settle(db, tenant, user, contract, now);
    var ids := LinkedAssets(db.links, tenant, contract);
    OwnReturnedInventory(db.inventory, ids, tenant, now, t);
    OwnRedeemedAssets(db.assets, ids, tenant, now, t);
    OwnAppend(db.history, HistoryRow(tenant, contract, Settled, user), HistoryTenant, t);
    OwnContractPut(db.contracts, contract, db'.contracts[contract], t);
    if tenant == t {
      OwnMembers(db.links, LinkTenant, t);
      assert LinkedAssets(Own(db.links, LinkTenant, t), t, contract) == ids;
    }
  }

  lemma RestrictLedger(db: Db, row: LedgerRow, t: Id)
    ensures Restrict(db.(ledger := db.ledger + [row]), t) ==
            if row.tenant == t then Restrict(db, t).(ledger := Restrict(db, t).ledger + [row]) else Restrict(db, t)
  {
    OwnAppend(db.ledger, row, LedgerTenant, t);
  }

  lemma RestrictRecord(db: Db, tenant: Id, store: Id, user: Id, dto: RecordDto, newId: Id, now: int, t: Id)
    requires tenant == t && RecordPasses(db, t, store, dto) ==> KeyIsOwn(db.ledger, t, newId)
    ensures var (db', reply) := RecordTransaction(db, tenant, store, user, dto, newId, now);
            if tenant == t then (Restrict(db', t), reply) == RecordTransaction(Restrict(db, t), t, store, user, dto, newId, now)
            else Restrict(db', t) == Restrict(db, t)
  {
    hide Restrict, RedeemedAssets, ReturnedInventory, LinkedAssets, HasRowId, KeyIsOwn, Own, OwnAssets;
    RestrictTables(db, t);
    var (db', reply) := RecordTransaction(db, tenant, store, user, dto, newId, now);
    if tenant == t && RecordPasses(db, t, store, dto) {
      KeyTakenSeesOwnRows(db.ledger, t, newId);
    }
    if reply.Recorded? {
      RestrictLedger(db, reply.row, t);
      if dto.kind == Settlement {
        RestrictSettle(db.(ledger := db.ledger + [reply.row]), tenant, user, dto.contract, now, t);
        RestrictTables(db', t);
      }
    }
  }

  /** The four tables an extension writes. */
  lemma RestrictExtension(db: Db, row: LedgerRow, extension: ExtensionRow, c: Contract, entry: HistoryRow, t: Id)
    requires row.contract in db.contracts
    requires row.tenant == extension.tenant == c.tenant == entry.tenant == db.contracts[row.contract].tenant
    ensures Restrict(db.(ledger := db.ledger + [row], extensions := db.extensions + [extension],
                         contracts := db.contracts[row.contract := c], history := db.history + [entry]), t) ==
            (var own := Restrict(db, t);
             if row.tenant == t then
               own.(ledger := own.ledger + [row], extensions := own.extensions + [extension],
                    contracts := own.contracts[row.contract := c], history := own.history + [entry])
             else own)
  {
    OwnAppend(db.ledger, row, LedgerTenant, t);
    OwnAppend(db.history, entry, HistoryTenant, t);
    OwnAppend(db.extensions, extension, ExtensionTenant, t);
    OwnContractPut(db.contracts, row.contract, c, t);
  }

  lemma RestrictExtend(db: Db, tenant: Id, store: Id, user: Id, dto: ExtendDto, newId: Id, now: int, t: Id)
    requires tenant == t && ExtendPasses(db, t, store, dto) ==> KeyIsOwn(db.ledger, t, newId)
    ensures var (db', reply) := ExtendContract(db, tenant, store, user, dto, newId, now);
            if tenant == t then (Restrict(db', t), reply) == ExtendContract(Restrict(db, t), t, store, user, dto, newId, now)
            else Restrict(db', t) == Restrict(db, t)
  {
    hide Restrict;
    var (db', reply) := ExtendContract(db, tenant, store, user, dto, newId, now);
    RestrictTables(db, t);
    if tenant == t && ExtendPasses(db, t, store, dto) {
      KeyTakenSeesOwnRows(db.ledger, t, newId);
    }
    if reply.Prolonged? {
      RestrictExtension(db, reply.row, db'.extensions[|db.extensions|], db'.contracts[dto.contract],
                        db'.history[|db.history|], t);
    }
  }

  lemma RestrictVoid(db: Db, tenant: Id, id: Id, user: Id, reason: string, newId: Id, now: int, t: Id)
    requires tenant == t && VoidPasses(db, t, id) ==> KeyIsOwn(db.ledger, t, newId)
    ensures var (db', reply) := VoidTransaction(db, tenant, id, user, reason, newId, now);
            if tenant == t then (Restrict(db', t), reply) == VoidTransaction(Restrict(db, t), t, id, user, reason, newId, now)
            else Restrict(db', t) == Restrict(db, t)
  {
    hide Restrict, HasRowId;
    RestrictTables(db, t);
    var (db', reply) := VoidTransaction(db, tenant, id, user, reason, newId, now);
    if tenant == t {
      FindTransactionSeesOwnRows(db.ledger, t, id);
    }
    if tenant == t && VoidPasses(db, t, id) {
      KeyTakenSeesOwnRows(db.ledger, t, newId);
    }
    if reply.Voided? {
      RestrictLedger(db, reply.row, t);
    }
  }

  lemma RestrictContractChange(db: Db, id: Id, c: Contract, t: Id)
    requires id in db.contracts && c.tenant == db.contracts[id].tenant
    ensures Restrict(db.(contracts := db.contracts[id := c]), t) ==
            if c.tenant == t then Restrict(db, t).(contracts := Restrict(db, t).contracts[id := c]) else Restrict(db, t)
  {
    OwnContractPut(db.contracts, id, c, t);
  }

  lemma RestrictAssetChange(db: Db, id: Id, a: Asset, t: Id)
    requires id in db.assets ==> a.tenant == db.assets[id].tenant
    ensures Restrict(db.(assets := db.assets[id := a]), t) ==
            if a.tenant == t then Restrict(db, t).(assets := Restrict(db, t).assets[id := a]) else Restrict(db, t)
  {
    OwnAssetPut(db.assets, id, a, t);
  }

  lemma RestrictHistory(db: Db, row: HistoryRow, t: Id)
    ensures Restrict(db.(history := db.history + [row]), t) ==
            if row.tenant == t then Restrict(db, t).(history := Restrict(db, t).history + [row]) else Restrict(db, t)
  {
    OwnAppend(db.history, row, HistoryTenant, t);
  }

  lemma RestrictInventory(db: Db, row: InventoryRow, t: Id)
    ensures Restrict(db.(inventory := db.inventory + [row]), t) ==
            if row.tenant == t then Restrict(db, t).(inventory := Restrict(db, t).inventory + [row]) else Restrict(db, t)
  {
    OwnAppend(db.inventory, row, InventoryTenant, t);
  }

  lemma RestrictSequence(db: Db, key: SequenceKey, n: nat, t: Id)
    ensures Restrict(db.(sequences := db.sequences[key := n]), t) ==
            if key.tenant == t then Restrict(db, t).(sequences := Restrict(db, t).sequences[key := n]) else Restrict(db, t)
  {
    OwnSequencePut(db.sequences, key, n, t);
  }

  lemma OwnCreateAsset(db: Db, t: Id, store: Id, dto: CreateAssetDto, newId: Id, now: int)
    requires newId in db.assets ==> db.assets[newId].tenant == t
    ensures var (db', reply) := CreateAsset(db, t, store, dto, newId, now);
            (Restrict(db', t), reply) == CreateAsset(Restrict(db, t), t, store, dto, newId, now)
  {
    if newId !in db.assets {
      OwnAssetPut(db.assets, newId, Asset(t, store, Pawned, dto.details, now), t);
      OwnAppend(db.inventory, NewShelf(t, store, dto, newId, now), InventoryTenant, t);
    }
  }

  /** An asset row rewritten in place, then read back. */
  lemma OwnAssetChange(db: Db, t: Id, id: Id, a: Asset)
    requires Sound(db) && HasAsset(db, t, id) && a.tenant == t && a.store == db.assets[id].store
    ensures var db' := db.(assets := db.assets[id := a]);
            Restrict(db', t) == Restrict(db, t).(assets := OwnAssets(db.assets, t)[id := a]) &&
            FindAsset(Restrict(db', t), t, id) == FindAsset(db', t, id)
  {
    hide Restrict;
    AssetUpdateSound(db, id, a);
    RestrictAssetChange(db, id, a, t);
    FindSeesOwnRows(db.(assets := db.assets[id := a]), t, id);
    RestrictTables(db, t);
  }

  lemma RestrictTables(db: Db, t: Id)
    ensures var own := Restrict(db, t);
            own.assets == OwnAssets(db.assets, t) && own.contracts == OwnContracts(db.contracts, t) &&
            own.ledger == Own(db.ledger, LedgerTenant, t) && own.history == Own(db.history, HistoryTenant, t)
  {
  }

  lemma OwnUpdateAsset(db: Db, t: Id, id: Id, changes: Columns, status: Option<AssetStatus>, now: int)
    requires Sound(db)
    ensures var (db', reply) := UpdateAsset(db, t, id, changes, status, now);
            (Restrict(db', t), reply) == UpdateAsset(Restrict(db, t), t, id, changes, status, now)
  {
    hide Sound, FindAsset, Restrict;
    RestrictTables(db, t);
    FindSeesOwnRows(db, t, id);
    if HasAsset(db, t, id) && !(changes == map[] && status == None) {
      OwnAssetChange(db, t, id, UpdateAsset(db, t, id, changes, status, now).0.assets[id]);
    }
  }

  lemma OwnSetAssetStatus(db: Db, t: Id, id: Id, status: AssetStatus, now: int)
    requires Sound(db)
    ensures var (db', reply) := SetAssetStatus(db, t, id, status, now);
            (Restrict(db', t), reply) == SetAssetStatus(Restrict(db, t), t, id, status, now)
  {
    hide Sound, FindAsset, Restrict;
    RestrictTables(db, t);
    if HasAsset(db, t, id) {
      OwnAssetChange(db, t, id, db.assets[id].(status := status, updatedAt := now));
    }
  }

  lemma OwnUpdateContract(db: Db, t: Id, id: Id, notes: Option<Option<string>>, due: Option<int>, now: int)
    requires Sound(db)
    ensures var (db', reply) := UpdateContract(db, t, id, notes, due, now);
            (Restrict(db', t), reply) == UpdateContract(Restrict(db, t), t, id, notes, due, now)
  {
    hide Sound, FindContract, Restrict;
    var db' := UpdateContract(db, t, id, notes, due, now).0;
    RestrictTables(db, t);
    HasTransactionsSeesOwnRows(db.ledger, t, id);
    if HasContract(db, t, id) {
      StepSound(db, ContractUpdate(t, id, notes, due, now));
      FindSeesOwnRows(db', t, id);
      RestrictContractChange(db, id, db'.contracts[id], t);
    }
  }

  lemma OwnSetContractStatus(db: Db, t: Id, id: Id, status: ContractStatus, user: Id, now: int)
    requires Sound(db)
    ensures var (db', reply) := SetContractStatus(db, t, id, status, user, now);
            (Restrict(db', t), reply) == SetContractStatus(Restrict(db, t), t, id, status, user, now)
  {
    hide Sound, FindContract, Restrict;
    RestrictTables(db, t);
    if HasContract(db, t, id) {
      var c := db.contracts[id].(status := status, updatedAt := now);
      var changed := db.(contracts := db.contracts[id := c]);
      StepSound(db, ContractStatusSet(t, id, status, user, now));
      FindSeesOwnRows(changed.(history := db.history + [HistoryRow(t, id, status, user)]), t, id);
      RestrictContractChange(db, id, c, t);
      RestrictTables(changed, t);
      RestrictHistory(changed, HistoryRow(t, id, status, user), t);
    }
  }

  lemma OwnGenerateCode(db: Db, t: Id, store: Id, clock: Clock)
    requires clock.Valid()
    ensures var (db', reply) := GenerateCode(db, t, store, clock);
            (Restrict(db', t), reply) == GenerateCode(Restrict(db, t), t, store, clock)
  {
    hide YearMonth, Print;
    var key := SequenceKey(t, store, YearMonth(clock));
    RestrictSequence(db, key, NextNumber(db.sequences, key), t);
  }

  lemma OwnCreateContract(db: Db, t: Id, user: Id, dto: CreateContractDto, newId: Id, clock: Clock)
    requires Sound(db) && clock.Valid() && dto.principal > 0.0 && dto.rate > 0.0
    requires CreateRefusal(db, t, dto) == None && newId in db.contracts ==> db.contracts[newId].tenant == t
    ensures var (db', reply) := CreateContract(db, t, user, dto, newId, clock);
            (Restrict(db', t), reply) == CreateContract(Restrict(db, t), t, user, dto, newId, clock)
  {
    hide Restrict, Sound, FindContract, CreateRefusal, WriteContract;
    RestrictTables(db, t);
    RefusalSeesOwnRows(db, t, dto);
    if CreateRefusal(db, t, dto) == None && newId !in db.contracts {
      CreateAcceptance(db, t, dto);
      CreateContractSound(db, t, user, dto, newId, clock);
      RestrictOwnCreate(db, t, user, dto, newId, clock);
      FindSeesOwnRows(WriteContract(db, t, user, dto, newId, clock), t, newId);
    }
  }

  /** Without a clash, the tables a step leaves, as its tenant sees them, and its reply depend only on its tenant's rows. */
  lemma UnclashedStep(db: Db, s: Step)
    requires Sound(db) && !ForeignKeyClash(db, s)
    ensures Restrict(Apply(db, s).0, s.tenant) == Apply(Restrict(db, s.tenant), s).0
    ensures Apply(db, s).1 == Apply(Restrict(db, s.tenant), s).1
  {
    hide Sound, Restrict, CreateAsset, UpdateAsset, SetAssetStatus, GenerateCode, CreateContract, UpdateContract,
         SetContractStatus, RecordTransaction, ExtendContract, VoidTransaction;
    if ValidRequest(s) {
      match s
      case AssetCreate(t, store, dto, newId, now) => OwnCreateAsset(db, t, store, dto, newId, now);
      case AssetUpdate(t, id, changes, status, now) => OwnUpdateAsset(db, t, id, changes, status, now);
      case AssetStatusSet(t, id, status, now) => OwnSetAssetStatus(db, t, id, status, now);
      case CodeGenerate(t, store, clock) => OwnGenerateCode(db, t, store, clock);
      case ContractCreate(t, user, dto, newId, clock) => OwnCreateContract(db, t, user, dto, newId, clock);
      case ContractUpdate(t, id, notes, due, now) => OwnUpdateContract(db, t, id, notes, due, now);
      case ContractStatusSet(t, id, status, user, now) => OwnSetContractStatus(db, t, id, status, user, now);
      case TransactionRecord(t, store, user, dto, newId, now) => RestrictRecord(db, t, store, user, dto, newId, now, t);
      case ContractExtend(t, store, user, dto, newId, now) => RestrictExtend(db, t, store, user, dto, newId, now, t);
      case TransactionVoid(t, id, user, reason, newId, now) => RestrictVoid(db, t, id, user, reason, newId, now, t);
    }
  }

  /** A clash is answered with a duplicate key; alone, the tenant would have been served. */
  lemma ClashedStep(db: Db, s: Step)
    requires Sound(db) && ForeignKeyClash(db, s)
    ensures Apply(db, s).1 == Failed(DuplicateKey)
    ensures !Apply(Restrict(db, s.tenant), s).1.Failed?
  {
    hide Restrict, Sound, Own, KeyIsOwn, HasRowId, WriteContract, CreateRefusal, FindTransaction;
    var t := s.tenant;
    RestrictTables(db, t);
    match s
    case AssetCreate(_, _, _, _, _) =>
    case ContractCreate(_, _, dto, _, _) =>
      RefusalSeesOwnRows(db, t, dto);
      CreateAcceptance(db, t, dto);
      ServedAlone(Restrict(db, t), s);
    case TransactionRecord(_, _, _, _, newId, _) => LedgerKeyIsFree(db, t, newId);
    case ContractExtend(_, _, _, _, newId, _) => LedgerKeyIsFree(db, t, newId);
    case TransactionVoid(_, id, _, _, newId, _) =>
      FindTransactionSeesOwnRows(db.ledger, t, id);
      LedgerKeyIsFree(db, t, newId);
  }

  lemma LedgerKeyIsFree(db: Db, t: Id, id: Id)
    requires Sound(db) && !KeyIsOwn(db.ledger, t, id)
    ensures HasRowId(db.ledger, id) && !HasRowId(Own(db.ledger, LedgerTenant, t), id)
  {
    ForeignKeyIsFree(db.ledger, t, id);
  }

  lemma ServedAlone(db: Db, s: Step)
    requires s.ContractCreate? && ValidRequest(s) && CreateRefusal(db, s.tenant, s.create) == None
    requires s.newId !in db.contracts
    ensures !Apply(db, s).1.Failed?
  {
    hide CreateRefusal, YearMonth, Print, PledgedAssets, PledgedInventory, PledgeLinks, JoinedAssets;
    CreateAcceptance(db, s.tenant, s.create);
  }

  /**
   A tenant is answered as it would be alone exactly when its new key clashes with no foreign row, and then its
   rows change as they would alone.
   */
  lemma OwnStep(db: Db, s: Step)
    requires Sound(db)
    ensures Apply(db, s).1 == Apply(Restrict(db, s.tenant), s).1 <==> !ForeignKeyClash(db, s)
    ensures !ForeignKeyClash(db, s) ==> Restrict(Apply(db, s).0, s.tenant) == Apply(Restrict(db, s.tenant), s).0
  {
    hide Sound, ForeignKeyClash, Apply, Restrict;
    if ForeignKeyClash(db, s) {
      ClashedStep(db, s);
    } else {
      UnclashedStep(db, s);
    }
  }

  /** A step of one tenant leaves every other tenant's rows as they were. */
  lemma ForeignStep(db: Db, s: Step, t: Id)
    requires s.tenant != t
    ensures Restrict(Apply(db, s).0, t) == Restrict(db, t)
  {
    hide Restrict, FindAsset, FindContract, CreateRefusal, WriteContract, RecordTransaction, ExtendContract,
         VoidTransaction, YearMonth, Print, HasTransactions;
    var db' := Apply(db, s).0;
    if ValidRequest(s) {
      match s
      case AssetCreate(tenant, store, dto, newId, now) =>
        if newId !in db.assets {
          RestrictAssetChange(db, newId, db'.assets[newId], t);
          RestrictInventory(db.(assets := db'.assets), db'.inventory[|db.inventory|], t);
        }
      case AssetUpdate(tenant, id, changes, status, now) =>
        if HasAsset(db, tenant, id) {
          RestrictAssetChange(db, id, db'.assets[id], t);
        }
      case AssetStatusSet(tenant, id, status, now) =>
        if HasAsset(db, tenant, id) {
          RestrictAssetChange(db, id, db'.assets[id], t);
        }
      case CodeGenerate(tenant, store, clock) =>
        var key := SequenceKey(tenant, store, YearMonth(clock));
        RestrictSequence(db, key, NextNumber(db.sequences, key), t);
      case ContractCreate(tenant, user, dto, newId, clock) =>
        CreateAcceptance(db, tenant, dto);
        if CreateRefusal(db, tenant, dto) == None && newId !in db.contracts {
          RestrictForeignCreate(db, tenant, user, dto, newId, clock, t);
        }
      case ContractUpdate(tenant, id, notes, due, now) =>
        if HasContract(db, tenant, id) {
          RestrictContractChange(db, id, db'.contracts[id], t);
        }
      case ContractStatusSet(tenant, id, status, user, now) =>
        if HasContract(db, tenant, id) {
          RestrictContractChange(db, id, db'.contracts[id], t);
          RestrictHistory(db.(contracts := db'.contracts), db'.history[|db.history|], t);
        }
      case TransactionRecord(tenant, store, user, dto, newId, now) => RestrictRecord(db, tenant, store, user, dto, newId, now, t);
      case ContractExtend(tenant, store, user, dto, newId, now) => RestrictExtend(db, tenant, store, user, dto, newId, now, t);
      case TransactionVoid(tenant, id, user, reason, newId, now) => RestrictVoid(db, tenant, id, user, reason, newId, now, t);
    }
  }

  // ---------------------------------------------------------------- runs

  /** No request of the tenant clashes with a foreign key, at its point of the run. */
  ghost predicate NoKeyClashes(db: Db, steps: seq<Step>, t: Id) {
    forall i | 0 <= i < |steps| && steps[i].tenant == t :: !ForeignKeyClash(Run(db, steps[..i]), steps[i])
  }

  lemma ClashesAppend(db: Db, before: seq<Step>, last: Step, t: Id)
    ensures NoKeyClashes(db, before + [last], t) <==>
            NoKeyClashes(db, before, t) && (last.tenant == t ==> !ForeignKeyClash(Run(db, before), last))
  {
    hide ForeignKeyClash, Run;
    var steps := before + [last];
    assert steps[..|before|] == before && steps[|before|] == last;
    assert forall i | 0 <= i < |before| :: steps[..i] == before[..i] && steps[i] == before[i];
  }

  /** The replies to one tenant's requests in a shared run. */
  function OwnReplies(db: Db, steps: seq<Step>, t: Id): seq<Reply> {
    if steps == [] then []
    else
      var before, last := steps[..|steps| - 1], steps[|steps| - 1];
      OwnReplies(db, before, t) + if last.tenant == t then [Apply(Run(db, before), last).1] else []
  }

  /**
   Non-interference over whole runs: for any interleaving of requests, a tenant got the replies of running
   its own requests alone on its own rows exactly when no generated key of its requests clashed with a foreign
   row, and then its rows at the end are those of that run.
   */
  lemma {:induction false} TenantsDoNotInterfere(db: Db, steps: seq<Step>, t: Id)
    requires Sound(db)
    ensures OwnReplies(db, steps, t) == Replies(Restrict(db, t), Own(steps, StepTenant, t)) <==> NoKeyClashes(db, steps, t)
    ensures NoKeyClashes(db, steps, t) ==> Restrict(Run(db, steps), t) == Run(Restrict(db, t), Own(steps, StepTenant, t))
  {
    hide Apply, ForeignKeyClash, Sound, Restrict, NoKeyClashes;
    if steps == [] {
      assert NoKeyClashes(db, steps, t) by {
        NoStepsNoClashes(db, t);
      }
    } else {
      var before, last := steps[..|steps| - 1], steps[|steps| - 1];
      assert steps == before + [last];
      TenantsDoNotInterfere(db, before, t);
      ClashesAppend(db, before, last, t);
      RunSound(db, before);
      if last.tenant == t {
        var own := Own(before, StepTenant, t);
        assert (own + [last])[..|own|] == own;
        OwnStep(Run(db, before), last);
        AppendEqual(OwnReplies(db, before, t), Apply(Run(db, before), last).1,
                    Replies(Restrict(db, t), own), Apply(Run(Restrict(db, t), own), last).1);
      } else {
        ForeignStep(Run(db, before), last, t);
        assert Own(steps, StepTenant, t) == Own(before, StepTenant, t);
        assert OwnReplies(db, steps, t) == OwnReplies(db, before, t);
      }
    }
  }

  lemma NoStepsNoClashes(db: Db, t: Id)
    ensures NoKeyClashes(db, [], t)
  {
  }

  lemma AppendEqual<T>(a: seq<T>, x: T, b: seq<T>, y: T)
    ensures a + [x] == b + [y] <==> a == b && x == y
  {
    if a + [x] == b + [y] {
      assert a == (a + [x])[..|a|] && b == (b + [y])[..|b|];
      assert x == (a + [x])[|a|] && y == (b + [y])[|b|];
    }
  }
}
