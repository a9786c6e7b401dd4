/** Referential integrity: what every step keeps about how the rows of different tables refer to each other. */
module Integrity {
  import opened Domain
  import opened ContractCodes
  import opened Engine

  ghost predicate ContractOk(db: Db, id: Id)
    requires id in db.contracts
  {
    var c := db.contracts[id];
    && c.store in db.stores && db.stores[c.store].tenant == c.tenant
    && c.customer in db.customers && db.customers[c.customer].tenant == c.tenant
    && c.principal > 0.0 && c.rate > 0.0
  }

  /** A link joins a contract and an asset of one tenant and one store. */
  ghost predicate LinkOk(db: Db, l: Link) {
    && l.contract in db.contracts && l.asset in db.assets
    && db.contracts[l.contract].tenant == l.tenant == db.assets[l.asset].tenant
    && db.contracts[l.contract].store == db.assets[l.asset].store
  }

  ghost predicate LedgerRowOk(db: Db, r: LedgerRow) {
    r.contract in db.contracts && db.contracts[r.contract].tenant == r.tenant && db.contracts[r.contract].store == r.store
  }

  ghost predicate OwnedBy(db: Db, contract: Id, tenant: Id) {
    contract in db.contracts && db.contracts[contract].tenant == tenant
  }

  ghost predicate InventoryRowOk(db: Db, r: InventoryRow) {
    r.asset in db.assets && db.assets[r.asset].tenant == r.tenant && db.assets[r.asset].store == r.store
  }

  ghost predicate UniqueIds(ledger: seq<LedgerRow>) {
    forall i, j | 0 <= i < j < |ledger| :: ledger[i].id != ledger[j].id
  }

  ghost predicate OneRowPerAsset(rows: seq<InventoryRow>) {
    forall i, j | 0 <= i < j < |rows| :: rows[i].asset != rows[j].asset
  }

  ghost predicate HasInventory(rows: seq<InventoryRow>, asset: Id) {
    exists i | 0 <= i < |rows| :: rows[i].asset == asset
  }

  ghost predicate NoDoubleLinks(links: seq<Link>) {
    forall i, j | 0 <= i < j < |links| :: !(links[i].contract == links[j].contract && links[i].asset == links[j].asset)
  }

  ghost predicate ContractsOk(db: Db) {
    forall id | id in db.contracts :: ContractOk(db, id)
  }

  ghost predicate LinksOk(db: Db) {
    forall l | l in db.links :: LinkOk(db, l)
  }

  ghost predicate LedgerOk(db: Db) {
    forall r | r in db.ledger :: LedgerRowOk(db, r)
  }

  ghost predicate ExtensionsOk(db: Db) {
    forall r | r in db.extensions :: OwnedBy(db, r.contract, r.tenant)
  }

  ghost predicate HistoryOk(db: Db) {
    forall r | r in db.history :: OwnedBy(db, r.contract, r.tenant)
  }

  /** The inventory has exactly one row per asset, at the asset's owner and store. */
  ghost predicate InventoryOk(db: Db) {
    && (forall r | r in db.inventory :: InventoryRowOk(db, r))
    && (forall a | a in db.assets :: HasInventory(db.inventory, a))
    && OneRowPerAsset(db.inventory)
  }

  ghost predicate Sound(db: Db) {
    && ContractsOk(db) && LinksOk(db) && LedgerOk(db) && ExtensionsOk(db) && HistoryOk(db) && InventoryOk(db)
    && UniqueIds(db.ledger)
    && NoDoubleLinks(db.links)
  }

  // ---------------------------------------------------------------- acceptance of create

  function Elements(ids: seq<Id>): set<Id> {
    set a | a in ids
  }

  ghost predicate Distinct(ids: seq<Id>) {
    forall i, j | 0 <= i < j < |ids| :: ids[i] != ids[j]
  }

  lemma {:induction false} ElementCount(ids: seq<Id>)
    ensures |Elements(ids)| <= |ids|
    ensures |Elements(ids)| == |ids| <==> Distinct(ids)
  {
    if ids == [] {
      assert Elements(ids) == {};
    } else {
      var front, last := ids[..|ids| - 1], ids[|ids| - 1];
      ElementCount(front);
      assert ids == front + [last];
      assert Elements(ids) == Elements(front) + {last};
      if Distinct(ids) {
        assert last !in Elements(front);
      } else if last !in Elements(front) {
        assert !Distinct(front);
      } else {
        assert Elements(ids) == Elements(front);
      }
    }
  }

  /** What `create` demands, said directly. */
  ghost predicate Acceptable(db: Db, tenant: Id, dto: CreateContractDto) {
    && dto.store in db.stores && db.stores[dto.store].tenant == tenant
    && dto.customer in db.customers && db.customers[dto.customer].tenant == tenant
    && Distinct(dto.assets)
    && forall a | a in dto.assets ::
         a in db.assets && db.assets[a].tenant == tenant && db.assets[a].store == dto.store && db.assets[a].status != Pawned
  }

  /** Comparing the number of selected rows with the number of ids is what rejects repeated, foreign and missing ids. */
  lemma CountingRowsChecksIds(assets: map<Id, Asset>, ids: seq<Id>, tenant: Id, store: Id)
    ensures |SelectedAssets(assets, ids, tenant, store)| == |ids| <==>
            Distinct(ids) && forall a | a in ids :: a in assets && assets[a].tenant == tenant && assets[a].store == store
  {
    var selected := SelectedAssets(assets, ids, tenant, store);
    ElementCount(ids);
    assert selected <= Elements(ids);
    SubsetCount(selected, Elements(ids));
    if |selected| == |ids| {
      assert forall a | a in ids :: a in Elements(ids);
    } else if forall a | a in ids :: a in assets && assets[a].tenant == tenant && assets[a].store == store {
      assert selected == Elements(ids);
    }
  }

  lemma SubsetCount(small: set<Id>, big: set<Id>)
    requires small <= big
    ensures |small| <= |big|
    ensures |small| == |big| <==> small == big
  {
    assert big == small + (big - small);
    assert |big| == |small| + |big - small|;
  }

  /** `create` passes its checks exactly when the request is acceptable. */
  lemma CreateAcceptance(db: Db, tenant: Id, dto: CreateContractDto)
    ensures CreateRefusal(db, tenant, dto) == None <==> Acceptable(db, tenant, dto)
  {
    CountingRowsChecksIds(db.assets, dto.assets, tenant, dto.store);
    var selected := SelectedAssets(db.assets, dto.assets, tenant, dto.store);
    if Acceptable(db, tenant, dto) && dto.assets != [] {
      assert forall a | a in selected :: a in dto.assets;
    }
    if CreateRefusal(db, tenant, dto) == None && dto.assets != [] {
      assert forall a | a in dto.assets :: a in selected;
    }
  }

  // ---------------------------------------------------------------- preservation

  /** What no step changes in a contract. */
  ghost predicate SameTerms(c: Contract, d: Contract) {
    && c.tenant == d.tenant && c.store == d.store && c.customer == d.customer && c.code == d.code
    && c.principal == d.principal && c.rate == d.rate && c.interestType == d.interestType && c.startDate == d.startDate
  }

  /** What the rows of other tables refer to is still there, with the same owner. */
  ghost predicate Retains(db: Db, db': Db) {
    && db.stores == db'.stores && db.customers == db'.customers
    && (forall id | id in db.contracts :: id in db'.contracts && SameTerms(db.contracts[id], db'.contracts[id]))
    && (forall a | a in db.assets :: a in db'.assets &&
          db.assets[a].tenant == db'.assets[a].tenant && db.assets[a].store == db'.assets[a].store)
  }

  lemma ContractsStayOk(db: Db, db': Db)
    requires ContractsOk(db) && Retains(db, db')
    requires forall id | id in db'.contracts :: id in db.contracts || ContractOk(db', id)
    ensures ContractsOk(db')
  {
    forall id | id in db'.contracts ensures ContractOk(db', id) {
      if id in db.contracts {
        assert ContractOk(db, id);
      }
    }
  }

  lemma LinksStayOk(db: Db, db': Db)
    requires LinksOk(db) && Retains(db, db')
    requires forall l | l in db'.links :: l in db.links || LinkOk(db', l)
    ensures LinksOk(db')
  {
    forall l | l in db'.links ensures LinkOk(db', l) {
      if l in db.links {
        assert LinkOk(db, l);
      }
    }
  }

  lemma LedgerStaysOk(db: Db, db': Db)
    requires LedgerOk(db) && Retains(db, db')
    requires forall r | r in db'.ledger :: r in db.ledger || LedgerRowOk(db', r)
    ensures LedgerOk(db')
  {
    forall r | r in db'.ledger ensures LedgerRowOk(db', r) {
      if r in db.ledger {
        assert LedgerRowOk(db, r);
      }
    }
  }

  lemma NotesStayOk(db: Db, db': Db)
    requires ExtensionsOk(db) && HistoryOk(db) && Retains(db, db')
    requires forall r | r in db'.extensions :: r in db.extensions || OwnedBy(db', r.contract, r.tenant)
    requires forall r | r in db'.history :: r in db.history || OwnedBy(db', r.contract, r.tenant)
    ensures ExtensionsOk(db') && HistoryOk(db')
  {
    forall r | r in db'.extensions ensures OwnedBy(db', r.contract, r.tenant) {
      if r in db.extensions {
        assert OwnedBy(db, r.contract, r.tenant);
      }
    }
    forall r | r in db'.history ensures OwnedBy(db', r.contract, r.tenant) {
      if r in db.history {
        assert OwnedBy(db, r.contract, r.tenant);
      }
    }
  }

  /** The same rows, perhaps received or given back. */
  ghost predicate SameShelf(rows: seq<InventoryRow>, rows': seq<InventoryRow>) {
    && |rows| == |rows'|
    && forall i | 0 <= i < |rows| ::
         rows[i].asset == rows'[i].asset && rows[i].tenant == rows'[i].tenant && rows[i].store == rows'[i].store
  }

  lemma InventoryStaysOk(db: Db, db': Db)
    requires InventoryOk(db) && Retains(db, db') && db'.assets.Keys == db.assets.Keys && SameShelf(db.inventory, db'.inventory)
    ensures InventoryOk(db')
  {
    forall r | r in db'.inventory ensures InventoryRowOk(db', r) {
      var i :| 0 <= i < |db'.inventory| && db'.inventory[i] == r;
      assert db.inventory[i] in db.inventory && InventoryRowOk(db, db.inventory[i]);
    }
    forall a | a in db'.assets ensures HasInventory(db'.inventory, a) {
      assert HasInventory(db.inventory, a);
      var i :| 0 <= i < |db.inventory| && db.inventory[i].asset == a;
      assert db'.inventory[i].asset == a;
    }
  }

  /** Steps that add no asset: old rows stay sound, so only new rows need looking at. */
  lemma StaysSound(db: Db, db': Db)
    requires Sound(db) && Retains(db, db') && db'.assets.Keys == db.assets.Keys && SameShelf(db.inventory, db'.inventory)
    requires forall id | id in db'.contracts :: id in db.contracts || ContractOk(db', id)
    requires forall l | l in db'.links :: l in db.links || LinkOk(db', l)
    requires forall r | r in db'.ledger :: r in db.ledger || LedgerRowOk(db', r)
    requires forall r | r in db'.extensions :: r in db.extensions || OwnedBy(db', r.contract, r.tenant)
    requires forall r | r in db'.history :: r in db.history || OwnedBy(db', r.contract, r.tenant)
    requires UniqueIds(db'.ledger) && NoDoubleLinks(db'.links)
    ensures Sound(db')
  {
    hide Retains, ContractsOk, LinksOk, LedgerOk, ExtensionsOk, HistoryOk, InventoryOk, SameShelf, UniqueIds, NoDoubleLinks;
    ContractsStayOk(db, db');
    LinksStayOk(db, db');
    LedgerStaysOk(db, db');
    NotesStayOk(db, db');
    InventoryStaysOk(db, db');
  }

  /** An asset and its inventory row come about together. */
  lemma NewAssetSound(db: Db, db': Db, id: Id, row: InventoryRow)
    requires Sound(db) && id !in db.assets && row.asset == id
    requires id in db'.assets && db'.assets == db.assets[id := db'.assets[id]]
    requires db'.assets[id].tenant == row.tenant && db'.assets[id].store == row.store
    requires db' == db.(assets := db'.assets, inventory := db.inventory + [row])
    ensures Sound(db')
  {
    hide ContractsOk, LinksOk, LedgerOk, ExtensionsOk, HistoryOk, InventoryOk, UniqueIds, NoDoubleLinks;
    assert Retains(db, db');
    ContractsStayOk(db, db');
    LinksStayOk(db, db');
    LedgerStaysOk(db, db');
    NotesStayOk(db, db');
    NewShelfOk(db, db', id, row);
  }

  lemma NewShelfOk(db: Db, db': Db, id: Id, row: InventoryRow)
    requires InventoryOk(db) && id !in db.assets && row.asset == id
    requires id in db'.assets && db'.assets == db.assets[id := db'.assets[id]]
    requires db'.assets[id].tenant == row.tenant && db'.assets[id].store == row.store
    requires db'.inventory == db.inventory + [row]
    ensures InventoryOk(db')
  {
    forall r | r in db'.inventory ensures InventoryRowOk(db', r) {
      if r in db.inventory {
        assert InventoryRowOk(db, r);
      }
    }
    forall a | a in db'.assets ensures HasInventory(db'.inventory, a) {
      if a == id {
        assert db'.inventory[|db.inventory|].asset == a;
      } else {
        assert HasInventory(db.inventory, a);
        var i :| 0 <= i < |db.inventory| && db.inventory[i].asset == a;
        assert db'.inventory[i].asset == a;
      }
    }
    forall i | 0 <= i < |db.inventory| ensures db.inventory[i].asset != id {
      assert db.inventory[i] in db.inventory && InventoryRowOk(db, db.inventory[i]);
    }
  }

  lemma CreateAssetSound(db: Db, tenant: Id, store: Id, dto: CreateAssetDto, newId: Id, now: int)
    requires Sound(db)
    ensures Sound(CreateAsset(db, tenant, store, dto, newId, now).0)
  {
    hide Sound;
    var db' := CreateAsset(db, tenant, store, dto, newId, now).0;
    if newId !in db.assets {
      NewAssetSound(db, db', newId, db'.inventory[|db.inventory|]);
    }
  }

  lemma PledgeLinksKeep(db: Db, db': Db, tenant: Id, contract: Id, ids: seq<Id>, store: Id)
    requires LinksOk(db) && NoDoubleLinks(db.links) && contract !in db.contracts && Distinct(ids)
    requires forall a | a in ids :: a in db'.assets && db'.assets[a].tenant == tenant && db'.assets[a].store == store
    requires contract in db'.contracts && db'.contracts[contract].tenant == tenant && db'.contracts[contract].store == store
    requires db'.links == db.links + PledgeLinks(tenant, contract, ids)
    ensures forall l | l in db'.links :: l in db.links || LinkOk(db', l)
    ensures NoDoubleLinks(db'.links)
  {
    var added := PledgeLinks(tenant, contract, ids);
    forall l | l in db'.links ensures l in db.links || LinkOk(db', l) {
      if l !in db.links {
        var i :| 0 <= i < |added| && added[i] == l;
        assert ids[i] in ids;
      }
    }
    forall i, j | 0 <= i < j < |db'.links|
      ensures !(db'.links[i].contract == db'.links[j].contract && db'.links[i].asset == db'.links[j].asset)
    {
      if i < |db.links| <= j {
        assert LinkOk(db, db.links[i]);
      }
    }
  }

  lemma CreateContractSound(db: Db, tenant: Id, user: Id, dto: CreateContractDto, newId: Id, clock: Clock)
    requires Sound(db) && clock.Valid() && dto.principal > 0.0 && dto.rate > 0.0
    ensures Sound(CreateContract(db, tenant, user, dto, newId, clock).0)
  {
    hide FindContract, CreateRefusal, WriteContract, Sound;
    CreateAcceptance(db, tenant, dto);
    if Acceptable(db, tenant, dto) && newId !in db.contracts {
      WriteSound(db, tenant, user, dto, newId, clock);
    }
  }

  lemma WriteSound(db: Db, tenant: Id, user: Id, dto: CreateContractDto, newId: Id, clock: Clock)
    requires Sound(db) && clock.Valid() && dto.principal > 0.0 && dto.rate > 0.0
    requires Acceptable(db, tenant, dto) && newId !in db.contracts
    ensures Sound(WriteContract(db, tenant, user, dto, newId, clock))
  {
    hide YearMonth, Print, PledgeLinks, PledgedInventory, ContractsOk, LedgerOk, ExtensionsOk, HistoryOk, InventoryOk, UniqueIds,
         NoDoubleLinks, LinksOk;
    var db' := WriteContract(db, tenant, user, dto, newId, clock);
    assert ContractOk(db', newId);
    assert Retains(db, db');
    PledgeLinksKeep(db, db', tenant, newId, dto.assets, dto.store);
    PledgedShelf(db.inventory, dto.assets, tenant, clock.ms);
    hide WriteContract, LinkOk, ContractOk, Retains;
    StaysSound(db, db');
  }

  lemma PledgedShelf(rows: seq<InventoryRow>, ids: seq<Id>, tenant: Id, now: int)
    ensures SameShelf(rows, PledgedInventory(rows, ids, tenant, now))
  {
  }

  lemma ReturnedShelf(rows: seq<InventoryRow>, ids: set<Id>, tenant: Id, now: int)
    ensures SameShelf(rows, ReturnedInventory(rows, ids, tenant, now))
  {
  }

  lemma SameShelfReflexive(rows: seq<InventoryRow>)
    ensures SameShelf(rows, rows)
  {
  }

  lemma SettleSound(db: Db, tenant: Id, user: Id, contract: Id, now: int)
    requires Sound(db) && OwnedBy(db, contract, tenant)
    ensures Sound(Settle(db, tenant, user, contract, now))
  {
    hide LinkedAssets, ReturnedInventory, ContractsOk, LinksOk, LedgerOk, ExtensionsOk, HistoryOk, InventoryOk, UniqueIds,
         NoDoubleLinks, LinkOk, ContractOk, LedgerRowOk;
    var db' := Settle(db, tenant, user, contract, now);
    assert Retains(db, db');
    ReturnedShelf(db.inventory, LinkedAssets(db.links, tenant, contract), tenant, now);
    StaysSound(db, db');
  }

  lemma AppendLedgerSound(db: Db, row: LedgerRow)
    requires Sound(db) && LedgerRowOk(db, row) && !HasRowId(db.ledger, row.id)
    ensures Sound(db.(ledger := db.ledger + [row]))
  {
    hide ContractsOk, LinksOk, LedgerOk, ExtensionsOk, HistoryOk, InventoryOk, NoDoubleLinks, LinkOk, ContractOk, HasRowId,
         UniqueIds;
    UniqueAppend(db.ledger, row);
    SameShelfReflexive(db.inventory);
    StaysSound(db, db.(ledger := db.ledger + [row]));
  }

  lemma UniqueAppend(ledger: seq<LedgerRow>, row: LedgerRow)
    requires UniqueIds(ledger) && !HasRowId(ledger, row.id)
    ensures UniqueIds(ledger + [row])
  {
  }

  /** Replacing contracts by ones with the same terms, with notes of it. */
  lemma ReplaceContractSound(db: Db, db': Db)
    requires Sound(db)
    requires db' == db.(contracts := db'.contracts, history := db'.history, extensions := db'.extensions)
    requires db'.contracts.Keys == db.contracts.Keys
    requires forall k | k in db.contracts :: SameTerms(db.contracts[k], db'.contracts[k])
    requires forall r | r in db'.history :: r in db.history || OwnedBy(db', r.contract, r.tenant)
    requires forall r | r in db'.extensions :: r in db.extensions || OwnedBy(db', r.contract, r.tenant)
    ensures Sound(db')
  {
    hide ContractsOk, LinksOk, LedgerOk, ExtensionsOk, HistoryOk, InventoryOk, UniqueIds, NoDoubleLinks, LinkOk, ContractOk,
         LedgerRowOk;
    SameShelfReflexive(db.inventory);
    StaysSound(db, db');
  }

  lemma AssetUpdateSound(db: Db, id: Id, a: Asset)
    requires Sound(db) && id in db.assets && a.tenant == db.assets[id].tenant && a.store == db.assets[id].store
    ensures Sound(db.(assets := db.assets[id := a]))
  {
    hide ContractsOk, LinksOk, LedgerOk, ExtensionsOk, HistoryOk, InventoryOk, UniqueIds, NoDoubleLinks, LinkOk, ContractOk,
         LedgerRowOk;
    SameShelfReflexive(db.inventory);
    StaysSound(db, db.(assets := db.assets[id := a]));
  }

  lemma RecordSound(db: Db, tenant: Id, store: Id, user: Id, dto: RecordDto, newId: Id, now: int)
    requires Sound(db)
    ensures Sound(RecordTransaction(db, tenant, store, user, dto, newId, now).0)
  {
    hide Sound, HasRowId, Settle;
    var reply := RecordTransaction(db, tenant, store, user, dto, newId, now).1;
    if reply.Recorded? {
      AppendLedgerSound(db, reply.row);
      if dto.kind == Settlement {
        SettleSound(db.(ledger := db.ledger + [reply.row]), tenant, user, dto.contract, now);
      }
    }
  }

  lemma ExtendSound(db: Db, tenant: Id, store: Id, user: Id, dto: ExtendDto, newId: Id, now: int)
    requires Sound(db)
    ensures Sound(ExtendContract(db, tenant, store, user, dto, newId, now).0)
  {
    hide Sound, HasRowId;
    var (db', reply) := ExtendContract(db, tenant, store, user, dto, newId, now);
    if reply.Prolonged? {
      AppendLedgerSound(db, reply.row);
      ReplaceContractSound(db.(ledger := db.ledger + [reply.row]), db');
    }
  }

  lemma VoidSound(db: Db, tenant: Id, id: Id, user: Id, reason: string, newId: Id, now: int)
    requires Sound(db)
    ensures Sound(VoidTransaction(db, tenant, id, user, reason, newId, now).0)
  {
    hide Sound, HasRowId, FindTransaction;
    var reply := VoidTransaction(db, tenant, id, user, reason, newId, now).1;
    if reply.Voided? {
      LedgerRowsOk(db);
      assert db.ledger[FindTransaction(db.ledger, tenant, id)] in db.ledger;
      AppendLedgerSound(db, reply.row);
    }
  }

  lemma LedgerRowsOk(db: Db)
    requires Sound(db)
    ensures forall r | r in db.ledger :: LedgerRowOk(db, r)
  {
  }

  lemma UpdateAssetSound(db: Db, tenant: Id, id: Id, changes: Columns, status: Option<AssetStatus>, now: int)
    requires Sound(db)
    ensures Sound(UpdateAsset(db, tenant, id, changes, status, now).0)
  {
    hide FindAsset, Sound;
    if HasAsset(db, tenant, id) && !(changes == map[] && status == None) {
      AssetUpdateSound(db, id, UpdateAsset(db, tenant, id, changes, status, now).0.assets[id]);
    }
  }

  lemma SetAssetStatusSound(db: Db, tenant: Id, id: Id, status: AssetStatus, now: int)
    requires Sound(db)
    ensures Sound(SetAssetStatus(db, tenant, id, status, now).0)
  {
    hide FindAsset, Sound;
    if HasAsset(db, tenant, id) {
      AssetUpdateSound(db, id, SetAssetStatus(db, tenant, id, status, now).0.assets[id]);
    }
  }

  lemma UpdateContractSound(db: Db, tenant: Id, id: Id, notes: Option<Option<string>>, due: Option<int>, now: int)
    requires Sound(db)
    ensures Sound(UpdateContract(db, tenant, id, notes, due, now).0)
  {
    hide FindContract, Sound, HasTransactions;
    if HasContract(db, tenant, id) && !(due.Some? && HasTransactions(db.ledger, tenant, id)) {
      ReplaceContractSound(db, UpdateContract(db, tenant, id, notes, due, now).0);
    }
  }

  lemma SetContractStatusSound(db: Db, tenant: Id, id: Id, status: ContractStatus, user: Id, now: int)
    requires Sound(db)
    ensures Sound(SetContractStatus(db, tenant, id, status, user, now).0)
  {
    hide FindContract, Sound;
    if HasContract(db, tenant, id) {
      ReplaceContractSound(db, SetContractStatus(db, tenant, id, status, user, now).0);
    }
  }

  lemma GenerateCodeSound(db: Db, tenant: Id, store: Id, clock: Clock)
    requires Sound(db) && clock.Valid()
    ensures Sound(GenerateCode(db, tenant, store, clock).0)
  {
    hide YearMonth, Print, ContractsOk, LinksOk, LedgerOk, ExtensionsOk, HistoryOk, InventoryOk, UniqueIds, NoDoubleLinks,
         LinkOk, ContractOk, LedgerRowOk;
    SameShelfReflexive(db.inventory);
    StaysSound(db, GenerateCode(db, tenant, store, clock).0);
  }

  /** Every step keeps referential integrity. */
  lemma StepSound(db: Db, s: Step)
    requires Sound(db)
    ensures Sound(Apply(db, s).0)
  {
    hide Sound, CreateAsset, UpdateAsset, SetAssetStatus, GenerateCode, CreateContract, UpdateContract,
         SetContractStatus, RecordTransaction, ExtendContract, VoidTransaction;
    if ValidRequest(s) {
      match s
      case AssetCreate(t, store, dto, newId, now) => CreateAssetSound(db, t, store, dto, newId, now);
      case AssetUpdate(t, id, changes, status, now) => UpdateAssetSound(db, t, id, changes, status, now);
      case AssetStatusSet(t, id, status, now) => SetAssetStatusSound(db, t, id, status, now);
      case CodeGenerate(t, store, clock) => GenerateCodeSound(db, t, store, clock);
      case ContractCreate(t, user, dto, newId, clock) => CreateContractSound(db, t, user, dto, newId, clock);
      case ContractUpdate(t, id, notes, due, now) => UpdateContractSound(db, t, id, notes, due, now);
      case ContractStatusSet(t, id, status, user, now) => SetContractStatusSound(db, t, id, status, user, now);
      case TransactionRecord(t, store, user, dto, newId, now) => RecordSound(db, t, store, user, dto, newId, now);
      case ContractExtend(t, store, user, dto, newId, now) => ExtendSound(db, t, store, user, dto, newId, now);
      case TransactionVoid(t, id, user, reason, newId, now) => VoidSound(db, t, id, user, reason, newId, now);
    }
  }

  lemma {:induction false} RunSound(db: Db, steps: seq<Step>)
    requires Sound(db)
    ensures Sound(Run(db, steps))
  {
    if steps == [] {
    } else {
      RunSound(db, steps[..|steps| - 1]);
      StepSound(Run(db, steps[..|steps| - 1]), steps[|steps| - 1]);
    }
  }

  /** In every run from empty tables, every link joins a contract and an asset of one tenant and one store. */
  lemma LinksStayWithinStore(stores: map<Id, Store>, customers: map<Id, Customer>, steps: seq<Step>, l: Link)
    requires l in Run(Initial(stores, customers), steps).links
    ensures var db := Run(Initial(stores, customers), steps);
            && l.contract in db.contracts && l.asset in db.assets
            && db.contracts[l.contract].tenant == l.tenant == db.assets[l.asset].tenant
            && db.contracts[l.contract].store == db.assets[l.asset].store
  {
    hide Apply;
    RunSound(Initial(stores, customers), steps);
    assert LinkOk(Run(Initial(stores, customers), steps), l);
  }

  // ---------------------------------------------------------------- what only grows

  ghost predicate Grows(db: Db, db': Db) {
    && Retains(db, db')
    && db.ledger <= db'.ledger && db.links <= db'.links
    && db.extensions <= db'.extensions && db.history <= db'.history
  }

  lemma CreateGrows(db: Db, tenant: Id, user: Id, dto: CreateContractDto, newId: Id, clock: Clock)
    requires clock.Valid()
    ensures Grows(db, CreateContract(db, tenant, user, dto, newId, clock).0)
  {
    hide CreateRefusal, FindContract, YearMonth, Print, PledgeLinks, PledgedInventory;
    CreateAcceptance(db, tenant, dto);
  }

  lemma SettleGrows(db: Db, tenant: Id, user: Id, contract: Id, now: int)
    requires contract in db.contracts
    ensures Grows(db, Settle(db, tenant, user, contract, now))
  {
    hide LinkedAssets, ReturnedInventory;
  }

  lemma AppendGrows(db: Db, row: LedgerRow)
    ensures Grows(db, db.(ledger := db.ledger + [row]))
  {
  }

  lemma RecordGrows(db: Db, tenant: Id, store: Id, user: Id, dto: RecordDto, newId: Id, now: int)
    ensures Grows(db, RecordTransaction(db, tenant, store, user, dto, newId, now).0)
  {
    hide Grows, HasRowId, Settle;
    var (db', reply) := RecordTransaction(db, tenant, store, user, dto, newId, now);
    GrowsReflexive(db);
    if reply.Recorded? {
      var entered := db.(ledger := db.ledger + [reply.row]);
      AppendGrows(db, reply.row);
      if dto.kind == Settlement {
        SettleGrows(entered, tenant, user, dto.contract, now);
        GrowsTransitive(db, entered, db');
      }
    }
  }

  lemma GrowsReflexive(db: Db)
    ensures Grows(db, db)
  {
  }

  lemma GrowsTransitive(a: Db, b: Db, c: Db)
    requires Grows(a, b) && Grows(b, c)
    ensures Grows(a, c)
  {
  }

  lemma ExtendGrows(db: Db, tenant: Id, store: Id, user: Id, dto: ExtendDto, newId: Id, now: int)
    ensures Grows(db, ExtendContract(db, tenant, store, user, dto, newId, now).0)
  {
    hide HasRowId;
  }

  lemma VoidGrows(db: Db, tenant: Id, id: Id, user: Id, reason: string, newId: Id, now: int)
    ensures Grows(db, VoidTransaction(db, tenant, id, user, reason, newId, now).0)
  {
    hide Grows, HasRowId, FindTransaction;
    var (_, reply) := VoidTransaction(db, tenant, id, user, reason, newId, now);
    GrowsReflexive(db);
    if reply.Voided? {
      AppendGrows(db, reply.row);
    }
  }

  lemma UpdateAssetGrows(db: Db, tenant: Id, id: Id, changes: Columns, status: Option<AssetStatus>, now: int)
    ensures Grows(db, UpdateAsset(db, tenant, id, changes, status, now).0)
  {
    hide FindAsset;
  }

  lemma SetAssetStatusGrows(db: Db, tenant: Id, id: Id, status: AssetStatus, now: int)
    ensures Grows(db, SetAssetStatus(db, tenant, id, status, now).0)
  {
    hide FindAsset;
  }

  lemma UpdateContractGrows(db: Db, tenant: Id, id: Id, notes: Option<Option<string>>, due: Option<int>, now: int)
    ensures Grows(db, UpdateContract(db, tenant, id, notes, due, now).0)
  {
    hide FindContract, HasTransactions;
  }

  lemma SetContractStatusGrows(db: Db, tenant: Id, id: Id, status: ContractStatus, user: Id, now: int)
    ensures Grows(db, SetContractStatus(db, tenant, id, status, user, now).0)
  {
    hide FindContract;
  }

  lemma CreateAssetGrows(db: Db, tenant: Id, store: Id, dto: CreateAssetDto, newId: Id, now: int)
    ensures Grows(db, CreateAsset(db, tenant, store, dto, newId, now).0)
  {
  }

  lemma GenerateCodeGrows(db: Db, tenant: Id, store: Id, clock: Clock)
    requires clock.Valid()
    ensures Grows(db, GenerateCode(db, tenant, store, clock).0)
  {
    hide YearMonth, Print;
  }

  /** No step takes a row away, rewrites a ledger row or changes the terms of a contract. */
  lemma StepGrows(db: Db, s: Step)
    ensures Grows(db, Apply(db, s).0)
  {
    hide Grows, CreateAsset, UpdateAsset, SetAssetStatus, GenerateCode, CreateContract, UpdateContract,
         SetContractStatus, RecordTransaction, ExtendContract, VoidTransaction;
    GrowsReflexive(db);
    if ValidRequest(s) {
      match s
      case AssetCreate(t, store, dto, newId, now) => CreateAssetGrows(db, t, store, dto, newId, now);
      case AssetUpdate(t, id, changes, status, now) => UpdateAssetGrows(db, t, id, changes, status, now);
      case AssetStatusSet(t, id, status, now) => SetAssetStatusGrows(db, t, id, status, now);
      case CodeGenerate(t, store, clock) => GenerateCodeGrows(db, t, store, clock);
      case ContractCreate(t, user, dto, newId, clock) => CreateGrows(db, t, user, dto, newId, clock);
      case ContractUpdate(t, id, notes, due, now) => UpdateContractGrows(db, t, id, notes, due, now);
      case ContractStatusSet(t, id, status, user, now) => SetContractStatusGrows(db, t, id, status, user, now);
      case TransactionRecord(t, store, user, dto, newId, now) => RecordGrows(db, t, store, user, dto, newId, now);
      case ContractExtend(t, store, user, dto, newId, now) => ExtendGrows(db, t, store, user, dto, newId, now);
      case TransactionVoid(t, id, user, reason, newId, now) => VoidGrows(db, t, id, user, reason, newId, now);
    }
  }

  /** The ledger, links, extensions and history are append-only, and contract terms never change, along every run. */
  lemma {:induction false} RunGrows(db: Db, steps: seq<Step>)
    ensures Grows(db, Run(db, steps))
  {
    if steps == [] {
    } else {
      RunGrows(db, steps[..|steps| - 1]);
      StepGrows(Run(db, steps[..|steps| - 1]), steps[|steps| - 1]);
    }
  }
}
