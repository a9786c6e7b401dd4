/** No asset backs two live contracts, and the assets of a live contract are pawned. */
module Pledge {
  import opened Domain
  import opened ContractCodes
  import opened Engine
  import opened Frames
  import opened Integrity

  ghost predicate Live(db: Db, contract: Id) {
    contract in db.contracts && !Closed(db.contracts[contract].status)
  }

  ghost predicate BacksLive(db: Db, asset: Id) {
    exists l | l in db.links :: l.asset == asset && Live(db, l.contract)
  }

  ghost predicate IsPawned(db: Db, asset: Id) {
    asset in db.assets && db.assets[asset].status == Pawned
  }

  ghost predicate Exclusive(db: Db) {
    && (forall l | l in db.links && Live(db, l.contract) :: IsPawned(db, l.asset))
    && (forall l, m | l in db.links && m in db.links && l.asset == m.asset && Live(db, l.contract) && Live(db, m.contract) ::
          l.contract == m.contract)
  }

  /**
   A manual status write neither releases an asset of a live contract nor revives a contract whose assets are
   not free for it.
   */
  ghost predicate Disciplined(db: Db, s: Step) {
    match s
    case AssetUpdate(t, id, _, status, _) =>
      HasAsset(db, t, id) && status.Some? && status.value != Pawned ==> !BacksLive(db, id)
    case AssetStatusSet(t, id, status, _) =>
      HasAsset(db, t, id) && status != Pawned ==> !BacksLive(db, id)
    case ContractStatusSet(t, id, status, _, _) =>
      HasContract(db, t, id) && Closed(db.contracts[id].status) && !Closed(status) ==>
        forall l | l in db.links && l.contract == id :: IsPawned(db, l.asset) && !BacksLive(db, l.asset)
    case _ => true
  }

  // ---------------------------------------------------------------- creating contracts

  /** A new live contract linked to assets that are now pawned. */
  lemma NewLinksExclusive(db: Db, db': Db, tenant: Id, newId: Id, ids: seq<Id>)
    requires Exclusive(db) && db'.links == db.links + PledgeLinks(tenant, newId, ids)
    requires forall l | l in db.links :: l.contract in db.contracts
    requires newId !in db.contracts && Live(db', newId) && forall k | k in db.contracts :: Live(db', k) == Live(db, k)
    requires forall a | IsPawned(db, a) || a in ids :: IsPawned(db', a)
    ensures Exclusive(db') <==> forall a | a in ids :: !BacksLive(db, a)
  {
    hide PledgeLinks;
    PledgeLinksAt(tenant, newId, ids);
    var added := PledgeLinks(tenant, newId, ids);
    assert forall l | l in db'.links :: l in db.links || l in added;
    if forall a | a in ids :: !BacksLive(db, a) {
      forall l | l in db'.links && Live(db', l.contract) ensures IsPawned(db', l.asset) {
        if l in db.links {
          assert IsPawned(db, l.asset);
        }
      }
    } else {
      var a :| a in ids && BacksLive(db, a);
      SharedAsset(db, db', tenant, newId, ids, a);
    }
  }

  /** A new live contract that names an asset of another live one. */
  lemma SharedAsset(db: Db, db': Db, tenant: Id, newId: Id, ids: seq<Id>, a: Id)
    requires a in ids && BacksLive(db, a) && db'.links == db.links + PledgeLinks(tenant, newId, ids)
    requires newId !in db.contracts && Live(db', newId) && forall k | k in db.contracts :: Live(db', k) == Live(db, k)
    ensures !Exclusive(db')
  {
    hide PledgeLinks;
    PledgeLinksAt(tenant, newId, ids);
    var l :| l in db.links && l.asset == a && Live(db, l.contract);
    var i :| 0 <= i < |ids| && ids[i] == a;
    var m := PledgeLinks(tenant, newId, ids)[i];
    assert l in db'.links && m in db'.links && l.contract != m.contract && Live(db', l.contract) && Live(db', m.contract);
  }

  /** Writing a contract keeps exclusivity exactly when none of its assets already backs a live contract. */
  lemma WriteExclusive(db: Db, tenant: Id, user: Id, dto: CreateContractDto, newId: Id, clock: Clock)
    requires Sound(db) && Exclusive(db) && clock.Valid()
    requires dto.store in db.stores && newId !in db.contracts
    requires forall a | a in dto.assets :: a in db.assets && db.assets[a].tenant == tenant
    ensures Exclusive(WriteContract(db, tenant, user, dto, newId, clock)) <==>
            forall a | a in dto.assets :: !BacksLive(db, a)
  {
    hide YearMonth, Print, PledgedInventory, PledgeLinks, Sound, Exclusive, BacksLive;
    var db' := WriteContract(db, tenant, user, dto, newId, clock);
    LinksRefer(db);
    NewLinksExclusive(db, db', tenant, newId, dto.assets);
  }

  lemma LinksRefer(db: Db)
    requires Sound(db)
    ensures forall l | l in db.links :: l.contract in db.contracts && l.asset in db.assets
  {
    assert forall l | l in db.links :: LinkOk(db, l);
  }

  lemma CreateExclusive(db: Db, tenant: Id, user: Id, dto: CreateContractDto, newId: Id, clock: Clock)
    requires Sound(db) && Exclusive(db) && clock.Valid()
    ensures Exclusive(CreateContract(db, tenant, user, dto, newId, clock).0)
  {
    hide FindContract, CreateRefusal, WriteContract, Sound;
    CreateAcceptance(db, tenant, dto);
    if CreateRefusal(db, tenant, dto) == None && newId !in db.contracts {
      assert forall a | a in dto.assets :: !IsPawned(db, a) && !BacksLive(db, a);
      WriteExclusive(db, tenant, user, dto, newId, clock);
    }
  }

  /**
   Run atomically, `create` keeps exclusivity. Two creations that both pass the asset check on the same
   tables before either writes keep it exactly when they name different assets: the check
   precedes the advisory lock.
   */
  lemma InterleavedCreations(
          db: Db, tenant: Id,
          user1: Id, first: CreateContractDto, id1: Id, clock1: Clock,
          user2: Id, second: CreateContractDto, id2: Id, clock2: Clock)
    requires Sound(db) && Exclusive(db) && clock1.Valid() && clock2.Valid()
    requires CreateRefusal(db, tenant, first) == None && CreateRefusal(db, tenant, second) == None
    requires first.principal > 0.0 && first.rate > 0.0
    requires id1 !in db.contracts && id2 !in db.contracts && id1 != id2
    ensures first.store in db.stores && second.store in db.stores
    ensures var once := WriteContract(db, tenant, user1, first, id1, clock1);
            Exclusive(WriteContract(once, tenant, user2, second, id2, clock2)) <==>
            forall a | a in first.assets :: a !in second.assets
  {
    hide CreateRefusal, WriteContract, Sound, Exclusive, BacksLive;
    CreateAcceptance(db, tenant, first);
    CreateAcceptance(db, tenant, second);
    var once := WriteContract(db, tenant, user1, first, id1, clock1);
    CreationWritten(db, tenant, user1, first, id1, clock1);
    WriteExclusive(once, tenant, user2, second, id2, clock2);
    forall a | a in second.assets ensures BacksLive(once, a) <==> a in first.assets {
      UnpawnedBacksNothing(db, a);
      NewlyBacked(db, tenant, user1, first, id1, clock1, a);
    }
  }

  lemma UnpawnedBacksNothing(db: Db, a: Id)
    requires Exclusive(db) && !IsPawned(db, a)
    ensures !BacksLive(db, a)
  {
  }

  /** What an accepted creation leaves for the next one. */
  lemma CreationWritten(db: Db, tenant: Id, user: Id, dto: CreateContractDto, id: Id, clock: Clock)
    requires Sound(db) && Exclusive(db) && clock.Valid() && dto.principal > 0.0 && dto.rate > 0.0
    requires CreateRefusal(db, tenant, dto) == None && id !in db.contracts
    ensures dto.store in db.stores
    ensures var once := WriteContract(db, tenant, user, dto, id, clock);
            && Sound(once) && Exclusive(once) && once.stores == db.stores && once.contracts.Keys == db.contracts.Keys + {id}
            && forall a | a in db.assets :: a in once.assets && once.assets[a].tenant == db.assets[a].tenant
  {
    hide CreateRefusal, FindContract, Sound, Exclusive, YearMonth, Print, PledgedInventory, PledgeLinks;
    CreateAcceptance(db, tenant, dto);
    CreateContractSound(db, tenant, user, dto, id, clock);
    CreateExclusive(db, tenant, user, dto, id, clock);
  }

  /** After an accepted creation, an asset that backed nothing backs a live contract exactly when the creation named it. */
  lemma NewlyBacked(db: Db, tenant: Id, user: Id, dto: CreateContractDto, id: Id, clock: Clock, a: Id)
    requires Sound(db) && clock.Valid() && dto.store in db.stores && id !in db.contracts && !BacksLive(db, a)
    ensures BacksLive(WriteContract(db, tenant, user, dto, id, clock), a) <==> a in dto.assets
  {
    hide Sound, YearMonth, Print, PledgedInventory, PledgedAssets, PledgeLinks;
    LinksRefer(db);
    var once := WriteContract(db, tenant, user, dto, id, clock);
    var added := PledgeLinks(tenant, id, dto.assets);
    PledgeLinksAt(tenant, id, dto.assets);
    assert forall l | l in once.links :: l in db.links || l in added;
    if a in dto.assets {
      var i :| 0 <= i < |dto.assets| && dto.assets[i] == a;
      assert added[i] in once.links && Live(once, id);
    } else {
      assert forall l | l in once.links && l.asset == a :: l in db.links && !Live(once, l.contract);
    }
  }

  lemma PledgeLinksAt(tenant: Id, contract: Id, ids: seq<Id>)
    ensures forall i | 0 <= i < |ids| :: PledgeLinks(tenant, contract, ids)[i] == Link(tenant, contract, ids[i])
    ensures forall l | l in PledgeLinks(tenant, contract, ids) :: l.contract == contract && l.asset in ids
  {
  }

  // ---------------------------------------------------------------- the other steps

  /** Changing only contract rows, without opening a closed contract. */
  lemma ContractsOnlyClose(db: Db, db': Db)
    requires Exclusive(db) && db'.links == db.links && db'.assets == db.assets
    requires forall id | Live(db', id) :: Live(db, id)
    ensures Exclusive(db')
  {
  }

  lemma AssetWriteExclusive(db: Db, id: Id, a: Asset)
    requires Exclusive(db) && id in db.assets
    requires a.status == Pawned || a.status == db.assets[id].status || !BacksLive(db, id)
    ensures Exclusive(db.(assets := db.assets[id := a]))
  {
    var db' := db.(assets := db.assets[id := a]);
    forall l | l in db'.links && Live(db', l.contract) ensures IsPawned(db', l.asset) {
      assert l in db.links && Live(db, l.contract);
      assert IsPawned(db, l.asset);
    }
  }

  lemma AssetReleaseBreaks(db: Db, id: Id, a: Asset)
    requires id in db.assets && a.status != Pawned && BacksLive(db, id)
    ensures !Exclusive(db.(assets := db.assets[id := a]))
  {
    var db' := db.(assets := db.assets[id := a]);
    var l :| l in db.links && l.asset == id && Live(db, l.contract);
    assert l in db'.links && Live(db', l.contract) && !IsPawned(db', l.asset);
  }

  lemma SettleExclusive(db: Db, tenant: Id, user: Id, contract: Id, now: int)
    requires Sound(db) && Exclusive(db) && HasContract(db, tenant, contract) && Live(db, contract)
    ensures Exclusive(Settle(db, tenant, user, contract, now))
  {
    var db' := Settle(db, tenant, user, contract, now);
    var ids := LinkedAssets(db.links, tenant, contract);
    forall l | l in db'.links && Live(db', l.contract) ensures IsPawned(db', l.asset) {
      assert l in db.links && l.contract != contract && Live(db, l.contract);
      assert IsPawned(db, l.asset);
      assert forall m | m in db.links && m.contract == contract :: m.asset != l.asset;
    }
  }

  lemma RecordExclusive(db: Db, tenant: Id, store: Id, user: Id, dto: RecordDto, newId: Id, now: int)
    requires Sound(db) && Exclusive(db)
    ensures Exclusive(RecordTransaction(db, tenant, store, user, dto, newId, now).0)
  {
    hide Sound, Exclusive, Settle;
    var (db', reply) := RecordTransaction(db, tenant, store, user, dto, newId, now);
    if reply.Recorded? {
      var entered := db.(ledger := db.ledger + [reply.row]);
      ContractsOnlyClose(db, entered);
      if dto.kind == Settlement {
        assert LedgerRowOk(db, reply.row);
        AppendLedgerSound(db, reply.row);
        SettleExclusive(entered, tenant, user, dto.contract, now);
      }
    }
  }

  lemma SetStatusExclusive(db: Db, s: Step)
    requires Sound(db) && Exclusive(db) && s.ContractStatusSet?
    ensures Exclusive(SetContractStatus(db, s.tenant, s.contract, s.status, s.user, s.now).0) <==> Disciplined(db, s)
  {
    hide FindContract, Sound;
    var db' := SetContractStatus(db, s.tenant, s.contract, s.status, s.user, s.now).0;
    if HasContract(db, s.tenant, s.contract) {
      var id := s.contract;
      assert forall k | k != id :: Live(db', k) == Live(db, k);
      if Live(db, id) || Closed(s.status) {
        ContractsOnlyClose(db, db');
      } else {
        Revival(db, db', id);
      }
    }
  }

  /** A closed contract made live again. */
  lemma Revival(db: Db, db': Db, id: Id)
    requires Sound(db) && Exclusive(db) && db'.links == db.links && db'.assets == db.assets
    requires !Live(db, id) && Live(db', id) && forall k | k != id :: Live(db', k) == Live(db, k)
    ensures Exclusive(db') <==> forall l | l in db.links && l.contract == id :: IsPawned(db, l.asset) && !BacksLive(db, l.asset)
  {
    hide Sound;
    if Exclusive(db') {
      forall l | l in db.links && l.contract == id ensures IsPawned(db, l.asset) && !BacksLive(db, l.asset) {
        assert IsPawned(db', l.asset);
        assert forall m | m in db.links && Live(db, m.contract) :: Live(db', m.contract) && m.asset != l.asset;
      }
    }
    if forall l | l in db.links && l.contract == id :: IsPawned(db, l.asset) && !BacksLive(db, l.asset) {
      forall l | l in db'.links && Live(db', l.contract) ensures IsPawned(db', l.asset) {
        if l.contract != id {
          assert IsPawned(db, l.asset);
        }
      }
      forall l, m | l in db'.links && m in db'.links && l.asset == m.asset && Live(db', l.contract) && Live(db', m.contract)
        ensures l.contract == m.contract
      {
        assert l.contract == id ==> !BacksLive(db, l.asset);
        assert m.contract == id ==> !BacksLive(db, m.asset);
      }
    }
  }

  lemma UpdateAssetExclusive(db: Db, s: Step)
    requires Exclusive(db) && s.AssetUpdate?
    ensures Exclusive(UpdateAsset(db, s.tenant, s.asset, s.changes, s.newStatus, s.now).0) <==> Disciplined(db, s)
  {
    hide FindAsset, Exclusive, BacksLive;
    if HasAsset(db, s.tenant, s.asset) && !(s.changes == map[] && s.newStatus == None) {
      var a := UpdateAsset(db, s.tenant, s.asset, s.changes, s.newStatus, s.now).0.assets[s.asset];
      if Disciplined(db, s) {
        AssetWriteExclusive(db, s.asset, a);
      } else {
        AssetReleaseBreaks(db, s.asset, a);
      }
    }
  }

  lemma SetAssetStatusExclusive(db: Db, s: Step)
    requires Exclusive(db) && s.AssetStatusSet?
    ensures Exclusive(SetAssetStatus(db, s.tenant, s.asset, s.assetStatus, s.now).0) <==> Disciplined(db, s)
  {
    hide FindAsset, Exclusive, BacksLive;
    if HasAsset(db, s.tenant, s.asset) {
      var a := db.assets[s.asset].(status := s.assetStatus, updatedAt := s.now);
      if Disciplined(db, s) {
        AssetWriteExclusive(db, s.asset, a);
      } else {
        AssetReleaseBreaks(db, s.asset, a);
      }
    }
  }

  lemma PlainStepsExclusive(db: Db, s: Step)
    requires Sound(db) && Exclusive(db)
    requires s.AssetCreate? || s.CodeGenerate? || s.ContractUpdate? || s.ContractExtend? || s.TransactionVoid?
    ensures Exclusive(Apply(db, s).0)
  {
    hide Sound, Exclusive, Apply, Enters, HasTransactions;
    StepFramed(db, s);
    var db' := Apply(db, s).0;
    if s.AssetCreate? {
      CreateAssetKeeps(db, s);
      NewAssetExclusive(db, db');
    } else {
      ContractsOnlyClose(db, db');
    }
  }

  lemma CreateAssetKeeps(db: Db, s: Step)
    requires s.AssetCreate?
    ensures forall a | a in db.assets :: a in Apply(db, s).0.assets && Apply(db, s).0.assets[a] == db.assets[a]
  {
  }

  lemma NewAssetExclusive(db: Db, db': Db)
    requires Exclusive(db) && db'.links == db.links && db'.contracts == db.contracts
    requires forall a | a in db.assets :: a in db'.assets && db'.assets[a] == db.assets[a]
    ensures Exclusive(db')
  {
    forall l | l in db'.links && Live(db', l.contract) ensures IsPawned(db', l.asset) {
      assert Live(db, l.contract) && IsPawned(db, l.asset);
    }
  }

  /** From exclusive tables, a step leaves exclusive tables exactly when it is disciplined. */
  lemma StepExclusive(db: Db, s: Step)
    requires Sound(db) && Exclusive(db)
    ensures Exclusive(Apply(db, s).0) <==> Disciplined(db, s) || !ValidRequest(s)
  {
    hide Sound, Exclusive, Disciplined, CreateAsset, UpdateAsset, SetAssetStatus, GenerateCode, CreateContract,
         UpdateContract, SetContractStatus, RecordTransaction, ExtendContract, VoidTransaction;
    if ValidRequest(s) {
      match s
      case AssetUpdate(_, _, _, _, _) => UpdateAssetExclusive(db, s);
      case AssetStatusSet(_, _, _, _) => SetAssetStatusExclusive(db, s);
      case ContractStatusSet(_, _, _, _, _) => SetStatusExclusive(db, s);
      case ContractCreate(t, user, dto, newId, clock) =>
        CreateExclusive(db, t, user, dto, newId, clock);
        OtherStepsDisciplined(db, s);
      case TransactionRecord(t, store, user, dto, newId, now) =>
        RecordExclusive(db, t, store, user, dto, newId, now);
        OtherStepsDisciplined(db, s);
      case _ =>
        PlainStepsExclusive(db, s);
        OtherStepsDisciplined(db, s);
    }
  }

  lemma OtherStepsDisciplined(db: Db, s: Step)
    requires !s.AssetUpdate? && !s.AssetStatusSet? && !s.ContractStatusSet?
    ensures Disciplined(db, s)
  {
  }

  /** The tables are exclusive at every point of the run. */
  ghost predicate ExclusiveThroughout(db: Db, steps: seq<Step>) {
    Exclusive(Run(db, steps)) && (steps == [] || ExclusiveThroughout(db, steps[..|steps| - 1]))
  }

  /** Every accepted manual write of the run is disciplined at the moment it is made. */
  ghost predicate DisciplinedThroughout(db: Db, steps: seq<Step>) {
    steps == [] ||
    (var before, last := steps[..|steps| - 1], steps[|steps| - 1];
     DisciplinedThroughout(db, before) && (Disciplined(Run(db, before), last) || !ValidRequest(last)))
  }

  /** A run keeps the tables exclusive throughout exactly when its manual writes are disciplined throughout. */
  lemma {:induction false} RunExclusive(db: Db, steps: seq<Step>)
    requires Sound(db) && Exclusive(db)
    ensures ExclusiveThroughout(db, steps) <==> DisciplinedThroughout(db, steps)
  {
    hide Exclusive, Disciplined, ValidRequest, Sound, Apply;
    if steps == [] {
    } else {
      var before := steps[..|steps| - 1];
      RunSound(db, before);
      RunExclusive(db, before);
      if ExclusiveThroughout(db, before) {
        StepExclusive(Run(db, before), steps[|steps| - 1]);
      }
    }
  }

  /** With disciplined manual writes, in every run from empty tables no asset backs two live contracts. */
  lemma RunsFromScratchAreExclusive(stores: map<Id, Store>, customers: map<Id, Customer>, steps: seq<Step>)
    requires DisciplinedThroughout(Initial(stores, customers), steps)
    ensures Exclusive(Run(Initial(stores, customers), steps))
  {
    RunExclusive(Initial(stores, customers), steps);
  }
}
