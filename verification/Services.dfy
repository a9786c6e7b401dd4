/**
 The service methods as the source writes them: one assignment per SQL statement on a shared,
 mutable data source. Each is proved to leave the tables, and to answer, as the
 function of the same name in module Engine says.
 */
module Services {
  import opened Domain
  import opened ContractCodes
  import opened Interest
  import Engine
  import Quotes

  /** The database every service holds: one mutable field per table. */
  class DataSource {
    var stores: map<Id, Store>
    var customers: map<Id, Customer>
    var assets: map<Id, Asset>
    var inventory: seq<InventoryRow>
    var contracts: map<Id, Contract>
    var links: seq<Link>
    var sequences: map<SequenceKey, nat>
    var ledger: seq<LedgerRow>
    var extensions: seq<ExtensionRow>
    var history: seq<HistoryRow>

    function State(): Db
      reads this
    {
      Db(stores, customers, assets, inventory, contracts, links, sequences, ledger, extensions, history)
    }
  }

  /** One asset row of a tenant, if it is there, with a new status. */
  function Marked(assets: map<Id, Asset>, id: Id, tenant: Id, status: AssetStatus, now: int): map<Id, Asset> {
    if id in assets && assets[id].tenant == tenant
    then assets[id := assets[id].(status := status, updatedAt := now)] else assets
  }

  /** The inventory rows of one asset of a tenant, received again. */
  function Received(rows: seq<InventoryRow>, asset: Id, tenant: Id, now: int): seq<InventoryRow> {
    seq(|rows|, i requires 0 <= i < |rows| =>
      if rows[i].asset == asset && rows[i].tenant == tenant
      then rows[i].(receivedAt := now, status := InStore) else rows[i])
  }

  /** The inventory rows of one asset of a tenant, given back. */
  function GivenBack(rows: seq<InventoryRow>, asset: Id, tenant: Id, now: int): seq<InventoryRow> {
    seq(|rows|, i requires 0 <= i < |rows| =>
      if rows[i].asset == asset && rows[i].tenant == tenant
      then rows[i].(returnedAt := Some(now), status := Returned) else rows[i])
  }

  lemma PledgeNothing(assets: map<Id, Asset>, rows: seq<InventoryRow>, tenant: Id, contract: Id, now: int)
    ensures Engine.PledgeLinks(tenant, contract, []) == []
    ensures Engine.PledgedAssets(assets, [], tenant, now) == assets
    ensures Engine.PledgedInventory(rows, [], tenant, now) == rows
  {
  }

  /** What one turn of the loop in `create` adds to the tables. */
  lemma PledgeOneMore(assets: map<Id, Asset>, rows: seq<InventoryRow>, ids: seq<Id>, id: Id, tenant: Id, contract: Id, now: int)
    ensures Engine.PledgeLinks(tenant, contract, ids + [id]) == Engine.PledgeLinks(tenant, contract, ids) + [Link(tenant, contract, id)]
    ensures Engine.PledgedAssets(assets, ids + [id], tenant, now) ==
            Marked(Engine.PledgedAssets(assets, ids, tenant, now), id, tenant, Pawned, now)
    ensures Engine.PledgedInventory(rows, ids + [id], tenant, now) ==
            Received(Engine.PledgedInventory(rows, ids, tenant, now), id, tenant, now)
  {
  }

  lemma ReleaseNothing(assets: map<Id, Asset>, rows: seq<InventoryRow>, tenant: Id, contract: Id, now: int)
    ensures Engine.LinkedAssets([], tenant, contract) == {}
    ensures Engine.RedeemedAssets(assets, {}, tenant, now) == assets
    ensures Engine.ReturnedInventory(rows, {}, tenant, now) == rows
  {
  }

  lemma LinkedOneMore(links: seq<Link>, l: Link, tenant: Id, contract: Id)
    ensures Engine.LinkedAssets(links + [l], tenant, contract) ==
            Engine.LinkedAssets(links, tenant, contract) + if l.contract == contract && l.tenant == tenant then {l.asset} else {}
  {
    var more := links + [l];
    assert forall m :: m in more <==> m in links || m == l;
  }

  /** What one linked asset adds to the updates of a settlement. */
  lemma ReleaseOneMore(assets: map<Id, Asset>, rows: seq<InventoryRow>, ids: set<Id>, id: Id, tenant: Id, now: int)
    ensures Engine.RedeemedAssets(assets, ids + {id}, tenant, now) ==
            Marked(Engine.RedeemedAssets(assets, ids, tenant, now), id, tenant, Redeemed, now)
    ensures Engine.ReturnedInventory(rows, ids + {id}, tenant, now) ==
            GivenBack(Engine.ReturnedInventory(rows, ids, tenant, now), id, tenant, now)
  {
  }

  lemma StoreKnown(db: Db, tenant: Id, dto: CreateContractDto)
    requires Engine.CreateRefusal(db, tenant, dto) == None
    ensures dto.store in db.stores
  {
  }

  class AssetsService {
    const dataSource: DataSource

    constructor (dataSource: DataSource)
      ensures this.dataSource == dataSource
    {
      this.dataSource := dataSource;
    }

    method Create(tenant: Id, store: Id, dto: CreateAssetDto, newId: Id, now: int) returns (reply: Reply)
      modifies dataSource
      ensures (dataSource.State(), reply) == Engine.CreateAsset(old(dataSource.State()), tenant, store, dto, newId, now)
    {
      if newId in dataSource.assets {
        return Failed(DuplicateKey);
      }
      var asset := Asset(tenant, store, Pawned, dto.details, now);
      dataSource.assets := dataSource.assets[newId := asset];
      dataSource.inventory := dataSource.inventory + [InventoryRow(
        tenant, store, newId, dto.locationCode, dto.locationNote, now, None, InStore)];
      reply := AssetIs(AssetView(newId, asset, None));
    }

    method Update(tenant: Id, id: Id, changes: Columns, status: Option<AssetStatus>, now: int)
      returns (reply: Reply)
      modifies dataSource
      ensures (dataSource.State(), reply) ==
              Engine.UpdateAsset(old(dataSource.State()), tenant, id, changes, status, now)
    {
      if changes == map[] && status == None {
        return Engine.FindAsset(dataSource.State(), tenant, id);
      }
      if Engine.HasAsset(dataSource.State(), tenant, id) {
        var row := dataSource.assets[id].(details := dataSource.assets[id].details + changes);
        if status.Some? {
          row := row.(status := status.value);
        }
        dataSource.assets := dataSource.assets[id := row.(updatedAt := now)];
      }
      reply := Engine.FindAsset(dataSource.State(), tenant, id);
    }

    method UpdateStatus(tenant: Id, id: Id, status: AssetStatus, now: int) returns (reply: Reply)
      modifies dataSource
      ensures (dataSource.State(), reply) == Engine.SetAssetStatus(old(dataSource.State()), tenant, id, status, now)
    {
      if !Engine.HasAsset(dataSource.State(), tenant, id) {
        return Failed(AssetNotFound);
      }
      dataSource.assets := dataSource.assets[id := dataSource.assets[id].(status := status, updatedAt := now)];
      reply := Engine.FindAsset(dataSource.State(), tenant, id);
    }
  }

  class ContractsService {
    const dataSource: DataSource

    constructor (dataSource: DataSource)
      ensures this.dataSource == dataSource
    {
      this.dataSource := dataSource;
    }

    /** The upsert: a missing sequence row starts at 1, an existing one goes up by one. */
    method UpsertSequence(key: SequenceKey) returns (number: nat)
      modifies dataSource`sequences
      ensures number == Engine.NextNumber(old(dataSource.sequences), key)
      ensures dataSource.sequences == old(dataSource.sequences)[key := number]
    {
      if key in dataSource.sequences {
        dataSource.sequences := dataSource.sequences[key := dataSource.sequences[key] + 1];
      } else {
        dataSource.sequences := dataSource.sequences[key := 1];
      }
      number := dataSource.sequences[key];
    }

    method GenerateContractCode(tenant: Id, store: Id, clock: Clock) returns (reply: Reply)
      requires clock.Valid()
      modifies dataSource
      ensures (dataSource.State(), reply) == Engine.GenerateCode(old(dataSource.State()), tenant, store, clock)
    {
      if store !in dataSource.stores || dataSource.stores[store].tenant != tenant {
        return Failed(StoreNotFound);
      }
      var storeCode := dataSource.stores[store].code;
      var number := UpsertSequence(SequenceKey(tenant, store, YearMonth(clock)));
      reply := CodeIs(Print(storeCode, YearMonth(clock), number));
    }

    /** The checks of `create`, in order: store, customer, number of assets, pawned assets. */
    method Validate(tenant: Id, dto: CreateContractDto) returns (refusal: Option<Error>)
      ensures refusal == Engine.CreateRefusal(dataSource.State(), tenant, dto)
    {
      if dto.store !in dataSource.stores || dataSource.stores[dto.store].tenant != tenant {
        return Some(StoreNotFound);
      }
      if dto.customer !in dataSource.customers || dataSource.customers[dto.customer].tenant != tenant {
        return Some(CustomerNotFound);
      }
      if |dto.assets| > 0 {
        var rows := Engine.SelectedAssets(dataSource.assets, dto.assets, tenant, dto.store);
        if |rows| != |dto.assets| {
          return Some(AssetsNotFound);
        }
        var pawned := set a | a in rows && dataSource.assets[a].status == Pawned;
        if pawned != {} {
          assert exists a :: a in pawned;
          return Some(AssetsPawned);
        }
        assert forall a | a in rows :: a !in pawned;
      }
      refusal := None;
    }

    /** The body of `create`, in one database transaction: a failed insert rolls the sequence back. */
    method Create(tenant: Id, user: Id, dto: CreateContractDto, newId: Id, clock: Clock) returns (reply: Reply)
      requires clock.Valid()
      modifies dataSource
      ensures (dataSource.State(), reply) ==
              Engine.CreateContract(old(dataSource.State()), tenant, user, dto, newId, clock)
    {
      hide Engine.FindContract, Engine.CreateRefusal, YearMonth, Print, Engine.PledgedAssets, Engine.PledgedInventory,
           Engine.PledgeLinks, Engine.NextNumber;
      var refusal := Validate(tenant, dto);
      if refusal.Some? {
        return Failed(refusal.value);
      }
      StoreKnown(dataSource.State(), tenant, dto);
      var before := dataSource.sequences;
      var storeCode := dataSource.stores[dto.store].code;
      var number := UpsertSequence(SequenceKey(tenant, dto.store, YearMonth(clock)));
      if newId in dataSource.contracts {
        dataSource.sequences := before;
        return Failed(DuplicateKey);
      }
      dataSource.contracts := dataSource.contracts[newId := Contract(
        tenant, dto.store, dto.customer, Print(storeCode, YearMonth(clock), number),
        dto.principal, dto.rate, dto.interestType, dto.startDate, dto.dueDate,
        Active, dto.notes, user, clock.ms, user)];
      PledgeAssets(tenant, newId, dto.assets, clock.ms);
      dataSource.history := dataSource.history + [HistoryRow(tenant, newId, Active, user)];
      reply := Engine.FindContract(dataSource.State(), tenant, newId);
    }

    /** The loop of `create`: link, mark and receive the assets one by one. */
    method PledgeAssets(tenant: Id, contract: Id, ids: seq<Id>, now: int)
      modifies dataSource`links, dataSource`assets, dataSource`inventory
      ensures dataSource.links == old(dataSource.links) + Engine.PledgeLinks(tenant, contract, ids)
      ensures dataSource.assets == Engine.PledgedAssets(old(dataSource.assets), ids, tenant, now)
      ensures dataSource.inventory == Engine.PledgedInventory(old(dataSource.inventory), ids, tenant, now)
    {
      hide Engine.PledgeLinks, Engine.PledgedAssets, Engine.PledgedInventory, Marked, Received;
      PledgeNothing(dataSource.assets, dataSource.inventory, tenant, contract, now);
      assert dataSource.links + [] == dataSource.links;
      for i := 0 to |ids|
        invariant dataSource.links == old(dataSource.links) + Engine.PledgeLinks(tenant, contract, ids[..i])
        invariant dataSource.assets == Engine.PledgedAssets(old(dataSource.assets), ids[..i], tenant, now)
        invariant dataSource.inventory == Engine.PledgedInventory(old(dataSource.inventory), ids[..i], tenant, now)
      {
        var id := ids[i];
        assert ids[..i + 1] == ids[..i] + [id];
        PledgeOneMore(old(dataSource.assets), old(dataSource.inventory), ids[..i], id, tenant, contract, now);
        dataSource.links := dataSource.links + [Link(tenant, contract, id)];
        dataSource.assets := Marked(dataSource.assets, id, tenant, Pawned, now);
        dataSource.inventory := Received(dataSource.inventory, id, tenant, now);
      }
      assert ids[..|ids|] == ids;
    }

    method Update(tenant: Id, id: Id, notes: Option<Option<string>>, dueDate: Option<int>, now: int) returns (reply: Reply)
      modifies dataSource
      ensures (dataSource.State(), reply) ==
              Engine.UpdateContract(old(dataSource.State()), tenant, id, notes, dueDate, now)
    {
      if !Engine.HasContract(dataSource.State(), tenant, id) {
        return Failed(ContractNotFound);
      }
      if dueDate.Some? {
        var recorded := CountTransactions(tenant, id);
        if recorded > 0 {
          return Failed(DueDateLocked);
        }
      }
      var row := dataSource.contracts[id].(updatedAt := now);
      if notes.Some? {
        row := row.(notes := notes.value);
      }
      if dueDate.Some? {
        row := row.(dueDate := dueDate.value);
      }
      dataSource.contracts := dataSource.contracts[id := row];
      reply := Engine.FindContract(dataSource.State(), tenant, id);
    }

    /** Counts the tenant's transactions of a contract. */
    method CountTransactions(tenant: Id, id: Id) returns (n: nat)
      ensures n > 0 <==> Engine.HasTransactions(dataSource.ledger, tenant, id)
    {
      n := 0;
      for i := 0 to |dataSource.ledger|
        invariant n > 0 <==> exists j | 0 <= j < i :: dataSource.ledger[j].contract == id && dataSource.ledger[j].tenant == tenant
      {
        if dataSource.ledger[i].contract == id && dataSource.ledger[i].tenant == tenant {
          n := n + 1;
        }
      }
    }

    method UpdateStatus(tenant: Id, id: Id, status: ContractStatus, user: Id, now: int) returns (reply: Reply)
      modifies dataSource
      ensures (dataSource.State(), reply) ==
              Engine.SetContractStatus(old(dataSource.State()), tenant, id, status, user, now)
    {
      if !Engine.HasContract(dataSource.State(), tenant, id) {
        return Failed(ContractNotFound);
      }
      dataSource.contracts := dataSource.contracts[id := dataSource.contracts[id].(status := status, updatedAt := now)];
      dataSource.history := dataSource.history + [HistoryRow(tenant, id, status, user)];
      reply := Engine.FindContract(dataSource.State(), tenant, id);
    }
  }

  class TransactionsService {
    const dataSource: DataSource

    constructor (dataSource: DataSource)
      ensures this.dataSource == dataSource
    {
      this.dataSource := dataSource;
    }

    /** The two updates of a settlement, link row by link row: redeem the asset and give it back. */
    method ReleaseAssets(tenant: Id, contract: Id, now: int)
      modifies dataSource`assets, dataSource`inventory
      ensures var ids := Engine.LinkedAssets(dataSource.links, tenant, contract);
              && dataSource.assets == Engine.RedeemedAssets(old(dataSource.assets), ids, tenant, now)
              && dataSource.inventory == Engine.ReturnedInventory(old(dataSource.inventory), ids, tenant, now)
    {
      hide Engine.LinkedAssets, Engine.RedeemedAssets, Engine.ReturnedInventory, Marked, GivenBack;
      var links := dataSource.links;
      ReleaseNothing(dataSource.assets, dataSource.inventory, tenant, contract, now);
      for i := 0 to |links|
        invariant dataSource.assets ==
                  Engine.RedeemedAssets(old(dataSource.assets), Engine.LinkedAssets(links[..i], tenant, contract), tenant, now)
        invariant dataSource.inventory ==
                  Engine.ReturnedInventory(old(dataSource.inventory), Engine.LinkedAssets(links[..i], tenant, contract), tenant, now)
      {
        ghost var ids := Engine.LinkedAssets(links[..i], tenant, contract);
        assert links[..i + 1] == links[..i] + [links[i]];
        LinkedOneMore(links[..i], links[i], tenant, contract);
        assert ids + {} == ids;
        if links[i].contract == contract && links[i].tenant == tenant {
          var id := links[i].asset;
          ReleaseOneMore(old(dataSource.assets), old(dataSource.inventory), ids, id, tenant, now);
          dataSource.assets := Marked(dataSource.assets, id, tenant, Redeemed, now);
          dataSource.inventory := GivenBack(dataSource.inventory, id, tenant, now);
        }
      }
      assert links[..|links|] == links;
    }

    /** What a settlement does besides its ledger row. */
    method Settle(tenant: Id, user: Id, contract: Id, now: int)
      requires contract in dataSource.contracts
      modifies dataSource
      ensures dataSource.State() == Engine.Settle(old(dataSource.State()), tenant, user, contract, now)
    {
      hide Engine.LinkedAssets, Engine.RedeemedAssets, Engine.ReturnedInventory;
      dataSource.contracts := dataSource.contracts[contract := dataSource.contracts[contract].(
        status := Settled, updatedAt := now, updatedBy := user)];
      dataSource.history := dataSource.history + [HistoryRow(tenant, contract, Settled, user)];
      ReleaseAssets(tenant, contract, now);
    }

    /** The allowed statuses by kind of transaction. */
    method CheckStatus(kind: TransactionType, status: ContractStatus) returns (refusal: Option<Error>)
      ensures refusal == Engine.RecordRefusal(kind, status)
    {
      if kind == Disbursement {
        if status !in {Draft, Active} {
          return Some(DisbursementNotAllowed);
        }
      } else if kind in {InterestCollection, FeeCollection, Settlement, PartialPrincipal} {
        if status !in {Active, NearDue, ContractStatus.Overdue, Extended} {
          return Some(TransactionNotAllowed);
        }
      }
      refusal := None;
    }

    method RecordTransaction(tenant: Id, store: Id, user: Id, dto: RecordDto, newId: Id,
            now: int) returns (reply: Reply)
      modifies dataSource
      ensures (dataSource.State(), reply) ==
              Engine.RecordTransaction(old(dataSource.State()), tenant, store, user, dto, newId, now)
    {
      hide Engine.LinkedAssets, Engine.RedeemedAssets, Engine.ReturnedInventory, Engine.HasRowId, Engine.RecordRefusal;
      if !(Engine.HasContract(dataSource.State(), tenant, dto.contract) &&
           dataSource.contracts[dto.contract].store == store)
      {
        return Failed(ContractNotFound);
      }
      var contract := dataSource.contracts[dto.contract];
      var refusal := CheckStatus(dto.kind, contract.status);
      if refusal.Some? {
        return Failed(refusal.value);
      }
      if Engine.HasRowId(dataSource.ledger, newId) {
        return Failed(DuplicateKey);
      }
      var row := LedgerRow(newId, tenant, store, dto.contract, dto.kind, dto.amount,
                           dto.payment, dto.date, dto.note, dto.reference, user);
      dataSource.ledger := dataSource.ledger + [row];
      if dto.kind == Settlement {
        Settle(tenant, user, dto.contract, now);
      }
      reply := Recorded(row, dataSource.contracts[dto.contract].status);
    }

    method ExtendContract(tenant: Id, store: Id, user: Id, dto: ExtendDto, newId: Id, now: int) returns (reply: Reply)
      modifies dataSource
      ensures (dataSource.State(), reply) ==
              Engine.ExtendContract(old(dataSource.State()), tenant, store, user, dto, newId, now)
    {
      if !(Engine.HasContract(dataSource.State(), tenant, dto.contract) &&
           dataSource.contracts[dto.contract].store == store)
      {
        return Failed(ContractNotFound);
      }
      var contract := dataSource.contracts[dto.contract];
      if contract.status !in {Active, NearDue, ContractStatus.Overdue} {
        return Failed(ExtensionNotAllowed);
      }
      var oldDueDate := contract.dueDate;
      if Engine.HasRowId(dataSource.ledger, newId) {
        return Failed(DuplicateKey);
      }
      var row := LedgerRow(newId, tenant, store, dto.contract, Extension, dto.interestPaid,
                           dto.payment, now, dto.note, None, user);
      dataSource.ledger := dataSource.ledger + [row];
      dataSource.extensions := dataSource.extensions + [ExtensionRow(
        tenant, dto.contract, oldDueDate, dto.newDue, dto.interestPaid,
        if dto.fee.Some? then dto.fee.value else 0.0, user)];
      dataSource.contracts := dataSource.contracts[dto.contract := dataSource.contracts[dto.contract].(
        dueDate := dto.newDue, status := Extended, updatedAt := now, updatedBy := user)];
      dataSource.history := dataSource.history + [HistoryRow(tenant, dto.contract, Extended, user)];
      reply := Prolonged(row, dto.newDue);
    }

    method VoidTransaction(tenant: Id, id: Id, user: Id, reason: string, newId: Id, now: int) returns (reply: Reply)
      modifies dataSource
      ensures (dataSource.State(), reply) ==
              Engine.VoidTransaction(old(dataSource.State()), tenant, id, user, reason, newId, now)
    {
      var i := Engine.FindTransaction(dataSource.ledger, tenant, id);
      if i < 0 {
        return Failed(TransactionNotFound);
      }
      var original := dataSource.ledger[i];
      if original.kind in {Void, Reversal} {
        return Failed(CannotVoid);
      }
      if Engine.HasRowId(dataSource.ledger, newId) {
        return Failed(DuplicateKey);
      }
      var row := LedgerRow(newId, tenant, original.store, original.contract, Void, -original.amount,
                           original.payment, now, Some(reason), Some(id), user);
      dataSource.ledger := dataSource.ledger + [row];
      reply := Voided(row);
    }

    /** Adds up the interest and fee rows of a contract. */
    method SumPaid(tenant: Id, contract: Id) returns (total: Money)
      ensures total == Quotes.AlreadyPaid(dataSource.ledger, tenant, contract)
    {
      total := 0.0;
      for i := 0 to |dataSource.ledger|
        invariant total == Quotes.AlreadyPaid(dataSource.ledger[..i], tenant, contract)
      {
        var row := dataSource.ledger[i];
        assert dataSource.ledger[..i + 1][..i] == dataSource.ledger[..i];
        if row.contract == contract && row.tenant == tenant && row.kind in {InterestCollection, FeeCollection} {
          total := total + row.amount;
        }
      }
      assert dataSource.ledger[..|dataSource.ledger|] == dataSource.ledger;
    }

    method CalculateSettlement(tenant: Id, id: Id, to: int) returns (quote: Quotes.Quote)
      ensures quote == Quotes.CalculateSettlement(dataSource.State(), tenant, id, to)
    {
      hide Quotes.AlreadyPaid, CeilDiv;
      if !Engine.HasContract(dataSource.State(), tenant, id) {
        return Quotes.NoContract;
      }
      var contract := dataSource.contracts[id];
      var alreadyPaid := SumPaid(tenant, id);
      var days := CeilDiv(to - contract.startDate, MS_PER_DAY);
      if days < 0 {
        days := 0;
      }
      var interestDue := 0.0;
      match contract.interestType {
        case Daily =>
          interestDue := contract.principal * (contract.rate / 100.0) * days as real;
        case Monthly =>
          var months := CeilDiv(days, 30);
          interestDue := contract.principal * (contract.rate / 100.0) * months as real;
        case Term =>
          interestDue := contract.principal * (contract.rate / 100.0);
      }
      assert interestDue == CalculateInterest(
        contract.principal, contract.rate, contract.interestType, contract.startDate, to);
      var remaining := contract.principal + interestDue - alreadyPaid;
      if remaining < 0.0 {
        remaining := 0.0;
      }
      quote := Quotes.Quote(contract.principal, interestDue, 0.0, contract.principal + interestDue, alreadyPaid, remaining);
    }
  }
}
