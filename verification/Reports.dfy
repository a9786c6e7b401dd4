/** The totals of the reports agree with each other and with the contracts. */
module Reports {
  import opened Domain
  import opened Engine
  import opened Integrity

  /** SUM over the contracts with these ids of a column expression. */
  ghost function Sum(contracts: map<Id, Contract>, ids: set<Id>, column: Contract -> Money): Money
    requires ids <= contracts.Keys
  {
    if ids == {} then 0.0
    else
      var id :| id in ids;
      column(contracts[id]) + Sum(contracts, ids - {id}, column)
  }

  function Principal(c: Contract): Money {
    c.principal
  }

  /** CASE WHEN status = 'active' THEN principal_amount ELSE 0 END */
  function ActivePrincipal(c: Contract): Money {
    if c.status == Active then c.principal else 0.0
  }

  /** Summing ones counts the rows. */
  function One(c: Contract): Money {
    1.0
  }

  /** getDashboard: SUM(principal_amount) WHERE tenant_id AND status = 'active'. */
  ghost function TotalOutstandingPrincipal(db: Db, tenant: Id): Money {
    Sum(db.contracts, ActiveContracts(db, tenant), Principal)
  }

  function ContractsOf(db: Db, tenant: Id): set<Id> {
    set id | id in db.contracts && db.contracts[id].tenant == tenant
  }

  function ActiveContracts(db: Db, tenant: Id): set<Id> {
    set id | id in db.contracts && db.contracts[id].tenant == tenant && db.contracts[id].status == Active
  }

  function ContractsAt(db: Db, tenant: Id, store: Id): set<Id> {
    set id | id in db.contracts && db.contracts[id].store == store && db.contracts[id].tenant == tenant
  }

  function StoresOf(db: Db, tenant: Id): set<Id> {
    set s | s in db.stores && db.stores[s].tenant == tenant
  }

  /** One column of one row of getStoreReport: the contracts joined to a store. */
  ghost function StoreColumn(db: Db, tenant: Id, store: Id, column: Contract -> Money): Money {
    Sum(db.contracts, ContractsAt(db, tenant, store), column)
  }

  /** The sum of a column over the report's rows. */
  ghost function ColumnTotal(db: Db, tenant: Id, stores: set<Id>, column: Contract -> Money): Money {
    if stores == {} then 0.0
    else
      var s :| s in stores;
      StoreColumn(db, tenant, s, column) + ColumnTotal(db, tenant, stores - {s}, column)
  }

  // ---------------------------------------------------------------- sums

  lemma {:induction false} SumTakesOut(contracts: map<Id, Contract>, ids: set<Id>, id: Id, column: Contract -> Money)
    requires ids <= contracts.Keys && id in ids
    ensures Sum(contracts, ids, column) == column(contracts[id]) + Sum(contracts, ids - {id}, column)
  {
    var first :| first in ids &&
      Sum(contracts, ids, column) == column(contracts[first]) + Sum(contracts, ids - {first}, column);
    if first != id {
      SumTakesOut(contracts, ids - {first}, id, column);
      SumTakesOut(contracts, ids - {id}, first, column);
      assert ids - {first} - {id} == ids - {id} - {first};
    }
  }

  lemma {:induction false} SumUnion(contracts: map<Id, Contract>, a: set<Id>, b: set<Id>, column: Contract -> Money)
    requires a <= contracts.Keys && b <= contracts.Keys && a !! b
    ensures Sum(contracts, a + b, column) == Sum(contracts, a, column) + Sum(contracts, b, column)
    decreases a
  {
    if a == {} {
      assert a + b == b;
    } else {
      var id :| id in a;
      SumUnion(contracts, a - {id}, b, column);
      assert a + b - {id} == (a - {id}) + b;
      SumTakesOut(contracts, a, id, column);
      SumTakesOut(contracts, a + b, id, column);
    }
  }

  /** The sum depends only on the column values of the chosen rows. */
  lemma {:induction false} SumSameColumn(contracts: map<Id, Contract>, ids: set<Id>, contracts': map<Id, Contract>,
                                         column: Contract -> Money, column': Contract -> Money)
    requires ids <= contracts.Keys && ids <= contracts'.Keys
    requires forall id | id in ids :: column(contracts[id]) == column'(contracts'[id])
    ensures Sum(contracts, ids, column) == Sum(contracts', ids, column')
    decreases ids
  {
    if ids == {} {
    } else {
      var id :| id in ids;
      SumSameColumn(contracts, ids - {id}, contracts', column, column');
      SumTakesOut(contracts, ids, id, column);
      SumTakesOut(contracts', ids, id, column');
    }
  }

  lemma {:induction false} SumOfZeros(contracts: map<Id, Contract>, ids: set<Id>, column: Contract -> Money)
    requires ids <= contracts.Keys && forall id | id in ids :: column(contracts[id]) == 0.0
    ensures Sum(contracts, ids, column) == 0.0
  {
    if ids == {} {
    } else {
      var id :| id in ids;
      SumTakesOut(contracts, ids, id, column);
      SumOfZeros(contracts, ids - {id}, column);
    }
  }

  lemma {:induction false} SumOfOnes(contracts: map<Id, Contract>, ids: set<Id>)
    requires ids <= contracts.Keys
    ensures Sum(contracts, ids, One) == |ids| as real
  {
    if ids == {} {
    } else {
      var id :| id in ids;
      SumTakesOut(contracts, ids, id, One);
      SumOfOnes(contracts, ids - {id});
    }
  }

  // ---------------------------------------------------------------- the store report

  ghost function InStores(db: Db, tenant: Id, stores: set<Id>): set<Id> {
    set id | id in db.contracts && db.contracts[id].tenant == tenant && db.contracts[id].store in stores
  }

  /** Grouping by store loses nothing: the column total is the sum over the contracts in those stores. */
  lemma {:induction false} GroupsAddUp(db: Db, tenant: Id, stores: set<Id>, column: Contract -> Money)
    ensures ColumnTotal(db, tenant, stores, column) == Sum(db.contracts, InStores(db, tenant, stores), column)
    decreases stores
  {
    if stores == {} {
      assert InStores(db, tenant, stores) == {};
    } else {
      var s :| s in stores &&
        ColumnTotal(db, tenant, stores, column) == StoreColumn(db, tenant, s, column) + ColumnTotal(db, tenant, stores - {s}, column);
      GroupsAddUp(db, tenant, stores - {s}, column);
      var here := ContractsAt(db, tenant, s);
      var elsewhere := InStores(db, tenant, stores - {s});
      assert InStores(db, tenant, stores) == here + elsewhere;
      SumUnion(db.contracts, here, elsewhere, column);
      assert StoreColumn(db, tenant, s, column) == Sum(db.contracts, here, column);
      assert ColumnTotal(db, tenant, stores - {s}, column) == Sum(db.contracts, elsewhere, column);
    }
  }

  /** The dashboard's filtered sum is the sum of the report's CASE expression over all the tenant's contracts. */
  lemma ActiveOnly(db: Db, tenant: Id)
    ensures TotalOutstandingPrincipal(db, tenant) == Sum(db.contracts, ContractsOf(db, tenant), ActivePrincipal)
  {
    var active := ActiveContracts(db, tenant);
    var others := ContractsOf(db, tenant) - active;
    assert ContractsOf(db, tenant) == active + others;
    SumUnion(db.contracts, active, others, ActivePrincipal);
    SumOfZeros(db.contracts, others, ActivePrincipal);
    SumSameColumn(db.contracts, active, db.contracts, Principal, ActivePrincipal);
  }

  /** With every contract in a store of its tenant, the undated store report totals the dashboard and the table. */
  lemma StoreReportTotals(db: Db, tenant: Id)
    requires Sound(db)
    ensures ColumnTotal(db, tenant, StoresOf(db, tenant), ActivePrincipal) == TotalOutstandingPrincipal(db, tenant)
    ensures ColumnTotal(db, tenant, StoresOf(db, tenant), Principal) == Sum(db.contracts, ContractsOf(db, tenant), Principal)
    ensures ColumnTotal(db, tenant, StoresOf(db, tenant), One) == |ContractsOf(db, tenant)| as real
  {
    var stores := StoresOf(db, tenant);
    forall id | id in ContractsOf(db, tenant) ensures db.contracts[id].store in stores {
      assert ContractOk(db, id);
    }
    assert InStores(db, tenant, stores) == ContractsOf(db, tenant);
    GroupsAddUp(db, tenant, stores, ActivePrincipal);
    GroupsAddUp(db, tenant, stores, Principal);
    GroupsAddUp(db, tenant, stores, One);
    ActiveOnly(db, tenant);
    SumOfOnes(db.contracts, ContractsOf(db, tenant));
  }

  /**
   In every run from empty tables, the store report's active principal adds up to the dashboard's outstanding
   principal.
   */
  lemma GroupTotals(stores: map<Id, Store>, customers: map<Id, Customer>, steps: seq<Step>, tenant: Id)
    ensures var db := Run(Initial(stores, customers), steps);
            ColumnTotal(db, tenant, StoresOf(db, tenant), ActivePrincipal) == TotalOutstandingPrincipal(db, tenant)
  {
    RunSound(Initial(stores, customers), steps);
    StoreReportTotals(Run(Initial(stores, customers), steps), tenant);
  }

  // ---------------------------------------------------------------- the dashboard and single contracts

  lemma {:induction false} SumElsewhere(contracts: map<Id, Contract>, contracts': map<Id, Contract>, ids: set<Id>, id: Id)
    requires ids <= contracts.Keys && id !in ids && id in contracts' && contracts' == contracts[id := contracts'[id]]
    ensures Sum(contracts, ids, Principal) == Sum(contracts', ids, Principal)
  {
    SumSameColumn(contracts, ids, contracts', Principal, Principal);
  }

  /** What one contract counts for: its principal while it is active and the tenant's. */
  function CountsFor(db: Db, tenant: Id, id: Id): Money {
    if id in db.contracts && db.contracts[id].tenant == tenant && db.contracts[id].status == Active
    then db.contracts[id].principal else 0.0
  }

  /** Writing one contract moves the dashboard by exactly the difference it makes. */
  lemma OutstandingMoves(db: Db, db': Db, tenant: Id, id: Id)
    requires id in db'.contracts && db'.contracts == db.contracts[id := db'.contracts[id]]
    ensures TotalOutstandingPrincipal(db', tenant) ==
            TotalOutstandingPrincipal(db, tenant) - CountsFor(db, tenant, id) + CountsFor(db', tenant, id)
  {
    var others := ActiveContracts(db, tenant) - {id};
    assert ActiveContracts(db', tenant) - {id} == others;
    SumElsewhere(db.contracts, db'.contracts, others, id);
    OutstandingWithout(db, tenant, id);
    OutstandingWithout(db', tenant, id);
  }

  lemma OutstandingWithout(db: Db, tenant: Id, id: Id)
    ensures TotalOutstandingPrincipal(db, tenant) ==
            Sum(db.contracts, ActiveContracts(db, tenant) - {id}, Principal) + CountsFor(db, tenant, id)
  {
    var active := ActiveContracts(db, tenant);
    if id in active {
      SumTakesOut(db.contracts, active, id, Principal);
    } else {
      assert active - {id} == active;
    }
  }
}
