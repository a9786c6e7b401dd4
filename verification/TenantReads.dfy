/** Reports, quotes and lists read only the rows of the asking tenant. */
module TenantReads {
  import opened Domain
  import opened Integrity
  import opened Isolation
  import opened Quotes
  import opened Custody
  import opened Reports
  import opened Interest

  lemma {:induction false} PaidSeesOwnRows(ledger: seq<LedgerRow>, t: Id, contract: Id)
    ensures AlreadyPaid(Own(ledger, LedgerTenant, t), t, contract) == AlreadyPaid(ledger, t, contract)
  {
    if ledger == [] {
    } else {
      var front, last := ledger[..|ledger| - 1], ledger[|ledger| - 1];
      PaidSeesOwnRows(front, t, contract);
      if last.tenant == t {
        var kept := Own(front, LedgerTenant, t) + [last];
        assert Own(ledger, LedgerTenant, t) == kept;
        assert kept[..|kept| - 1] == Own(front, LedgerTenant, t);
      } else {
        assert Own(ledger, LedgerTenant, t) == Own(front, LedgerTenant, t);
      }
    }
  }

  lemma {:induction false} InventorySeesOwnRows(db: Db, own: Db, rows: seq<InventoryRow>, t: Id, store: Option<Id>)
    requires own.assets == OwnAssets(db.assets, t)
    requires forall r | r in rows :: InventoryRowOk(db, r)
    ensures GetInventory(own, Own(rows, InventoryTenant, t), t, store) == GetInventory(db, rows, t, store)
  {
    if rows == [] {
    } else {
      var front, last := rows[..|rows| - 1], rows[|rows| - 1];
      assert rows == front + [last];
      InventorySeesOwnRows(db, own, front, t, store);
      assert InventoryRowOk(db, last);
      if last.tenant == t {
        var kept := Own(front, InventoryTenant, t) + [last];
        assert Own(rows, InventoryTenant, t) == kept;
        assert kept[..|kept| - 1] == Own(front, InventoryTenant, t);
      } else {
        assert Own(rows, InventoryTenant, t) == Own(front, InventoryTenant, t);
      }
    }
  }

  lemma SumSeesOwnRows(db: Db, t: Id, ids: set<Id>, column: Contract -> Money)
    requires ids <= ContractsOf(db, t)
    ensures Sum(OwnContracts(db.contracts, t), ids, column) == Sum(db.contracts, ids, column)
  {
    SumSameColumn(OwnContracts(db.contracts, t), ids, db.contracts, column, column);
  }

  lemma {:induction false} ColumnSeesOwnRows(db: Db, t: Id, stores: set<Id>, column: Contract -> Money)
    ensures ColumnTotal(Restrict(db, t), t, stores, column) == ColumnTotal(db, t, stores, column)
  {
    var own := Restrict(db, t);
    assert InStores(own, t, stores) == InStores(db, t, stores);
    GroupsAddUp(own, t, stores, column);
    GroupsAddUp(db, t, stores, column);
    SumSeesOwnRows(db, t, InStores(db, t, stores), column);
  }

  /** A tenant's quotes, inventory list, custody count, dashboard sum and store report are those of its own rows. */
  lemma ReadsSeeOwnRows(db: Db, t: Id, contract: Id, to: int, store: Option<Id>, column: Contract -> Money)
    requires Sound(db)
    ensures var own := Restrict(db, t);
            && CalculateSettlement(own, t, contract, to) == CalculateSettlement(db, t, contract, to)
            && GetInventory(own, own.inventory, t, store) == GetInventory(db, db.inventory, t, store)
            && AssetsInCustody(own, t, store) == AssetsInCustody(db, t, store)
            && TotalOutstandingPrincipal(own, t) == TotalOutstandingPrincipal(db, t)
            && StoresOf(own, t) == StoresOf(db, t)
            && ColumnTotal(own, t, StoresOf(own, t), column) == ColumnTotal(db, t, StoresOf(db, t), column)
  {
    hide AlreadyPaid, CalculateInterest, GetInventory, Sum, ColumnTotal, Own;
    var own := Restrict(db, t);
    PaidSeesOwnRows(db.ledger, t, contract);
    InventorySeesOwnRows(db, own, db.inventory, t, store);
    assert AssetsInCustody(own, t, store) == AssetsInCustody(db, t, store);
    assert ActiveContracts(own, t) == ActiveContracts(db, t);
    SumSeesOwnRows(db, t, ActiveContracts(db, t), Principal);
    assert StoresOf(own, t) == StoresOf(db, t);
    ColumnSeesOwnRows(db, t, StoresOf(db, t), column);
  }
}
