/** Extensions of a contract link up, and the last one names its due date. */
module ExtensionChain {
  import opened Domain
  import opened Engine
  import opened Frames
  import opened Integrity

  /** The extension rows of one contract, in insertion order. */
  function ExtensionsOf(rows: seq<ExtensionRow>, contract: Id): seq<ExtensionRow> {
    if rows == [] then []
    else
      var last := rows[|rows| - 1];
      ExtensionsOf(rows[..|rows| - 1], contract) + if last.contract == contract then [last] else []
  }

  ghost predicate Linked(es: seq<ExtensionRow>) {
    forall i | 0 <= i < |es| - 1 :: es[i + 1].oldDue == es[i].newDue
  }

  ghost predicate ChainOf(db: Db, id: Id)
    requires id in db.contracts
  {
    var es := ExtensionsOf(db.extensions, id);
    && Linked(es)
    && (es != [] ==> es[|es| - 1].newDue == db.contracts[id].dueDate &&
                     HasTransactions(db.ledger, db.contracts[id].tenant, id))
  }

  ghost predicate Chained(db: Db) {
    forall id | id in db.contracts :: ChainOf(db, id)
  }

  lemma {:induction false} NoExtensions(rows: seq<ExtensionRow>, contract: Id)
    requires forall r | r in rows :: r.contract != contract
    ensures ExtensionsOf(rows, contract) == []
  {
    if rows == [] {
    } else {
      var front, last := rows[..|rows| - 1], rows[|rows| - 1];
      assert rows == front + [last];
      NoExtensions(front, contract);
    }
  }

  lemma TransactionsStay(ledger: seq<LedgerRow>, ledger': seq<LedgerRow>, tenant: Id, contract: Id)
    requires ledger <= ledger' && HasTransactions(ledger, tenant, contract)
    ensures HasTransactions(ledger', tenant, contract)
  {
    var j :| 0 <= j < |ledger| && ledger[j].contract == contract && ledger[j].tenant == tenant;
    assert ledger'[j] == ledger[j];
  }

  /** A step that writes no extension row and moves only due dates of contracts without transactions. */
  lemma ChainKept(db: Db, db': Db)
    requires Sound(db) && Chained(db) && db'.extensions == db.extensions && Grows(db, db')
    requires forall id | id in db.contracts :: db'.contracts[id].dueDate == db.contracts[id].dueDate ||
                                               !HasTransactions(db.ledger, db.contracts[id].tenant, id)
    ensures Chained(db')
  {
    forall id | id in db'.contracts ensures ChainOf(db', id) {
      if id in db.contracts {
        assert ChainOf(db, id);
        if ExtensionsOf(db.extensions, id) != [] {
          TransactionsStay(db.ledger, db'.ledger, db.contracts[id].tenant, id);
        }
      } else {
        assert forall r | r in db.extensions :: OwnedBy(db, r.contract, r.tenant);
        NoExtensions(db.extensions, id);
      }
    }
  }

  /** One more extension, from the current due date to the new one. */
  lemma ExtensionAppended(db: Db, db': Db, row: ExtensionRow)
    requires Chained(db) && row.contract in db.contracts && db'.extensions == db.extensions + [row]
    requires row.oldDue == db.contracts[row.contract].dueDate
    requires row.contract in db'.contracts && db'.contracts == db.contracts[row.contract := db'.contracts[row.contract]]
    requires db'.contracts[row.contract].dueDate == row.newDue
    requires db.ledger <= db'.ledger && HasTransactions(db'.ledger, db'.contracts[row.contract].tenant, row.contract)
    ensures Chained(db')
  {
    hide HasTransactions;
    assert db'.extensions[..|db.extensions|] == db.extensions;
    forall id | id in db'.contracts ensures ChainOf(db', id) {
      assert ChainOf(db, id);
      if id != row.contract && ExtensionsOf(db.extensions, id) != [] {
        TransactionsStay(db.ledger, db'.ledger, db.contracts[id].tenant, id);
      }
    }
  }

  lemma ExtendChained(db: Db, tenant: Id, store: Id, user: Id, dto: ExtendDto, newId: Id, now: int)
    requires Chained(db)
    ensures Chained(ExtendContract(db, tenant, store, user, dto, newId, now).0)
  {
    hide Chained, HasRowId;
    var (db', reply) := ExtendContract(db, tenant, store, user, dto, newId, now);
    if reply.Prolonged? {
      assert db'.ledger[|db.ledger|] == reply.row;
      ExtensionAppended(db, db', db'.extensions[|db.extensions|]);
    }
  }

  /** Which steps leave due dates and extensions alone; `update` refuses a new due date once a transaction exists. */
  lemma OtherStepsChained(db: Db, s: Step)
    requires Sound(db) && Chained(db) && !s.ContractExtend?
    ensures Chained(Apply(db, s).0)
  {
    hide Sound, Chained, Grows, Apply;
    StepGrows(db, s);
    StepKeepsContracts(db, s);
    ChainKept(db, Apply(db, s).0);
  }

  lemma StepKeepsContracts(db: Db, s: Step)
    requires !s.ContractExtend?
    ensures Apply(db, s).0.extensions == db.extensions
    ensures forall id | id in db.contracts :: id in Apply(db, s).0.contracts &&
              (Apply(db, s).0.contracts[id].dueDate == db.contracts[id].dueDate ||
               !HasTransactions(db.ledger, db.contracts[id].tenant, id))
  {
    hide Apply, Enters, HasTransactions;
    StepFramed(db, s);
  }

  /** In every run, manual status changes included, extensions chain up to the current due date. */
  lemma {:induction false} RunChained(db: Db, steps: seq<Step>)
    requires Sound(db) && Chained(db)
    ensures Chained(Run(db, steps))
  {
    hide Sound, Chained, ExtendContract;
    if steps == [] {
    } else {
      var before, s := steps[..|steps| - 1], steps[|steps| - 1];
      RunChained(db, before);
      RunSound(db, before);
      if s.ContractExtend? {
        ExtendChained(Run(db, before), s.tenant, s.store, s.user, s.extend, s.newId, s.now);
      } else {
        OtherStepsChained(Run(db, before), s);
      }
    }
  }

  lemma ExtensionsChainUp(stores: map<Id, Store>, customers: map<Id, Customer>, steps: seq<Step>, id: Id)
    requires id in Run(Initial(stores, customers), steps).contracts
    ensures var db := Run(Initial(stores, customers), steps);
            var es := ExtensionsOf(db.extensions, id);
            Linked(es) && (es != [] ==> es[|es| - 1].newDue == db.contracts[id].dueDate)
  {
    hide Apply, Run, Chained, Sound, Linked;
    var empty := Initial(stores, customers);
    NothingChained(stores, customers);
    RunChained(empty, steps);
    ChainHolds(Run(empty, steps), id);
  }

  lemma NothingChained(stores: map<Id, Store>, customers: map<Id, Customer>)
    ensures Sound(Initial(stores, customers)) && Chained(Initial(stores, customers))
  {
  }

  lemma ChainHolds(db: Db, id: Id)
    requires Chained(db) && id in db.contracts
    ensures ChainOf(db, id)
  {
  }
}
