/** What the parties have been answered fixes every contract: its row can be read off the accepted requests of a run. */
module Agreements {
  import opened Domain
  import opened Engine
  import opened Frames
  import opened Outcomes
  import opened Reports

  /** A contract as its accepted requests describe it. */
  datatype Agreement = Agreement(
    tenant: Id, creator: Id, terms: CreateContractDto, dueDate: int, notes: Option<string>, status: ContractStatus)

  /** The agreement about a contract after one more request and its reply. */
  function Heard(before: Option<Agreement>, s: Step, reply: Reply, id: Id): Option<Agreement> {
    match s
    case ContractCreate(t, user, dto, newId, _) =>
      if reply.ContractIs? && newId == id then Some(Agreement(t, user, dto, dto.dueDate, dto.notes, Active)) else before
    case ContractUpdate(_, contract, notes, dueDate, _) =>
      if reply.ContractIs? && contract == id && before.Some? then
        Some(before.value.(notes := if notes.Some? then notes.value else before.value.notes,
                           dueDate := if dueDate.Some? then dueDate.value else before.value.dueDate))
      else before
    case ContractStatusSet(_, contract, status, _, _) =>
      if reply.ContractIs? && contract == id && before.Some? then Some(before.value.(status := status)) else before
    case TransactionRecord(_, _, _, dto, _, _) =>
      if reply.Recorded? && dto.contract == id && dto.kind == Settlement && before.Some?
      then Some(before.value.(status := Settled)) else before
    case ContractExtend(_, _, _, dto, _, _) =>
      if reply.Prolonged? && dto.contract == id && before.Some?
      then Some(before.value.(dueDate := dto.newDue, status := Extended)) else before
    case _ => before
  }

  function Agreed(db: Db, steps: seq<Step>, id: Id): Option<Agreement> {
    if steps == [] then None
    else
      var before, last := steps[..|steps| - 1], steps[|steps| - 1];
      Heard(Agreed(db, before, id), last, Apply(Run(db, before), last).1, id)
  }

  ghost predicate Honours(c: Contract, a: Agreement) {
    && c.tenant == a.tenant && c.createdBy == a.creator
    && c.store == a.terms.store && c.customer == a.terms.customer && c.principal == a.terms.principal
    && c.rate == a.terms.rate && c.interestType == a.terms.interestType && c.startDate == a.terms.startDate
    && c.dueDate == a.dueDate && c.notes == a.notes && c.status == a.status
  }

  /** The contract is there exactly when one was agreed, and then as agreed. */
  ghost predicate AsAgreed(db: Db, id: Id, agreed: Option<Agreement>) {
    && (id in db.contracts <==> agreed.Some?)
    && (agreed.Some? ==> Honours(db.contracts[id], agreed.value))
  }

  lemma StepAsAgreed(db: Db, s: Step, id: Id, agreed: Option<Agreement>)
    requires AsAgreed(db, id, agreed)
    ensures AsAgreed(Apply(db, s).0, id, Heard(agreed, s, Apply(db, s).1, id))
  {
    hide Apply, Writes, MovesContracts, Enters, FreshRow, FitToPledge, NonePawned, Entered;
    match s
    case ContractCreate(_, _, _, _, _) =>
      CreateAnswer(db, s);
      if Apply(db, s).1.ContractIs? {
        CreateWrites(db, s);
      }
    case ContractUpdate(_, _, _, _, _) =>
      UpdateAnswer(db, s);
      if Apply(db, s).1.ContractIs? {
        UpdateWrites(db, s);
      }
    case ContractStatusSet(_, _, _, _, _) => StatusOutcome(db, s);
    case TransactionRecord(_, _, _, _, _, _) =>
      RecordAnswer(db, s);
      if Apply(db, s).1.Recorded? {
        RecordWrites(db, s);
        if s.record.kind == Settlement {
          SettlementWrites(db, s);
        }
      }
    case ContractExtend(_, _, _, _, _, _) =>
      ExtendAnswer(db, s);
      if Apply(db, s).1.Prolonged? {
        ExtendWrites(db, s);
      }
    case _ =>
      ContractsUntouched(db, s);
  }

  lemma ContractsUntouched(db: Db, s: Step)
    requires s.AssetCreate? || s.AssetUpdate? || s.AssetStatusSet? || s.CodeGenerate? || s.TransactionVoid?
    ensures Apply(db, s).0.contracts == db.contracts
  {
    hide Apply, MovesContracts, Enters;
    StepFramed(db, s);
  }

  lemma {:induction false} RunAsAgreed(db: Db, steps: seq<Step>, id: Id)
    requires id !in db.contracts
    ensures AsAgreed(Run(db, steps), id, Agreed(db, steps, id))
  {
    hide Apply, AsAgreed, Heard;
    if steps == [] {
      assert AsAgreed(db, id, None) by {
        NothingAgreed(db, id);
      }
    } else {
      var before, last := steps[..|steps| - 1], steps[|steps| - 1];
      RunAsAgreed(db, before, id);
      StepAsAgreed(Run(db, before), last, id, Agreed(db, before, id));
    }
  }

  lemma NothingAgreed(db: Db, id: Id)
    requires id !in db.contracts
    ensures AsAgreed(db, id, None)
  {
  }

  /**
   In every run from empty tables a contract exists exactly when a creation under its key was accepted; its terms,
   creator and owner are those of that request, its due date that of the last accepted extension, dated
   update or creation, its notes and its status those last accepted.
   */
  lemma ContractsAreAsAgreed(stores: map<Id, Store>, customers: map<Id, Customer>, steps: seq<Step>, id: Id)
    ensures var db, agreed := Run(Initial(stores, customers), steps), Agreed(Initial(stores, customers), steps, id);
            && (id in db.contracts <==> agreed.Some?)
            && (agreed.Some? ==> Honours(db.contracts[id], agreed.value))
  {
    hide Apply, Run, Agreed, Honours;
    RunAsAgreed(Initial(stores, customers), steps, id);
  }

  // ---------------------------------------------------------------- the dashboard

  /** An accepted creation raises the tenant's outstanding principal by exactly what was asked for, and no other tenant's. */
  lemma CreationRaisesOutstanding(db: Db, s: Step, tenant: Id)
    requires s.ContractCreate? && Apply(db, s).1.ContractIs?
    ensures TotalOutstandingPrincipal(Apply(db, s).0, tenant) ==
            TotalOutstandingPrincipal(db, tenant) + if tenant == s.tenant then s.create.principal else 0.0
  {
    hide Apply, TotalOutstandingPrincipal;
    CreateWrites(db, s);
    OutstandingMoves(db, Apply(db, s).0, tenant, s.newId);
  }

  /** A settlement, and already an extension, takes the principal of an active contract off the dashboard. */
  lemma ClosingLowersOutstanding(db: Db, s: Step)
    requires (s.TransactionRecord? && s.record.kind == Settlement && Apply(db, s).1.Recorded?) ||
             (s.ContractExtend? && Apply(db, s).1.Prolonged?)
    ensures var id := if s.TransactionRecord? then s.record.contract else s.extend.contract;
            && id in db.contracts
            && TotalOutstandingPrincipal(Apply(db, s).0, s.tenant) == TotalOutstandingPrincipal(db, s.tenant) -
                 if db.contracts[id].status == Active then db.contracts[id].principal else 0.0
  {
    hide Apply, TotalOutstandingPrincipal, FreshRow;
    if s.TransactionRecord? {
      RecordAnswer(db, s);
      SettlementWrites(db, s);
      OutstandingMoves(db, Apply(db, s).0, s.tenant, s.record.contract);
    } else {
      ExtendAnswer(db, s);
      ExtendWrites(db, s);
      OutstandingMoves(db, Apply(db, s).0, s.tenant, s.extend.contract);
    }
  }
}
