/** What the append-only ledger adds up to. */
module LedgerConservation {
  import opened Domain
  import opened ContractCodes
  import opened Engine
  import opened Integrity

  /** Requests carry positive amounts, so a negative void row is one that `voidTransaction` wrote. */
  predicate WrittenByVoid(r: LedgerRow) {
    r.kind == Void && r.amount < 0.0
  }

  /** v is the correction `voidTransaction` writes for o. */
  ghost predicate Voids(v: LedgerRow, o: LedgerRow) {
    && v.reference == Some(o.id) && v.amount == -o.amount
    && v.contract == o.contract && v.tenant == o.tenant && v.store == o.store && v.payment == o.payment
    && o.kind != Void && o.kind != Reversal
  }

  /** A row the services may append. */
  ghost predicate Appendable(ledger: seq<LedgerRow>, r: LedgerRow) {
    && !HasRowId(ledger, r.id)
    && if WrittenByVoid(r) then exists j | 0 <= j < |ledger| :: Voids(r, ledger[j]) else r.amount > 0.0
  }

  /** A ledger built by appending such rows. */
  ghost predicate WellKept(ledger: seq<LedgerRow>) {
    ledger == [] ||
    (var front, last := ledger[..|ledger| - 1], ledger[|ledger| - 1];
     WellKept(front) && Appendable(front, last))
  }

  /** The plain sum of a contract's rows. */
  function Net(ledger: seq<LedgerRow>, contract: Id): Money {
    if ledger == [] then 0.0
    else
      var last := ledger[|ledger| - 1];
      Net(ledger[..|ledger| - 1], contract) + if last.contract == contract then last.amount else 0.0
  }

  /** How many corrections of a row `voidTransaction` has written. */
  function VoidCount(ledger: seq<LedgerRow>, id: Id): nat {
    if ledger == [] then 0
    else
      var last := ledger[|ledger| - 1];
      VoidCount(ledger[..|ledger| - 1], id) + if WrittenByVoid(last) && last.reference == Some(id) then 1 else 0
  }

  /** The rows of a contract that are not corrections, each weighed by one minus its corrections in the whole ledger. */
  function Corrected(rows: seq<LedgerRow>, ledger: seq<LedgerRow>, contract: Id): Money {
    if rows == [] then 0.0
    else
      var last := rows[|rows| - 1];
      Corrected(rows[..|rows| - 1], ledger, contract) +
      if last.contract == contract && !WrittenByVoid(last) then Weighed(last.amount, VoidCount(ledger, last.id)) else 0.0
  }

  function Weighed(amount: Money, voids: nat): Money {
    amount * (1.0 - voids as real)
  }

  lemma {:induction false} VoidCountAppend(ledger: seq<LedgerRow>, r: LedgerRow, id: Id)
    ensures VoidCount(ledger + [r], id) ==
            VoidCount(ledger, id) + if WrittenByVoid(r) && r.reference == Some(id) then 1 else 0
  {
    assert (ledger + [r])[..|ledger|] == ledger;
  }

  /** A row that is not there yet has no corrections. */
  lemma {:induction false} NoVoidsOfAbsent(ledger: seq<LedgerRow>, id: Id)
    requires WellKept(ledger) && !HasRowId(ledger, id)
    ensures VoidCount(ledger, id) == 0
  {
    if ledger == [] {
    } else {
      var front, last := ledger[..|ledger| - 1], ledger[|ledger| - 1];
      assert forall j | 0 <= j < |front| :: front[j] == ledger[j];
      NoVoidsOfAbsent(front, id);
      if WrittenByVoid(last) {
        var j :| 0 <= j < |front| && Voids(last, front[j]);
        assert ledger[j].id != id;
      }
    }
  }

  /** Appending a row that is not a correction leaves every weight alone. */
  lemma {:induction false} CorrectedPlainAppend(rows: seq<LedgerRow>, ledger: seq<LedgerRow>, r: LedgerRow,
          contract: Id)
    requires !WrittenByVoid(r)
    ensures Corrected(rows, ledger + [r], contract) == Corrected(rows, ledger, contract)
  {
    if rows == [] {
    } else {
      CorrectedPlainAppend(rows[..|rows| - 1], ledger, r, contract);
      VoidCountAppend(ledger, r, rows[|rows| - 1].id);
    }
  }

  /** Appending a correction takes the amount of the row it corrects off once. */
  lemma {:induction false} CorrectedVoidAppend(rows: seq<LedgerRow>, ledger: seq<LedgerRow>, v: LedgerRow, j: nat,
          contract: Id)
    requires WrittenByVoid(v) && j < |rows| && Voids(v, rows[j]) && UniqueIds(rows)
    ensures Corrected(rows, ledger + [v], contract) ==
            Corrected(rows, ledger, contract) + if v.contract == contract then v.amount else 0.0
  {
    var front, last := rows[..|rows| - 1], rows[|rows| - 1];
    VoidCountAppend(ledger, v, last.id);
    if j == |front| {
      CorrectedVoidElsewhere(front, ledger, v, contract);
      WeighedOnceMore(last.amount, VoidCount(ledger, last.id));
    } else {
      assert rows[j].id != last.id;
      CorrectedVoidAppend(front, ledger, v, j, contract);
    }
  }

  lemma {:induction false} CorrectedVoidElsewhere(rows: seq<LedgerRow>, ledger: seq<LedgerRow>, v: LedgerRow,
          contract: Id)
    requires forall i | 0 <= i < |rows| :: v.reference != Some(rows[i].id)
    ensures Corrected(rows, ledger + [v], contract) == Corrected(rows, ledger, contract)
  {
    if rows == [] {
    } else {
      CorrectedVoidElsewhere(rows[..|rows| - 1], ledger, v, contract);
      VoidCountAppend(ledger, v, rows[|rows| - 1].id);
    }
  }

  lemma WeighedOnceMore(amount: Money, voids: nat)
    ensures Weighed(amount, voids + 1) == Weighed(amount, voids) - amount
  {
    assert (voids + 1) as real == voids as real + 1.0;
    assert amount * (1.0 - (voids as real + 1.0)) == amount * (1.0 - voids as real) - amount;
  }

  lemma {:induction false} WellKeptUnique(ledger: seq<LedgerRow>)
    requires WellKept(ledger)
    ensures UniqueIds(ledger)
  {
    if ledger == [] {
    } else {
      var front := ledger[..|ledger| - 1];
      WellKeptUnique(front);
      assert forall j | 0 <= j < |front| :: front[j] == ledger[j];
    }
  }

  /** Conservation: a contract's net sum is the sum of its uncorrected rows, each taken off once per void. */
  lemma {:induction false} Conservation(ledger: seq<LedgerRow>, contract: Id)
    requires WellKept(ledger)
    ensures Net(ledger, contract) == Corrected(ledger, ledger, contract)
  {
    if ledger == [] {
    } else {
      var front, last := ledger[..|ledger| - 1], ledger[|ledger| - 1];
      assert ledger == front + [last];
      Conservation(front, contract);
      if WrittenByVoid(last) {
        WellKeptUnique(front);
        var j :| 0 <= j < |front| && Voids(last, front[j]);
        CorrectedVoidAppend(front, front, last, j, contract);
      } else {
        CorrectedPlainAppend(front, front, last, contract);
        VoidCountAppend(front, last, last.id);
        NoVoidsOfAbsent(front, last.id);
        assert Weighed(last.amount, 0) == last.amount;
      }
    }
  }

  // ---------------------------------------------------------------- steps and runs

  /** In a well kept ledger a row that is neither void nor reversal has a positive amount. */
  lemma {:induction false} OriginalsArePositive(ledger: seq<LedgerRow>, i: nat)
    requires WellKept(ledger) && i < |ledger| && !WrittenByVoid(ledger[i])
    ensures ledger[i].amount > 0.0
  {
    if i < |ledger| - 1 {
      OriginalsArePositive(ledger[..|ledger| - 1], i);
    }
  }

  /** How one step may extend the ledger. */
  ghost predicate Extends(ledger: seq<LedgerRow>, ledger': seq<LedgerRow>, byVoid: bool) {
    ledger' == ledger ||
    (|ledger'| == |ledger| + 1 && ledger'[..|ledger|] == ledger &&
     Appendable(ledger, ledger'[|ledger|]) && WrittenByVoid(ledger'[|ledger|]) == byVoid)
  }

  lemma VoidExtends(db: Db, tenant: Id, id: Id, user: Id, reason: string, newId: Id, now: int)
    requires WellKept(db.ledger)
    ensures Extends(db.ledger, VoidTransaction(db, tenant, id, user, reason, newId, now).0.ledger, true)
  {
    var (db', reply) := VoidTransaction(db, tenant, id, user, reason, newId, now);
    if reply.Voided? {
      var i := FindTransaction(db.ledger, tenant, id);
      OriginalsArePositive(db.ledger, i);
      assert Voids(reply.row, db.ledger[i]);
    }
  }

  lemma RecordExtends(db: Db, tenant: Id, store: Id, user: Id, dto: RecordDto, newId: Id, now: int)
    requires dto.amount > 0.0
    ensures Extends(db.ledger, RecordTransaction(db, tenant, store, user, dto, newId, now).0.ledger, false)
  {
    hide RedeemedAssets, ReturnedInventory, LinkedAssets;
  }

  lemma ExtendExtends(db: Db, tenant: Id, store: Id, user: Id, dto: ExtendDto, newId: Id, now: int)
    requires dto.interestPaid > 0.0
    ensures Extends(db.ledger, ExtendContract(db, tenant, store, user, dto, newId, now).0.ledger, false)
  {
  }

  /** A step appends at most one row, and a negative void row exactly when the step is a void. */
  lemma StepExtends(db: Db, s: Step)
    requires WellKept(db.ledger)
    ensures Extends(db.ledger, Apply(db, s).0.ledger, s.TransactionVoid?)
  {
    hide WellKept, Extends, RecordTransaction, ExtendContract, VoidTransaction, FindContract, FindAsset, CreateRefusal,
         YearMonth, HasTransactions;
    assert Extends(db.ledger, db.ledger, s.TransactionVoid?) by {
      ExtendsReflexive(db.ledger, s.TransactionVoid?);
    }
    if ValidRequest(s) {
      match s
      case TransactionRecord(t, store, user, dto, newId, now) => RecordExtends(db, t, store, user, dto, newId, now);
      case ContractExtend(t, store, user, dto, newId, now) => ExtendExtends(db, t, store, user, dto, newId, now);
      case TransactionVoid(t, id, user, reason, newId, now) => VoidExtends(db, t, id, user, reason, newId, now);
      case _ =>
    }
  }

  lemma ExtendsReflexive(ledger: seq<LedgerRow>, byVoid: bool)
    ensures Extends(ledger, ledger, byVoid)
  {
  }

  lemma {:induction false} RunWellKept(db: Db, steps: seq<Step>)
    requires WellKept(db.ledger)
    ensures WellKept(Run(db, steps).ledger)
  {
    if steps == [] {
    } else {
      var before := steps[..|steps| - 1];
      RunWellKept(db, before);
      StepExtends(Run(db, before), steps[|steps| - 1]);
      ExtendsWellKept(Run(db, before).ledger, Run(db, steps).ledger, steps[|steps| - 1].TransactionVoid?);
    }
  }

  lemma ExtendsWellKept(ledger: seq<LedgerRow>, ledger': seq<LedgerRow>, byVoid: bool)
    requires WellKept(ledger) && Extends(ledger, ledger', byVoid)
    ensures WellKept(ledger')
  {
  }

  /** In every run from empty tables the ledger is well kept, and so conserves. */
  lemma RunConserves(stores: map<Id, Store>, customers: map<Id, Customer>, steps: seq<Step>, contract: Id)
    ensures var ledger := Run(Initial(stores, customers), steps).ledger;
            WellKept(ledger) && Net(ledger, contract) == Corrected(ledger, ledger, contract)
  {
    RunWellKept(Initial(stores, customers), steps);
    Conservation(Run(Initial(stores, customers), steps).ledger, contract);
  }

  /** A row that `voidTransaction` wrote corrects an earlier row that is no such row, and no such row corrects it. */
  lemma {:induction false} NoVoidIsVoided(ledger: seq<LedgerRow>, i: nat)
    requires WellKept(ledger) && i < |ledger| && WrittenByVoid(ledger[i])
    ensures exists j | 0 <= j < i :: Voids(ledger[i], ledger[j]) && !WrittenByVoid(ledger[j])
    ensures VoidCount(ledger, ledger[i].id) == 0
  {
    var front, last := ledger[..|ledger| - 1], ledger[|ledger| - 1];
    if i < |front| {
      NoVoidIsVoided(front, i);
      var j :| 0 <= j < i && Voids(front[i], front[j]) && !WrittenByVoid(front[j]);
      assert Voids(ledger[i], ledger[j]) && !WrittenByVoid(ledger[j]);
      if WrittenByVoid(last) {
        var k :| 0 <= k < |front| && Voids(last, front[k]);
        WellKeptUnique(ledger);
        assert ledger[k] == front[k] && ledger[k].id == last.reference.value;
        assert k != i;
        assert last.reference != Some(ledger[i].id);
      }
    } else {
      var j :| 0 <= j < |front| && Voids(last, front[j]);
      assert Voids(ledger[i], ledger[j]) && !WrittenByVoid(ledger[j]);
      NoVoidsOfAbsent(front, last.id);
      assert last.reference == Some(ledger[j].id);
      WellKeptUnique(ledger);
    }
  }

  // ---------------------------------------------------------------- voiding at most once

  /** Every transaction is taken off at most once. */
  ghost predicate AtMostOnce(ledger: seq<LedgerRow>) {
    forall id: Id :: VoidCount(ledger, id) <= 1
  }

  /** A void with a fresh key of a transaction the tenant finds and that has been voided before. */
  predicate VoidsAgain(db: Db, s: Step) {
    && s.TransactionVoid?
    && FindTransaction(db.ledger, s.tenant, s.transaction) >= 0
    && VoidCount(db.ledger, s.transaction) > 0
    && !HasRowId(db.ledger, s.newId)
  }

  /** A row that has been corrected is neither void nor reversal. */
  lemma {:induction false} CorrectedIsOriginal(ledger: seq<LedgerRow>, i: nat)
    requires WellKept(ledger) && i < |ledger| && VoidCount(ledger, ledger[i].id) > 0
    ensures ledger[i].kind != Void && ledger[i].kind != Reversal
  {
    var front, last := ledger[..|ledger| - 1], ledger[|ledger| - 1];
    if WrittenByVoid(last) && last.reference == Some(ledger[i].id) {
      var j :| 0 <= j < |front| && Voids(last, front[j]);
      WellKeptUnique(ledger);
      assert ledger[j] == front[j] && j == i;
    } else if i < |front| {
      CorrectedIsOriginal(front, i);
    } else {
      NoVoidsOfAbsent(front, last.id);
    }
  }

  /** What an accepted void does to the counts; a refused one leaves the ledger alone. */
  lemma VoidCounts(db: Db, s: Step, id: Id)
    requires WellKept(db.ledger) && s.TransactionVoid?
    ensures var (db', reply) := Apply(db, s);
            && VoidCount(db'.ledger, id) == VoidCount(db.ledger, id) + (if reply.Voided? && id == s.transaction then 1 else 0)
            && (VoidCount(db.ledger, s.transaction) > 0 ==> (reply.Voided? <==> VoidsAgain(db, s)))
  {
    hide HasRowId;
    var i := FindTransaction(db.ledger, s.tenant, s.transaction);
    var reply := Apply(db, s).1;
    if reply.Voided? {
      OriginalsArePositive(db.ledger, i);
      VoidCountAppend(db.ledger, reply.row, id);
    }
    if i >= 0 && VoidCount(db.ledger, s.transaction) > 0 {
      CorrectedIsOriginal(db.ledger, i);
    }
  }

  /** No other step changes a count. */
  lemma OtherCounts(db: Db, s: Step, id: Id)
    requires WellKept(db.ledger) && !s.TransactionVoid?
    ensures VoidCount(Apply(db, s).0.ledger, id) == VoidCount(db.ledger, id)
  {
    hide Apply, WellKept, Appendable;
    StepExtends(db, s);
    var ledger, ledger' := db.ledger, Apply(db, s).0.ledger;
    if ledger' != ledger {
      assert ledger' == ledger + [ledger'[|ledger|]];
      VoidCountAppend(ledger, ledger'[|ledger|], id);
    }
  }

  /** A step takes some transaction off more than once exactly when one already is, or when it voids one again. */
  lemma StepAtMostOnce(db: Db, s: Step)
    requires WellKept(db.ledger)
    ensures AtMostOnce(Apply(db, s).0.ledger) <==> AtMostOnce(db.ledger) && !VoidsAgain(db, s)
  {
    hide Apply, WellKept, VoidCount, VoidsAgain;
    var ledger' := Apply(db, s).0.ledger;
    if s.TransactionVoid? {
      forall id ensures VoidCount(db.ledger, id) <= VoidCount(ledger', id) {
        VoidCounts(db, s, id);
      }
      VoidCounts(db, s, s.transaction);
      if AtMostOnce(db.ledger) && !VoidsAgain(db, s) {
        forall id ensures VoidCount(ledger', id) <= 1 {
          VoidCounts(db, s, id);
        }
      }
      VoidsAgainCounted(db, s);
    } else {
      forall id ensures VoidCount(ledger', id) == VoidCount(db.ledger, id) {
        OtherCounts(db, s, id);
      }
      OnlyVoids(db, s);
    }
  }

  lemma VoidsAgainCounted(db: Db, s: Step)
    ensures VoidsAgain(db, s) ==> VoidCount(db.ledger, s.transaction) > 0
  {
  }

  lemma OnlyVoids(db: Db, s: Step)
    requires !s.TransactionVoid?
    ensures !VoidsAgain(db, s)
  {
  }

  lemma NetAppend(ledger: seq<LedgerRow>, r: LedgerRow, contract: Id)
    ensures Net(ledger + [r], contract) == Net(ledger, contract) + if r.contract == contract then r.amount else 0.0
  {
    assert (ledger + [r])[..|ledger|] == ledger;
  }

  lemma FindStays(ledger: seq<LedgerRow>, r: LedgerRow, tenant: Id, id: Id)
    requires FindTransaction(ledger, tenant, id) >= 0
    ensures FindTransaction(ledger + [r], tenant, id) == FindTransaction(ledger, tenant, id)
  {
    assert (ledger + [r])[..|ledger|] == ledger;
  }

  lemma KeyStaysFree(ledger: seq<LedgerRow>, r: LedgerRow, id: Id)
    requires !HasRowId(ledger, id) && r.id != id
    ensures !HasRowId(ledger + [r], id)
  {
    assert forall j | 0 <= j < |ledger| :: (ledger + [r])[j] == ledger[j];
  }

  /** What a void of a transaction that can be voided does: counted once more, and taken off the contract's net sum. */
  lemma VoidTakesOff(db: Db, tenant: Id, id: Id, user: Id, reason: string, newId: Id, now: int)
    requires WellKept(db.ledger) && FindTransaction(db.ledger, tenant, id) >= 0 && !HasRowId(db.ledger, newId)
    requires var o := db.ledger[FindTransaction(db.ledger, tenant, id)]; o.kind != Void && o.kind != Reversal
    ensures var (db', reply) := VoidTransaction(db, tenant, id, user, reason, newId, now);
            var o := db.ledger[FindTransaction(db.ledger, tenant, id)];
            && reply.Voided? && reply.row.id == newId && db' == db.(ledger := db.ledger + [reply.row])
            && VoidCount(db'.ledger, id) == VoidCount(db.ledger, id) + 1
            && Net(db'.ledger, o.contract) == Net(db.ledger, o.contract) - o.amount
  {
    hide HasRowId, FindTransaction, VoidCount, Net;
    var i := FindTransaction(db.ledger, tenant, id);
    var reply := VoidTransaction(db, tenant, id, user, reason, newId, now).1;
    OriginalsArePositive(db.ledger, i);
    VoidCountAppend(db.ledger, reply.row, id);
    NetAppend(db.ledger, reply.row, db.ledger[i].contract);
  }

  /**
   Nothing stops a second void of the same transaction: both are written and the net sum of
   the contract falls by twice the amount.
   */
  lemma VoidingTwice(db: Db, tenant: Id, id: Id, user: Id, reason: string, firstId: Id, secondId: Id, now: int)
    requires WellKept(db.ledger) && FindTransaction(db.ledger, tenant, id) >= 0
    requires var o := db.ledger[FindTransaction(db.ledger, tenant, id)]; o.kind != Void && o.kind != Reversal
    requires !HasRowId(db.ledger, firstId) && !HasRowId(db.ledger, secondId) && firstId != secondId
    ensures var (once, first) := VoidTransaction(db, tenant, id, user, reason, firstId, now);
            var (twice, second) := VoidTransaction(once, tenant, id, user, reason, secondId, now);
            var o := db.ledger[FindTransaction(db.ledger, tenant, id)];
            && first.Voided? && second.Voided? && VoidCount(twice.ledger, id) == VoidCount(db.ledger, id) + 2
            && Net(twice.ledger, o.contract) == Net(db.ledger, o.contract) - 2.0 * o.amount
  {
    hide VoidTransaction, HasRowId, FindTransaction, VoidCount, Net, WellKept;
    var (once, first) := VoidTransaction(db, tenant, id, user, reason, firstId, now);
    VoidTakesOff(db, tenant, id, user, reason, firstId, now);
    VoidKeeps(db, tenant, id, user, reason, firstId, now);
    FindStays(db.ledger, first.row, tenant, id);
    KeyStaysFree(db.ledger, first.row, secondId);
    VoidTakesOff(once, tenant, id, user, reason, secondId, now);
  }

  lemma VoidKeeps(db: Db, tenant: Id, id: Id, user: Id, reason: string, newId: Id, now: int)
    requires WellKept(db.ledger)
    ensures WellKept(VoidTransaction(db, tenant, id, user, reason, newId, now).0.ledger)
  {
    hide VoidTransaction;
    VoidExtends(db, tenant, id, user, reason, newId, now);
    ExtendsWellKept(db.ledger, VoidTransaction(db, tenant, id, user, reason, newId, now).0.ledger, true);
  }

  ghost predicate NoSecondVoids(db: Db, steps: seq<Step>) {
    forall i | 0 <= i < |steps| :: !VoidsAgain(Run(db, steps[..i]), steps[i])
  }

  /** A run takes every transaction off at most once exactly when none of its steps voids one again. */
  lemma {:induction false} RunAtMostOnce(db: Db, steps: seq<Step>)
    requires WellKept(db.ledger) && AtMostOnce(db.ledger)
    ensures AtMostOnce(Run(db, steps).ledger) <==> NoSecondVoids(db, steps)
  {
    hide Apply, WellKept, VoidsAgain, AtMostOnce, NoSecondVoids;
    if steps == [] {
      assert NoSecondVoids(db, steps) by {
        NoStepsNoVoids(db);
      }
    } else {
      var before, last := steps[..|steps| - 1], steps[|steps| - 1];
      RunAtMostOnce(db, before);
      RunWellKept(db, before);
      StepAtMostOnce(Run(db, before), last);
      assert steps == before + [last];
      SecondVoidsAppend(db, before, last);
    }
  }

  lemma NoStepsNoVoids(db: Db)
    ensures NoSecondVoids(db, [])
  {
  }

  lemma SecondVoidsAppend(db: Db, before: seq<Step>, last: Step)
    ensures NoSecondVoids(db, before + [last]) <==> NoSecondVoids(db, before) && !VoidsAgain(Run(db, before), last)
  {
    hide VoidsAgain, Run;
    var steps := before + [last];
    assert steps[..|before|] == before && steps[|before|] == last;
    assert forall i | 0 <= i < |before| :: steps[..i] == before[..i] && steps[i] == before[i];
  }

  /** The rows of a contract that were neither written by a void nor voided. */
  function Standing(rows: seq<LedgerRow>, ledger: seq<LedgerRow>, contract: Id): Money {
    if rows == [] then 0.0
    else
      var last := rows[|rows| - 1];
      Standing(rows[..|rows| - 1], ledger, contract) +
      if last.contract == contract && !WrittenByVoid(last) && VoidCount(ledger, last.id) == 0 then last.amount else 0.0
  }

  lemma {:induction false} CorrectedIsStanding(rows: seq<LedgerRow>, ledger: seq<LedgerRow>, contract: Id)
    requires AtMostOnce(ledger)
    ensures Corrected(rows, ledger, contract) == Standing(rows, ledger, contract)
  {
    hide VoidCount;
    if rows == [] {
    } else {
      var last := rows[|rows| - 1];
      CorrectedIsStanding(rows[..|rows| - 1], ledger, contract);
      assert VoidCount(ledger, last.id) <= 1;
      assert Weighed(last.amount, 0) == last.amount && Weighed(last.amount, 1) == 0.0;
    }
  }

  /** In every run without second voids, a contract's net sum is the sum of the rows that still stand. */
  lemma RunNetStands(stores: map<Id, Store>, customers: map<Id, Customer>, steps: seq<Step>, contract: Id)
    requires NoSecondVoids(Initial(stores, customers), steps)
    ensures var ledger := Run(Initial(stores, customers), steps).ledger;
            Net(ledger, contract) == Standing(ledger, ledger, contract)
  {
    hide Apply, VoidsAgain;
    RunConserves(stores, customers, steps, contract);
    RunAtMostOnce(Initial(stores, customers), steps);
    var ledger := Run(Initial(stores, customers), steps).ledger;
    CorrectedIsStanding(ledger, ledger, contract);
  }
}
