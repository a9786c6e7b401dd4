/** The settlement quote, along runs and over time. */
module Quotes {
  import opened Domain
  import opened Engine
  import opened Integrity
  import opened Interest
  import opened LedgerConservation

  datatype Quote =
    | NoContract
    | Quote(principal: Money, interestDue: Money, feeDue: Money, totalDue: Money, alreadyPaid: Money, remaining: Money)

  predicate CountsAsPaid(r: LedgerRow, tenant: Id, contract: Id) {
    r.contract == contract && r.tenant == tenant && (r.kind == InterestCollection || r.kind == FeeCollection)
  }

  /** SUM(amount) over the interest and fee rows of a contract. */
  function AlreadyPaid(ledger: seq<LedgerRow>, tenant: Id, contract: Id): Money {
    if ledger == [] then 0.0
    else
      var last := ledger[|ledger| - 1];
      AlreadyPaid(ledger[..|ledger| - 1], tenant, contract) + if CountsAsPaid(last, tenant, contract) then last.amount else 0.0
  }

  function AtLeastZero(x: Money): Money {
    if x < 0.0 then 0.0 else x
  }

  /** TransactionsService.calculateSettlement, with the interest that `calculateInterest` computes. */
  function CalculateSettlement(db: Db, tenant: Id, id: Id, to: int): Quote {
    if !HasContract(db, tenant, id) then NoContract
    else
      var c := db.contracts[id];
      var interest := CalculateInterest(c.principal, c.rate, c.interestType, c.startDate, to);
      var paid := AlreadyPaid(db.ledger, tenant, id);
      Quote(c.principal, interest, 0.0, c.principal + interest, paid, AtLeastZero(c.principal + interest - paid))
  }

  lemma {:induction false} PaidGrows(ledger: seq<LedgerRow>, ledger': seq<LedgerRow>, tenant: Id, contract: Id)
    requires WellKept(ledger') && ledger <= ledger'
    ensures AlreadyPaid(ledger, tenant, contract) <= AlreadyPaid(ledger', tenant, contract)
  {
    if |ledger| < |ledger'| {
      var n := |ledger'| - 1;
      assert ledger <= ledger'[..n];
      PaidGrows(ledger, ledger'[..n], tenant, contract);
      if !WrittenByVoid(ledger'[n]) {
        OriginalsArePositive(ledger', n);
      }
    } else {
      assert ledger == ledger';
    }
  }

  /**
   For a fixed date, along every run a contract keeps its quote, and what remains never rises and is never
   negative.
   */
  lemma QuoteNeverRises(db: Db, steps: seq<Step>, tenant: Id, id: Id, to: int)
    requires WellKept(db.ledger) && HasContract(db, tenant, id)
    ensures var before := CalculateSettlement(db, tenant, id, to);
            var after := CalculateSettlement(Run(db, steps), tenant, id, to);
            && after.Quote? && 0.0 <= after.remaining <= before.remaining
            && after.totalDue == before.totalDue && after.alreadyPaid >= before.alreadyPaid
  {
    RunGrows(db, steps);
    RunWellKept(db, steps);
    PaidGrows(db.ledger, Run(db, steps).ledger, tenant, id);
  }

  /** For a fixed ledger, what remains never falls as the date moves later. */
  lemma QuoteGrowsWithTime(db: Db, tenant: Id, id: Id, to: int, later: int)
    requires Sound(db) && HasContract(db, tenant, id) && to <= later
    ensures CalculateSettlement(db, tenant, id, to).remaining <= CalculateSettlement(db, tenant, id, later).remaining
    ensures CalculateSettlement(db, tenant, id, to).totalDue >= db.contracts[id].principal
  {
    var c := db.contracts[id];
    assert ContractOk(db, id);
    InterestMonotone(c.principal, c.rate, c.interestType, c.startDate, to, later);
  }

  /**
   An accepted interest or fee payment lowers what remains by its amount, down to zero; no other transaction
   moves it.
   */
  lemma PaymentLowersQuote(db: Db, tenant: Id, store: Id, user: Id, dto: RecordDto, newId: Id, now: int, to: int)
    requires RecordTransaction(db, tenant, store, user, dto, newId, now).1.Recorded?
    ensures var db' := RecordTransaction(db, tenant, store, user, dto, newId, now).0;
            var before, after := CalculateSettlement(db, tenant, dto.contract, to), CalculateSettlement(db', tenant, dto.contract, to);
            before.Quote? && after.Quote? &&
            after.remaining ==
              if dto.kind == InterestCollection || dto.kind == FeeCollection
              then AtLeastZero(before.totalDue - before.alreadyPaid - dto.amount)
              else before.remaining
  {
    hide RecordTransaction, CalculateInterest, AlreadyPaid, Grows;
    var (db', reply) := RecordTransaction(db, tenant, store, user, dto, newId, now);
    RecordEnters(db, tenant, store, user, dto, newId, now);
    TermsStay(db, db', dto.contract);
    PaidAppend(db.ledger, reply.row, tenant, dto.contract);
  }

  lemma RecordEnters(db: Db, tenant: Id, store: Id, user: Id, dto: RecordDto, newId: Id, now: int)
    requires RecordTransaction(db, tenant, store, user, dto, newId, now).1.Recorded?
    ensures var (db', reply) := RecordTransaction(db, tenant, store, user, dto, newId, now);
            && HasContract(db, tenant, dto.contract) && Grows(db, db')
            && db'.ledger == db.ledger + [reply.row]
            && reply.row.kind == dto.kind && reply.row.amount == dto.amount
            && reply.row.contract == dto.contract && reply.row.tenant == tenant
  {
    hide RedeemedAssets, ReturnedInventory, LinkedAssets, HasRowId, Grows;
    RecordGrows(db, tenant, store, user, dto, newId, now);
  }

  lemma TermsStay(db: Db, db': Db, id: Id)
    requires Grows(db, db') && id in db.contracts
    ensures id in db'.contracts && SameTerms(db.contracts[id], db'.contracts[id])
  {
  }

  lemma PaidAppend(ledger: seq<LedgerRow>, r: LedgerRow, tenant: Id, contract: Id)
    ensures AlreadyPaid(ledger + [r], tenant, contract) ==
            AlreadyPaid(ledger, tenant, contract) + if CountsAsPaid(r, tenant, contract) then r.amount else 0.0
  {
    assert (ledger + [r])[..|ledger|] == ledger;
  }

  // ---------------------------------------------------------------- what a quote says

  const DAY := 86_400_000
  const THIRTY_DAYS := 2_592_000_000

  /** n is the number of spans of this length, in milliseconds, that have started. */
  ghost predicate Started(elapsed: int, span: int, n: int) {
    if elapsed <= 0 then n == 0 else (n - 1) * span < elapsed <= n * span
  }

  lemma StartedOnce(elapsed: int, span: int, n: int, m: int)
    requires span > 0 && Started(elapsed, span, n) && Started(elapsed, span, m)
    ensures n == m
  {
    if n < m {
      Scale(n, m - 1, span);
    } else if m < n {
      Scale(m, n - 1, span);
    }
  }

  lemma DaysStarted(start: int, to: int)
    ensures Started(to - start, DAY, Days(start, to))
  {
    var days := CeilDiv(to - start, MS_PER_DAY);
    if to <= start {
      CeilMonotone(to - start, 0, MS_PER_DAY);
      CeilUnique(0, MS_PER_DAY, 0);
    } else {
      CeilDivPositive(to - start, MS_PER_DAY);
    }
  }

  lemma MonthsStarted(start: int, to: int)
    ensures Started(to - start, THIRTY_DAYS, Months(start, to))
  {
    hide Months;
    assert 30 * MS_PER_DAY == THIRTY_DAYS;
    MonthsSingleCeiling(start, to);
    if to <= start {
      CeilMonotone(to - start, 0, THIRTY_DAYS);
      CeilUnique(0, THIRTY_DAYS, 0);
    } else {
      CeilDivPositive(to - start, THIRTY_DAYS);
    }
  }

  /** The days, thirty-day spans or terms a contract is charged for. */
  ghost predicate Charged(c: Contract, to: int, units: int) {
    match c.interestType
    case Daily => Started(to - c.startDate, DAY, units)
    case Monthly => Started(to - c.startDate, THIRTY_DAYS, units)
    case Term => units == 1
  }

  /**
   A quote adds up: the total is principal, interest and fees, the remaining amount what is not paid of it, never
   below zero; the interest is rate percent of the principal for each started day, started thirty days or term.
   */
  lemma QuoteAddsUp(db: Db, tenant: Id, id: Id, to: int)
    ensures var q := CalculateSettlement(db, tenant, id, to);
            && (q.Quote? <==> id in db.contracts && db.contracts[id].tenant == tenant)
            && (q.Quote? ==>
                && q.principal == db.contracts[id].principal && q.feeDue == 0.0
                && q.totalDue == q.principal + q.interestDue + q.feeDue
                && q.remaining >= 0.0 && q.remaining >= q.totalDue - q.alreadyPaid
                && (q.remaining == 0.0 || q.remaining == q.totalDue - q.alreadyPaid))
    ensures var q := CalculateSettlement(db, tenant, id, to);
            q.Quote? ==>
              && (exists units: int :: Charged(db.contracts[id], to, units))
              && forall units: int | Charged(db.contracts[id], to, units) ::
                   q.interestDue == db.contracts[id].principal * (db.contracts[id].rate / 100.0) * units as real
  {
    hide AlreadyPaid, Days, Months, Started, CeilDiv;
    if HasContract(db, tenant, id) {
      var c := db.contracts[id];
      DaysStarted(c.startDate, to);
      MonthsStarted(c.startDate, to);
      var n := match c.interestType case Daily => Days(c.startDate, to) case Monthly => Months(c.startDate, to) case Term => 1;
      assert Charged(c, to, n);
      forall units: int | Charged(c, to, units) ensures units == n {
        if c.interestType != Term {
          StartedOnce(to - c.startDate, if c.interestType == Daily then DAY else THIRTY_DAYS, units, n);
        }
      }
      assert c.principal * (c.rate / 100.0) * 1.0 == c.principal * (c.rate / 100.0);
    }
  }

  /** The amounts of the ledger rows at these positions. */
  ghost function Total(ledger: seq<LedgerRow>, at: set<nat>): Money
    requires forall i | i in at :: i < |ledger|
  {
    if at == {} then 0.0
    else
      var i :| i in at;
      ledger[i].amount + Total(ledger, at - {i})
  }

  lemma {:induction false} TotalTakesOut(ledger: seq<LedgerRow>, at: set<nat>, i: nat)
    requires i in at && forall j | j in at :: j < |ledger|
    ensures Total(ledger, at) == ledger[i].amount + Total(ledger, at - {i})
  {
    var first :| first in at && Total(ledger, at) == ledger[first].amount + Total(ledger, at - {first});
    if first != i {
      TotalTakesOut(ledger, at - {first}, i);
      TotalTakesOut(ledger, at - {i}, first);
      assert at - {first} - {i} == at - {i} - {first};
    }
  }

  lemma {:induction false} TotalOfFront(ledger: seq<LedgerRow>, n: nat, at: set<nat>)
    requires n <= |ledger| && forall i | i in at :: i < n
    ensures Total(ledger, at) == Total(ledger[..n], at)
    decreases at
  {
    if at == {} {
    } else {
      var i :| i in at;
      TotalTakesOut(ledger, at, i);
      TotalTakesOut(ledger[..n], at, i);
      TotalOfFront(ledger, n, at - {i});
    }
  }

  /** The positions of the interest and fee rows of a contract. */
  function Payments(ledger: seq<LedgerRow>, tenant: Id, contract: Id): set<nat> {
    set i: nat | i < |ledger| && ledger[i].contract == contract && ledger[i].tenant == tenant &&
                 ledger[i].kind in {InterestCollection, FeeCollection}
  }

  /** What is already paid is the total of exactly the interest and fee rows of the tenant's contract. */
  lemma {:induction false} PaidIsTotal(ledger: seq<LedgerRow>, tenant: Id, contract: Id)
    ensures AlreadyPaid(ledger, tenant, contract) == Total(ledger, Payments(ledger, tenant, contract))
  {
    if ledger == [] {
    } else {
      var n := |ledger| - 1;
      var front := ledger[..n];
      var paid := Payments(ledger, tenant, contract);
      PaidIsTotal(front, tenant, contract);
      TotalOfFront(ledger, n, Payments(front, tenant, contract));
      assert paid - {n} == Payments(front, tenant, contract);
      if n in paid {
        TotalTakesOut(ledger, paid, n);
      } else {
        assert paid == Payments(front, tenant, contract);
      }
    }
  }
}
