/** Interest by the day, by the started month of thirty days, or once per term. */
module Interest {
  import opened Domain

  const MS_PER_DAY := 1000 * 60 * 60 * 24

  /** The quotient rounded up. */
  function CeilDiv(a: int, b: int): (r: int)
    requires b > 0
    ensures (r - 1) * b < a <= r * b
  {
    -((-a) / b)
  }

  function Days(start: int, to: int): nat {
    var days := CeilDiv(to - start, MS_PER_DAY);
    if days < 0 then 0 else days
  }

  function Months(start: int, to: int): nat {
    CeilDivPositive(Days(start, to), 30);
    CeilDiv(Days(start, to), 30)
  }

  lemma CeilDivPositive(a: nat, b: int)
    requires b > 0
    ensures CeilDiv(a, b) >= 0
  {
    if CeilDiv(a, b) < 0 {
      Scale(CeilDiv(a, b), -1, b);
    }
  }

  /** What one day, month or term costs. */
  function UnitCharge(principal: Money, rate: Money): Money {
    principal * (rate / 100.0)
  }

  function Units(interestType: InterestType, start: int, to: int): nat {
    match interestType
    case Daily => Days(start, to)
    case Monthly => Months(start, to)
    case Term => 1
  }

  /** ContractsService.calculateInterest */
  function CalculateInterest(principal: Money, rate: Money, interestType: InterestType, start: int, to: int): Money {
    match interestType
    case Daily => principal * (rate / 100.0) * Days(start, to) as real
    case Monthly => principal * (rate / 100.0) * Months(start, to) as real
    case Term => principal * (rate / 100.0)
  }

  // ---------------------------------------------------------------- rounding

  lemma Scale(x: int, y: int, b: int)
    requires x <= y && b > 0
    ensures x * b <= y * b
  {
  }

  /** The ceiling is the only multiple count that fits. */
  lemma CeilUnique(a: int, b: int, r: int)
    requires b > 0 && (r - 1) * b < a <= r * b
    ensures CeilDiv(a, b) == r
  {
    var c := CeilDiv(a, b);
    if c < r {
      Scale(c, r - 1, b);
    } else if r < c {
      Scale(r, c - 1, b);
    }
  }

  lemma CeilMonotone(a: int, a': int, b: int)
    requires b > 0 && a <= a'
    ensures CeilDiv(a, b) <= CeilDiv(a', b)
  {
    var c, c' := CeilDiv(a, b), CeilDiv(a', b);
    if c > c' {
      Scale(c', c - 1, b);
    }
  }

  /** Rounding up twice is rounding up once. */
  lemma CeilOfCeil(a: int, b: int, k: int)
    requires b > 0 && k > 0
    ensures k * b > 0
    ensures CeilDiv(CeilDiv(a, b), k) == CeilDiv(a, k * b)
  {
    var q := CeilDiv(a, b);
    var r := CeilDiv(q, k);
    Scale(q, r * k, b);
    Scale((r - 1) * k, q - 1, b);
    Product(r, k, b);
    Product(r - 1, k, b);
    PositiveProduct(k, b);
    CeilUnique(a, k * b, r);
  }

  lemma Product(x: int, k: int, b: int)
    ensures x * k * b == x * (k * b)
  {
  }

  lemma PositiveProduct(k: int, b: int)
    requires k > 0 && b > 0
    ensures k * b > 0
  {
  }

  /** A span split in two rounds up to at least as much, and at most one more. */
  lemma CeilSplit(x: int, y: int, b: int)
    requires b > 0
    ensures CeilDiv(x + y, b) <= CeilDiv(x, b) + CeilDiv(y, b) <= CeilDiv(x + y, b) + 1
  {
    var p, q, s := CeilDiv(x, b), CeilDiv(y, b), CeilDiv(x + y, b);
    assert (p + q) * b == p * b + q * b;
    assert (p + q - 2) * b == (p - 1) * b + (q - 1) * b;
    if s > p + q {
      Scale(p + q, s - 1, b);
    }
    if p + q > s + 1 {
      Scale(s, p + q - 2, b);
    }
  }

  /** Months counted from rounded-up days are started thirty-day spans of the exact time. */
  lemma MonthsSingleCeiling(start: int, to: int)
    ensures var single := CeilDiv(to - start, 30 * MS_PER_DAY);
            Months(start, to) == if single < 0 then 0 else single
  {
    var q := CeilDiv(to - start, MS_PER_DAY);
    CeilOfCeil(to - start, MS_PER_DAY, 30);
    if q < 0 {
      CeilMonotone(q, 0, 30);
      CeilUnique(0, 30, 0);
    } else {
      CeilDivPositive(q, 30);
    }
  }

  // ---------------------------------------------------------------- splitting a period

  /** Units charged over two adjoining periods: at least those of the whole, at most one more. */
  lemma UnitsSplit(interestType: InterestType, a: int, b: int, c: int)
    requires a <= b <= c
    ensures Units(interestType, a, c) <= Units(interestType, a, b) + Units(interestType, b, c) <= Units(interestType, a, c) + 1
  {
    match interestType
    case Daily =>
      SpanSplit(b - a, c - b, MS_PER_DAY);
    case Monthly =>
      MonthsSingleCeiling(a, c);
      MonthsSingleCeiling(a, b);
      MonthsSingleCeiling(b, c);
      SpanSplit(b - a, c - b, 30 * MS_PER_DAY);
    case Term =>
  }

  lemma SpanSplit(x: nat, y: nat, b: int)
    requires b > 0
    ensures CeilDiv(x, b) >= 0 && CeilDiv(y, b) >= 0 && CeilDiv(x + y, b) >= 0
    ensures CeilDiv(x + y, b) <= CeilDiv(x, b) + CeilDiv(y, b) <= CeilDiv(x + y, b) + 1
  {
    CeilDivPositive(x, b);
    CeilDivPositive(y, b);
    CeilDivPositive(x + y, b);
    CeilSplit(x, y, b);
  }

  lemma InterestIsUnits(principal: Money, rate: Money, interestType: InterestType, start: int, to: int)
    ensures CalculateInterest(principal, rate, interestType, start, to) ==
            UnitCharge(principal, rate) * Units(interestType, start, to) as real
  {
  }

  lemma ScaleMoney(unit: Money, x: real, y: real)
    requires unit >= 0.0 && x <= y
    ensures unit * x <= unit * y
  {
  }

  lemma ChargePositive(principal: Money, rate: Money)
    requires principal >= 0.0 && rate >= 0.0
    ensures UnitCharge(principal, rate) >= 0.0
  {
    ScaleMoney(principal, 0.0, rate / 100.0);
  }

  /** Charging in two parts never costs less than in one, and at most one unit charge more. */
  lemma InterestSplit(principal: Money, rate: Money, interestType: InterestType, a: int, b: int, c: int)
    requires principal >= 0.0 && rate >= 0.0 && a <= b <= c
    ensures var whole := CalculateInterest(principal, rate, interestType, a, c);
            var parts := CalculateInterest(principal, rate, interestType, a, b) +
                         CalculateInterest(principal, rate, interestType, b, c);
            whole <= parts <= whole + UnitCharge(principal, rate)
  {
    hide CalculateInterest, UnitCharge, Units;
    var unit := UnitCharge(principal, rate);
    InterestIsUnits(principal, rate, interestType, a, c);
    InterestIsUnits(principal, rate, interestType, a, b);
    InterestIsUnits(principal, rate, interestType, b, c);
    UnitsSplit(interestType, a, b, c);
    ChargePositive(principal, rate);
    var w, p, q := Units(interestType, a, c) as real, Units(interestType, a, b) as real, Units(interestType, b, c) as real;
    ScaleMoney(unit, w, p + q);
    ScaleMoney(unit, p + q, w + 1.0);
    Distribute(unit, p, q);
    Distribute(unit, w, 1.0);
  }

  lemma Distribute(unit: Money, x: real, y: real)
    ensures unit * (x + y) == unit * x + unit * y
  {
  }

  /** Interest never falls as the date moves later. */
  lemma InterestMonotone(principal: Money, rate: Money, interestType: InterestType, start: int, to: int, later: int)
    requires principal >= 0.0 && rate >= 0.0 && to <= later
    ensures 0.0 <= CalculateInterest(principal, rate, interestType, start, to) <=
            CalculateInterest(principal, rate, interestType, start, later)
  {
    hide CalculateInterest, UnitCharge, Units;
    var unit, u, v := UnitCharge(principal, rate), Units(interestType, start, to), Units(interestType, start, later);
    InterestIsUnits(principal, rate, interestType, start, to);
    InterestIsUnits(principal, rate, interestType, start, later);
    ChargePositive(principal, rate);
    UnitsMonotone(interestType, start, to, later);
    ScaleMoney(unit, 0.0, u as real);
    ScaleMoney(unit, u as real, v as real);
  }

  lemma UnitsMonotone(interestType: InterestType, start: int, to: int, later: int)
    requires to <= later
    ensures Units(interestType, start, to) <= Units(interestType, start, later)
  {
    CeilMonotone(to - start, later - start, MS_PER_DAY);
    CeilMonotone(Days(start, to), Days(start, later), 30);
  }
}
