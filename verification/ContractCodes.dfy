/** Contract codes: `<store code>-<year month>-<sequence padded to five>`. */
module ContractCodes {
  import opened Text

  /** A wall-clock reading: the instant, and the local calendar month (counted from 0) it falls in. */
  datatype Clock = Clock(ms: int, year: nat, month: nat) {
    predicate Valid() {
      1000 <= year <= 9999 && month < 12
    }
  }

  /** The six-digit year and month that selects a sequence row. */
  function YearMonth(clock: Clock): (ym: string)
    requires clock.Valid()
  {
    Decimal(clock.year) + PadStart(Decimal(clock.month + 1), 2)
  }

  lemma YearMonthHasSixDigits(clock: Clock)
    requires clock.Valid()
    ensures |YearMonth(clock)| == 6 && AllDigits(YearMonth(clock))
  {
    var y := clock.year;
    assert Decimal(y / 100) == Decimal(y / 1000) + [DigitChar(y / 100 % 10)];
    assert Decimal(y / 10) == Decimal(y / 100) + [DigitChar(y / 10 % 10)];
    assert Decimal(y) == Decimal(y / 10) + [DigitChar(y % 10)];
    assert |Decimal(clock.month + 1)| <= 2;
  }

  function Print(storeCode: string, yearMonth: string, number: nat): string {
    storeCode + "-" + yearMonth + "-" + PadStart(Decimal(number), 5)
  }

  datatype Parsed = NotACode | Parts(storeCode: string, yearMonth: string, number: nat)

  /** The position of the last dash, or -1. */
  function LastDash(s: string): (i: int)
    ensures -1 <= i < |s|
    ensures i >= 0 ==> s[i] == '-'
    ensures forall j | i < j < |s| :: s[j] != '-'
  {
    if s == [] then -1
    else if s[|s| - 1] == '-' then |s| - 1
    else LastDash(s[..|s| - 1])
  }

  predicate Digits(s: string)
    ensures Digits(s) <==> AllDigits(s)
  {
    forall i | 0 <= i < |s| :: IsDigit(s[i])
  }

  /** Reading a code from the right: the number after the last dash, the month, then the store code. */
  function Parse(code: string): Parsed {
    var dash := LastDash(code);
    if dash < 7 || code[dash - 7] != '-' || !Digits(code[dash + 1..]) then NotACode
    else Parts(code[..dash - 7], code[dash - 6..dash], ParseDigits(code[dash + 1..]))
  }

  /** The pieces of three parts with dashes between them, the middle one of six characters and the last without a dash. */
  lemma CodeParts(a: string, b: string, c: string)
    requires |b| == 6 && '-' !in c
    ensures var code := a + "-" + b + "-" + c;
            var dash := |a| + 7;
            && LastDash(code) == dash && code[dash - 7] == '-'
            && code[..dash - 7] == a && code[dash - 6..dash] == b && code[dash + 1..] == c
  {
    var code := a + "-" + b + "-" + c;
    var dash := |a| + 7;
    assert code[dash] == '-' && code[dash - 7] == '-';
    assert code[..dash - 7] == a && code[dash - 6..dash] == b && code[dash + 1..] == c;
    assert forall j | dash < j < |code| :: code[j] == c[j - dash - 1];
  }

  /** Printing is undone by reading from the right, whatever dashes the store code has. */
  lemma ParsePrint(storeCode: string, yearMonth: string, number: nat)
    requires |yearMonth| == 6
    ensures Parse(Print(storeCode, yearMonth, number)) == Parts(storeCode, yearMonth, number)
  {
    hide LastDash, PadStart, Decimal, ParseDigits;
    var digits := PadStart(Decimal(number), 5);
    assert '-' !in digits;
    CodeParts(storeCode, yearMonth, digits);
    ParsePadded(number, 5);
  }

  /** Two codes coincide exactly when store code, month and number all do. */
  lemma PrintInjective(s0: string, m0: string, n0: nat, s1: string, m1: string, n1: nat)
    requires |m0| == |m1| == 6
    ensures Print(s0, m0, n0) == Print(s1, m1, n1) <==> s0 == s1 && m0 == m1 && n0 == n1
  {
    ParsePrint(s0, m0, n0);
    ParsePrint(s1, m1, n1);
  }

  /** The month key reads as year and month, January being the first. */
  lemma YearMonthReads(clock: Clock)
    requires clock.Valid()
    ensures ParseDigits(YearMonth(clock)) == 100 * clock.year + clock.month + 1
  {
    var y, m := Decimal(clock.year), PadStart(Decimal(clock.month + 1), 2);
    assert |Decimal(clock.month + 1)| <= 2;
    ParsePadded(clock.month + 1, 2);
    ParseDecimal(clock.year);
    ParseConcat(y, m[0], m[1]);
    assert m == [m[0], m[1]];
  }

  lemma ParseConcat(s: string, a: char, b: char)
    requires AllDigits(s) && IsDigit(a) && IsDigit(b)
    ensures AllDigits(s + [a, b]) && AllDigits([a, b])
    ensures ParseDigits(s + [a, b]) == 100 * ParseDigits(s) + ParseDigits([a, b])
  {
    ParseAppend(s, a);
    ParseAppend(s + [a], b);
    assert s + [a] + [b] == s + [a, b];
    ParseAppend([], a);
    assert [] + [a] == [a];
    ParseAppend([a], b);
    assert [a] + [b] == [a, b];
  }

  lemma ParseAppend(s: string, c: char)
    requires AllDigits(s) && IsDigit(c)
    ensures AllDigits(s + [c]) && ParseDigits(s + [c]) == ParseDigits(s) * 10 + (c as int - '0' as int)
  {
    assert (s + [c])[..|s|] == s;
  }

  /** What a code looks like. */
  lemma FirstCodeOfJanuary()
    ensures Print("HN-1", YearMonth(Clock(0, 2026, 0)), 1) == "HN-1-202601-00001"
  {
    SpelledYear();
    SpelledPadding();
    hide Decimal, PadStart;
    assert YearMonth(Clock(0, 2026, 0)) == "2026" + "01";
    assert "2026" + "01" == "202601";
  }

  lemma SpelledYear()
    ensures Decimal(2026) == "2026"
  {
    assert Decimal(20) == "20" && Decimal(202) == "202";
  }

  lemma SpelledPadding()
    ensures PadStart(Decimal(1), 2) == "01" && PadStart(Decimal(1), 5) == "00001"
  {
    assert Decimal(1) == "1";
    assert Zeros(1) == "0" && Zeros(4) == "0000";
  }
}
