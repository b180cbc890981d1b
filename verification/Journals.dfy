/** Journals as bills, invoices and credit notes post them: the manual posting
    of app/services/general_ledger.py and the bill legs of
    app/domain/inventory/accounting.py. */
module Journals {
  import opened Base

  /** Account codes are only ever compared; the fixed ones are numbered here. */
  type Code = nat

  const ACCOUNTS_PAYABLE: Code := 1
  const ACCOUNTS_RECEIVABLE: Code := 2
  const GRNI: Code := 3
  const VAT_RECEIVABLE: Code := 4
  const WHT_PAYABLE: Code := 5

  datatype AccountType = Asset | Liability | Equity | Revenue | Expense

  type Chart = map<Code, AccountType>

  datatype Line = Line(account: Code, debit: int, credit: int)

  datatype JournalError =
    | TooFewLines | PeriodLocked | UnknownAccount | NegativeAmount | NotSingleSided | Unbalanced | InvalidAmount

  function TotalDebit(lines: seq<Line>): int {
    if lines == [] then 0 else TotalDebit(lines[..|lines| - 1]) + lines[|lines| - 1].debit
  }

  function TotalCredit(lines: seq<Line>): int {
    if lines == [] then 0 else TotalCredit(lines[..|lines| - 1]) + lines[|lines| - 1].credit
  }

  /** Debits less credits on one account. */
  function Balance(lines: seq<Line>, account: Code): int {
    if lines == [] then 0
    else
      var last := lines[|lines| - 1];
      Balance(lines[..|lines| - 1], account) + if last.account == account then last.debit - last.credit else 0
  }

  predicate IsSingleSided(l: Line) {
    l.debit >= 0 && l.credit >= 0 && (l.debit > 0) != (l.credit > 0)
  }

  /** A well-formed journal: at least two one-sided lines, in balance. */
  predicate IsBalanced(lines: seq<Line>) {
    && |lines| >= 2
    && (forall i :: 0 <= i < |lines| ==> IsSingleSided(lines[i]))
    && TotalDebit(lines) == TotalCredit(lines)
  }

  /** What manual posting accepts: a well-formed journal on known accounts, in an
      open period. */
  predicate IsPostable(lines: seq<Line>, chart: Chart, periodOpen: bool) {
    IsBalanced(lines) && periodOpen && forall i :: 0 <= i < |lines| ==> lines[i].account in chart
  }

  /** post_manual_journal_entry: checks everything before writing anything. */
  method PostManualJournalEntry(lines: seq<Line>, chart: Chart, periodOpen: bool)
    returns (r: Result<seq<Line>, JournalError>)
    ensures r.Ok? <==> IsPostable(lines, chart, periodOpen)
    ensures r.Ok? <==>
              && |lines| >= 2 && periodOpen
              && (forall i :: 0 <= i < |lines| ==>
                    && lines[i].account in chart
                    && ((lines[i].debit > 0 && lines[i].credit == 0) || (lines[i].credit > 0 && lines[i].debit == 0)))
              && TotalDebit(lines) == TotalCredit(lines)
    ensures r.Ok? ==> r.value == lines
  {
    if |lines| < 2 {
      return Err(TooFewLines);
    }
    if !periodOpen {
      return Err(PeriodLocked);
    }
    var totalDebit, totalCredit := 0, 0;
    for i := 0 to |lines|
      invariant totalDebit == TotalDebit(lines[..i]) && totalCredit == TotalCredit(lines[..i])
      invariant forall j :: 0 <= j < i ==> lines[j].account in chart && IsSingleSided(lines[j])
    {
      var line := lines[i];
      assert lines[..i + 1][..i] == lines[..i];
      if line.account !in chart {
        return Err(UnknownAccount);
      }
      if line.debit < 0 || line.credit < 0 {
        return Err(NegativeAmount);
      }
      if (line.debit > 0) == (line.credit > 0) {
        return Err(NotSingleSided);
      }
      totalDebit, totalCredit := totalDebit + line.debit, totalCredit + line.credit;
    }
    assert lines[..|lines|] == lines;
    if totalDebit != totalCredit {
      return Err(Unbalanced);
    }
    return Ok(lines);
  }

  // ----- Bill legs: signed amounts, debit positive -----

  datatype Leg = Leg(account: Code, amount: int)

  function Nonzero(legs: seq<Leg>): (r: seq<Leg>)
    ensures forall i :: 0 <= i < |r| ==> r[i].amount != 0
    ensures forall i :: 0 <= i < |r| ==> r[i] in legs
  {
    if legs == [] then []
    else Nonzero(legs[..|legs| - 1]) + if legs[|legs| - 1].amount != 0 then [legs[|legs| - 1]] else []
  }

  function LegsOfBill(amount: int, vat: int, wht: int, expense: Code, cleared: int): seq<Leg> {
    [Leg(GRNI, cleared), Leg(expense, amount - cleared), Leg(VAT_RECEIVABLE, vat), Leg(WHT_PAYABLE, -wht),
     Leg(ACCOUNTS_PAYABLE, -(amount + vat - wht))]
  }

  /** bill_legs. */
  function BillLegs(amount: int, vat: int, wht: int, expense: Code, cleared: int): Result<seq<Leg>, JournalError> {
    if amount <= 0 then Err(InvalidAmount)
    else if vat < 0 || wht < 0 || cleared < 0 then Err(NegativeAmount)
    else Ok(Nonzero(LegsOfBill(amount, vat, wht, expense, cleared)))
  }

  function Max0(n: int): int {
    if n > 0 then n else 0
  }

  /** The legs as journal lines. */
  function LegLines(legs: seq<Leg>): (lines: seq<Line>)
    ensures |lines| == |legs|
    ensures forall i :: 0 <= i < |legs| ==>
        lines[i] == Line(legs[i].account, Max0(legs[i].amount), Max0(-legs[i].amount))
  {
    seq(|legs|, i requires 0 <= i < |legs| => Line(legs[i].account, Max0(legs[i].amount), Max0(-legs[i].amount)))
  }

  function SumLegs(legs: seq<Leg>): int {
    if legs == [] then 0 else SumLegs(legs[..|legs| - 1]) + legs[|legs| - 1].amount
  }

  function SumLegsOn(legs: seq<Leg>, account: Code): int {
    if legs == [] then 0
    else
      var last := legs[|legs| - 1];
      SumLegsOn(legs[..|legs| - 1], account) + if last.account == account then last.amount else 0
  }

  lemma {:induction false} NonzeroKeepsSums(legs: seq<Leg>, account: Code)
    ensures SumLegs(Nonzero(legs)) == SumLegs(legs) && SumLegsOn(Nonzero(legs), account) == SumLegsOn(legs, account)
  {
    if legs != [] {
      var front, last := legs[..|legs| - 1], legs[|legs| - 1];
      NonzeroKeepsSums(front, account);
      assert (Nonzero(front) + [last])[..|Nonzero(front)|] == Nonzero(front);
      assert Nonzero(front) + [] == Nonzero(front);
    }
  }

  lemma {:induction false} LinesCarryTheLegs(legs: seq<Leg>, account: Code)
    ensures TotalDebit(LegLines(legs)) - TotalCredit(LegLines(legs)) == SumLegs(legs)
    ensures Balance(LegLines(legs), account) == SumLegsOn(legs, account)
  {
    if legs != [] {
      LinesCarryTheLegs(legs[..|legs| - 1], account);
      assert LegLines(legs)[..|legs| - 1] == LegLines(legs[..|legs| - 1]);
    }
  }

  lemma FiveLegs(legs: seq<Leg>, account: Code)
    requires |legs| == 5
    ensures SumLegs(legs) == legs[0].amount + legs[1].amount + legs[2].amount + legs[3].amount + legs[4].amount
    ensures SumLegsOn(legs, account) == (if legs[0].account == account then legs[0].amount else 0)
      + (if legs[1].account == account then legs[1].amount else 0)
      + (if legs[2].account == account then legs[2].amount else 0)
      + (if legs[3].account == account then legs[3].amount else 0)
      + (if legs[4].account == account then legs[4].amount else 0)
  {
    for k := 0 to 5
      invariant SumLegs(legs[..k]) == (if k > 0 then legs[0].amount else 0) + (if k > 1 then legs[1].amount else 0)
        + (if k > 2 then legs[2].amount else 0) + (if k > 3 then legs[3].amount else 0)
            + (if k > 4 then legs[4].amount else 0)
      invariant SumLegsOn(legs[..k], account) == (if k > 0 && legs[0].account == account then legs[0].amount else 0)
        + (if k > 1 && legs[1].account == account then legs[1].amount else 0)
        + (if k > 2 && legs[2].account == account then legs[2].amount else 0)
        + (if k > 3 && legs[3].account == account then legs[3].amount else 0)
        + (if k > 4 && legs[4].account == account then legs[4].amount else 0)
    {
      assert legs[..k + 1][..k] == legs[..k];
    }
    assert legs[..5] == legs;
  }

  lemma BillLegsBalance(amount: int, vat: int, wht: int, expense: Code, cleared: int)
    requires BillLegs(amount, vat, wht, expense, cleared).Ok?
    ensures var legs := BillLegs(amount, vat, wht, expense, cleared).value;
            |legs| >= 2 && SumLegs(legs) == 0
  {
    var all := LegsOfBill(amount, vat, wht, expense, cleared);
    var first := if cleared > 0 then 0 else 1;
    NonzeroKeepsSums(all, ACCOUNTS_PAYABLE);
    FiveLegs(all, ACCOUNTS_PAYABLE);
    NonzeroKeepsMember(all, first);
    AtLeastTwoLegs(Nonzero(all), all[first]);
  }

  /** A bill's journal is always accepted once its accounts are in the chart and
      the period is open: at least two lines, each one-sided, in balance. */
  lemma BillJournalIsPostable(amount: int, vat: int, wht: int, expense: Code, cleared: int, chart: Chart,
      periodOpen: bool)
    requires BillLegs(amount, vat, wht, expense, cleared).Ok?
    ensures var lines := LegLines(BillLegs(amount, vat, wht, expense, cleared).value);
            IsPostable(lines, chart, periodOpen) <==>
              periodOpen && forall i :: 0 <= i < |lines| ==> lines[i].account in chart
  {
    var legs := BillLegs(amount, vat, wht, expense, cleared).value;
    BillLegsBalance(amount, vat, wht, expense, cleared);
    LinesCarryTheLegs(legs, ACCOUNTS_PAYABLE);
    assert IsBalanced(LegLines(legs)) by {
      hide TotalDebit, TotalCredit, SumLegs;
    }
  }

  lemma {:induction false} NonzeroKeepsMember(legs: seq<Leg>, i: nat)
    requires i < |legs| && legs[i].amount != 0
    ensures legs[i] in Nonzero(legs)
  {
    if i < |legs| - 1 {
      NonzeroKeepsMember(legs[..|legs| - 1], i);
    }
  }

  /** Non-zero legs that sum to zero are not a single leg. */
  lemma AtLeastTwoLegs(legs: seq<Leg>, member: Leg)
    requires SumLegs(legs) == 0 && (forall i :: 0 <= i < |legs| ==> legs[i].amount != 0)
    ensures member in legs ==> |legs| >= 2
  {
    if |legs| == 1 {
      SumOfOneLeg(legs);
    }
  }

  lemma SumOfOneLeg(legs: seq<Leg>)
    requires |legs| == 1
    ensures SumLegs(legs) == legs[0].amount
  {
    assert legs[..0] == [];
  }

  /** What a bill's journal does to each account: the payable takes the net
      amount, GRNI gives back what was cleared, and the expense account takes
      the rest, even where it is one of the others. */
  lemma BillJournalEffect(amount: int, vat: int, wht: int, expense: Code, cleared: int, account: Code)
    requires BillLegs(amount, vat, wht, expense, cleared).Ok?
    ensures Balance(LegLines(BillLegs(amount, vat, wht, expense, cleared).value), account)
            == (if account == expense then amount - cleared else 0)
             + (if account == GRNI then cleared else if account == VAT_RECEIVABLE then vat
                else if account == WHT_PAYABLE then -wht
                else if account == ACCOUNTS_PAYABLE then -(amount + vat - wht) else 0)
  {
    var all := LegsOfBill(amount, vat, wht, expense, cleared);
    NonzeroKeepsSums(all, account);
    LinesCarryTheLegs(Nonzero(all), account);
    FiveLegs(all, account);
  }

  lemma TwoLines(a: Line, b: Line, account: Code)
    ensures TotalDebit([a, b]) == a.debit + b.debit && TotalCredit([a, b]) == a.credit + b.credit
    ensures Balance([a, b], account) == (if a.account == account then a.debit - a.credit else 0)
                                      + (if b.account == account then b.debit - b.credit else 0)
  {
    var ab, none: seq<Line> := [a, b], [];
    assert ab[..1] == [a] && [a][..0] == none;
    assert TotalDebit([a]) == TotalDebit(none) + a.debit && TotalCredit([a]) == TotalCredit(none) + a.credit;
    assert Balance([a], account) == Balance(none, account) + if a.account == account then a.debit - a.credit else 0;
  }
}
