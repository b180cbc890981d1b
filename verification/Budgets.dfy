/** Budgets against actual ledger activity (app/services/budgets.py). */
module Budgets {
  import opened Base
  import opened Journals

  /** Seconds in a day: created_at is a moment, a period is whole days. */
  const DAY: int := 86_400

  datatype Entry = Entry(account: Code, debit: int, credit: int, createdAt: int)

  datatype BudgetLine = BudgetLine(account: Code, amount: int)

  datatype BudgetError = InvalidPeriod | NoLines | DuplicateAccount | AmountNotPositive | NotBudgetable | AccountMissing

  // ----- What a budget may hold -----

  predicate IsBudgetable(chart: Chart, account: Code) {
    account in chart && (chart[account].Revenue? || chart[account].Expense?)
  }

  predicate AreValidLines(lines: seq<BudgetLine>, chart: Chart) {
    && lines != []
    && (forall i, j :: 0 <= i < j < |lines| ==> lines[i].account != lines[j].account)
    && (forall i :: 0 <= i < |lines| ==> lines[i].amount > 0 && IsBudgetable(chart, lines[i].account))
  }

  /** _validate_lines. */
  method ValidateLines(lines: seq<BudgetLine>, chart: Chart) returns (r: Result<(), BudgetError>)
    ensures r.Ok? <==> AreValidLines(lines, chart)
    ensures r.Ok? <==>
              && |lines| > 0
              && (forall i, j :: 0 <= i < j < |lines| ==> lines[i].account != lines[j].account)
              && (forall i :: 0 <= i < |lines| ==>
                    && lines[i].amount > 0 && lines[i].account in chart
                    && chart[lines[i].account] in {Revenue, Expense})
  {
    if lines == [] {
      return Err(NoLines);
    }
    var seenCodes: set<Code> := {};
    for i := 0 to |lines|
      invariant forall code :: code in seenCodes <==> exists j :: 0 <= j < i && lines[j].account == code
      invariant forall j, k :: 0 <= j < k < i ==> lines[j].account != lines[k].account
      invariant forall j :: 0 <= j < i ==> lines[j].amount > 0 && IsBudgetable(chart, lines[j].account)
    {
      if lines[i].account in seenCodes {
        return Err(DuplicateAccount);
      }
      seenCodes := seenCodes + {lines[i].account};
      if lines[i].amount <= 0 {
        return Err(AmountNotPositive);
      }
      if !IsBudgetable(chart, lines[i].account) {
        return Err(NotBudgetable);
      }
    }
    return Ok(());
  }

  // ----- Actuals -----

  /** From the first moment of `start` to the last of `end`. */
  predicate InPeriod(e: Entry, start: int, end: int) {
    start * DAY <= e.createdAt < (end + 1) * DAY
  }

  function Select(entries: seq<Entry>, start: int, end: int): seq<Entry> {
    if entries == [] then []
    else
      var last := entries[|entries| - 1];
      Select(entries[..|entries| - 1], start, end) + if InPeriod(last, start, end) then [last] else []
  }

  /** The specification: what one account earned or cost in a period, signed so
      that revenue and expense both read positive. */
  function Actual(entries: seq<Entry>, account: Code, kind: AccountType, start: int, end: int): int {
    if entries == [] then 0
    else
      var last := entries[|entries| - 1];
      Actual(entries[..|entries| - 1], account, kind, start, end)
      + if last.account != account || !InPeriod(last, start, end) then 0
        else if kind.Revenue? then last.credit - last.debit
        else last.debit - last.credit
  }

  datatype LineOut = LineOut(account: Code, kind: AccountType, budgeted: int, actual: int, variance: int)

  datatype Report = Report(lines: seq<LineOut>, totalBudgeted: int, totalActual: int, totalVariance: int)

  function TotalBudgeted(lines: seq<LineOut>): int {
    if lines == [] then 0 else TotalBudgeted(lines[..|lines| - 1]) + lines[|lines| - 1].budgeted
  }

  function TotalActual(lines: seq<LineOut>): int {
    if lines == [] then 0 else TotalActual(lines[..|lines| - 1]) + lines[|lines| - 1].actual
  }

  function TotalVariance(lines: seq<LineOut>): int {
    if lines == [] then 0 else TotalVariance(lines[..|lines| - 1]) + lines[|lines| - 1].variance
  }

  /** The (debit, credit) pair the accumulator holds for an account. */
  function TotalsOf(totals: map<Code, (int, int)>, account: Code): (int, int) {
    if account in totals then totals[account] else (0, 0)
  }

  class Budget {
    var periodStart: int
    var periodEnd: int
    var lines: seq<BudgetLine>

    constructor (periodStart: int, periodEnd: int, lines: seq<BudgetLine>)
      ensures this.periodStart == periodStart && this.periodEnd == periodEnd && this.lines == lines
    {
      this.periodStart, this.periodEnd, this.lines := periodStart, periodEnd, lines;
    }

    /** update_budget: all lines are replaced, or, on a refusal, nothing is. */
    method UpdateBudget(chart: Chart, start: int, end: int, newLines: seq<BudgetLine>)
      returns (r: Result<(), BudgetError>)
      modifies this
      ensures r.Ok? <==> start <= end && AreValidLines(newLines, chart)
      ensures r.Ok? ==> periodStart == start && periodEnd == end && lines == newLines
      ensures r.Err? ==> unchanged(this)
    {
      if end < start {
        return Err(InvalidPeriod);
      }
      r := ValidateLines(newLines, chart);
      if r.Err? {
        return;
      }
      periodStart, periodEnd, lines := start, end, newLines;
    }

    /** budget_vs_actual: one pass over the period's entries into a dictionary,
        then one over the lines. */
    method BudgetVsActual(entries: seq<Entry>, chart: Chart) returns (r: Result<Report, BudgetError>)
      ensures r.Ok? <==> forall i :: 0 <= i < |lines| ==> lines[i].account in chart
      ensures r.Ok? ==> |r.value.lines| == |lines|
      ensures r.Ok? ==> forall i :: 0 <= i < |lines| ==>
                var (line, out) := (lines[i], r.value.lines[i]);
                && out.account == line.account && out.budgeted == line.amount
                && out.kind == chart[line.account]
                && out.actual == Actual(entries, line.account, chart[line.account], periodStart, periodEnd)
                && out.variance == out.actual - out.budgeted
      ensures r.Ok? ==> r.value.totalBudgeted == TotalBudgeted(r.value.lines)
      ensures r.Ok? ==> r.value.totalActual == TotalActual(r.value.lines)
      ensures r.Ok? ==> r.value.totalVariance == TotalVariance(r.value.lines)
    {
      var rows := Select(entries, periodStart, periodEnd);
      var totals: map<Code, (int, int)> := map[];
      for i := 0 to |rows|
        invariant forall account :: TotalsOf(totals, account) == Sums(rows[..i], account)
      {
        assert rows[..i + 1][..i] == rows[..i];
        var (debit, credit) := TotalsOf(totals, rows[i].account);
        totals := totals[rows[i].account := (debit + rows[i].debit, credit + rows[i].credit)];
      }
      assert rows[..|rows|] == rows;
      var outs: seq<LineOut> := [];
      var totalBudgeted, totalActual := 0, 0;
      for i := 0 to |lines|
        invariant |outs| == i
        invariant forall j :: 0 <= j < i ==> IsLineOut(lines[j], outs[j], entries, chart, periodStart, periodEnd)
        invariant totalBudgeted == TotalBudgeted(outs) && totalActual == TotalActual(outs)
        invariant totalActual - totalBudgeted == TotalVariance(outs)
      {
        var line := lines[i];
        if line.account !in chart {
          return Err(AccountMissing);
        }
        var (debit, credit) := TotalsOf(totals, line.account);
        var actual := if chart[line.account].Revenue? then credit - debit else debit - credit;
        SumsAreTheActual(entries, line.account, chart[line.account], periodStart, periodEnd);
        var out := LineOut(line.account, chart[line.account], line.amount, actual, actual - line.amount);
        assert (outs + [out])[..i] == outs;
        outs := outs + [out];
        totalBudgeted, totalActual := totalBudgeted + line.amount, totalActual + actual;
      }
      return Ok(Report(outs, totalBudgeted, totalActual, totalActual - totalBudgeted));
    }
  }

  predicate IsLineOut(line: BudgetLine, out: LineOut, entries: seq<Entry>, chart: Chart, start: int, end: int) {
    && line.account in chart && out.account == line.account && out.budgeted == line.amount
        && out.kind == chart[line.account]
    && out.actual == Actual(entries, line.account, chart[line.account], start, end)
    && out.variance == out.actual - out.budgeted
  }

  /** Debits and credits of one account over rows. */
  function Sums(rows: seq<Entry>, account: Code): (int, int) {
    if rows == [] then (0, 0)
    else
      var (debit, credit) := Sums(rows[..|rows| - 1], account);
      var last := rows[|rows| - 1];
      if last.account == account then (debit + last.debit, credit + last.credit) else (debit, credit)
  }

  /** The accumulated pair, signed by account type, is the filtered signed sum. */
  lemma {:induction false} SumsAreTheActual(entries: seq<Entry>, account: Code, kind: AccountType, start: int, end: int)
    ensures var sums := Sums(Select(entries, start, end), account);
            (if kind.Revenue? then sums.1 - sums.0 else sums.0 - sums.1) == Actual(entries, account, kind, start, end)
  {
    if entries != [] {
      var front, last := entries[..|entries| - 1], entries[|entries| - 1];
      SumsAreTheActual(front, account, kind, start, end);
      var selected := Select(front, start, end);
      assert (selected + [last])[..|selected|] == selected;
      assert selected + [] == selected;
    }
  }

  /** Two periods that meet without a gap or an overlap add up to their union:
      no moment is counted twice or missed at the boundary. */
  lemma {:induction false} AdjacentPeriodsAddUp(entries: seq<Entry>, account: Code, kind: AccountType,
      start: int, middle: int, end: int)
    requires start <= middle + 1 && middle <= end
    ensures Actual(entries, account, kind, start, middle) + Actual(entries, account, kind, middle + 1, end)
            == Actual(entries, account, kind, start, end)
  {
    if entries != [] {
      AdjacentPeriodsAddUp(entries[..|entries| - 1], account, kind, start, middle, end);
    }
  }

  /** The order the database returns entries in does not matter: only which
      entries there are, and how often. */
  lemma {:induction false} ActualIgnoresOrder(a: seq<Entry>, b: seq<Entry>, account: Code, kind: AccountType,
      start: int, end: int)
    requires multiset(a) == multiset(b)
    ensures Actual(a, account, kind, start, end) == Actual(b, account, kind, start, end)
    decreases |a|
  {
    hide Actual;
    if a == [] {
      assert |multiset(b)| == |b|;
    } else {
      var last := a[|a| - 1];
      assert last in multiset(b);
      var i :| 0 <= i < |b| && b[i] == last;
      MultisetRemoveAt(a, |a| - 1);
      MultisetRemoveAt(b, i);
      ActualIgnoresOrder(a[..|a| - 1] + a[|a|..], b[..i] + b[i + 1..], account, kind, start, end);
      ActualRemoveAt(a, |a| - 1, account, kind, start, end);
      ActualRemoveAt(b, i, account, kind, start, end);
    }
  }

  /** What one entry counts for: on its account and on a day of the period, its
      credit less its debit for revenue, the other way round for the rest. */
  lemma ActualOfOne(e: Entry, account: Code, kind: AccountType, start: int, end: int)
    ensures Actual([e], account, kind, start, end)
            == if e.account == account && start <= e.createdAt / DAY <= end
               then (match kind case Revenue => e.credit - e.debit case _ => e.debit - e.credit) else 0
  {
    assert [e][..0] == [];
  }

  /** And each entry counts by itself. */
  lemma {:induction false} ActualAddsUp(a: seq<Entry>, b: seq<Entry>, account: Code, kind: AccountType,
      start: int, end: int)
    ensures Actual(a + b, account, kind, start, end)
            == Actual(a, account, kind, start, end) + Actual(b, account, kind, start, end)
  {
    if b == [] {
      assert a + b == a;
    } else {
      assert (a + b)[..|a + b| - 1] == a + b[..|b| - 1];
      ActualAddsUp(a, b[..|b| - 1], account, kind, start, end);
    }
  }

  lemma MultisetRemoveAt(b: seq<Entry>, i: nat)
    requires i < |b|
    ensures multiset(b[..i] + b[i + 1..]) == multiset(b) - multiset{b[i]}
  {
    assert b == b[..i] + [b[i]] + b[i + 1..];
    assert multiset(b) == multiset(b[..i]) + multiset{b[i]} + multiset(b[i + 1..]);
  }

  lemma {:induction false} ActualRemoveAt(b: seq<Entry>, i: nat, account: Code, kind: AccountType, start: int, end: int)
    requires i < |b|
    ensures Actual(b, account, kind, start, end)
            == Actual(b[..i] + b[i + 1..], account, kind, start, end) + Actual([b[i]], account, kind, start, end)
  {
    assert [b[i]][..0] == [];
    if i == |b| - 1 {
      assert b[..i] + b[i + 1..] == b[..|b| - 1];
    } else {
      ActualRemoveAt(b[..|b| - 1], i, account, kind, start, end);
      var rest := b[..i] + b[i + 1..];
      assert rest[..|rest| - 1] == b[..|b| - 1][..i] + b[..|b| - 1][i + 1..];
      assert rest[|rest| - 1] == b[|b| - 1];
    }
  }
}
