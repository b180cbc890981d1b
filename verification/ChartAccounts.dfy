/** Seeding an organisation's chart of accounts (app/services/chart_accounts.py). */
module ChartAccounts {
  import opened Base

  /** The codes the seeds spell out. */
  const SPELLINGS: seq<string> := [
    "cash", "employee_loan_receivable", "payroll_expense_gross", "payroll_expense_employer_pension",
    "payroll_expense_nsitf", "contractor_expense", "paye_payable", "pension_payable", "nhf_payable",
    "nsitf_payable", "wht_payable", "vat_receivable", "net_pay_payable", "accounts_payable",
    "accounts_receivable", "revenue", "fixed_assets", "accumulated_depreciation", "depreciation_expense",
    "disposal_gain_loss", "revaluation_surplus", "revaluation_loss", "benefit_deductions_recovered",
    "union_dues_payable"]

  type OtherString = s: string | s !in SPELLINGS witness ""

  /** An account code is a string: one spelled out, or any other. */
  datatype Code =
    | Cash | EmployeeLoanReceivable | PayrollExpenseGross | PayrollExpenseEmployerPension | PayrollExpenseNsitf
    | ContractorExpense | PayePayable | PensionPayable | NhfPayable | NsitfPayable | WhtPayable | VatReceivable
    | NetPayPayable | AccountsPayable | AccountsReceivable | RevenueAccount | FixedAssets | AccumulatedDepreciation
    | DepreciationExpense | DisposalGainLoss | RevaluationSurplus | RevaluationLoss
    | BenefitDeductionsRecovered | UnionDuesPayable
    | Named(s: OtherString)

  /** A code's place among the spellings, which begin with DEFAULT_ACCOUNTS. */
  function Rank(code: Code): nat {
    match code
    case Cash => 0 case EmployeeLoanReceivable => 1 case PayrollExpenseGross => 2
    case PayrollExpenseEmployerPension => 3 case PayrollExpenseNsitf => 4 case ContractorExpense => 5
    case PayePayable => 6 case PensionPayable => 7 case NhfPayable => 8 case NsitfPayable => 9
    case WhtPayable => 10 case VatReceivable => 11 case NetPayPayable => 12 case AccountsPayable => 13
    case AccountsReceivable => 14 case RevenueAccount => 15 case FixedAssets => 16
    case AccumulatedDepreciation => 17 case DepreciationExpense => 18 case DisposalGainLoss => 19
    case RevaluationSurplus => 20 case RevaluationLoss => 21 case BenefitDeductionsRecovered => 22
    case UnionDuesPayable => 23
    case Named(_) => 24
  }

  datatype AccountType = Asset | Liability | Equity | Revenue | Expense

  /** An account to seed: (code, name, type). */
  datatype Spec = Spec(code: Code, name: string, kind: AccountType)

  /** The name and type the seeds give each code they spell out. */
  function SeedName(code: Code): string {
    match code
    case Cash => "Cash"
    case EmployeeLoanReceivable => "Employee Loans Receivable"
    case PayrollExpenseGross => "Payroll Expense — Gross Pay"
    case PayrollExpenseEmployerPension => "Payroll Expense — Employer Pension"
    case PayrollExpenseNsitf => "Payroll Expense — NSITF"
    case ContractorExpense => "Contractor Expense"
    case PayePayable => "PAYE Payable"
    case PensionPayable => "Pension Payable"
    case NhfPayable => "NHF Payable"
    case NsitfPayable => "NSITF Payable"
    case WhtPayable => "WHT Payable"
    case VatReceivable => "VAT Receivable"
    case NetPayPayable => "Net Pay Payable"
    case AccountsPayable => "Accounts Payable"
    case AccountsReceivable => "Accounts Receivable"
    case RevenueAccount => "Revenue"
    case FixedAssets => "Fixed Assets"
    case AccumulatedDepreciation => "Accumulated Depreciation"
    case DepreciationExpense => "Depreciation Expense"
    case DisposalGainLoss => "Gain/Loss on Disposal"
    case RevaluationSurplus => "Revaluation Surplus"
    case RevaluationLoss => "Revaluation Loss"
    case BenefitDeductionsRecovered => "Benefit Deductions Recovered"
    case UnionDuesPayable => "Union Dues Payable"
    case Named(s) => s
  }

  function SeedKind(code: Code): AccountType {
    match code
    case PayePayable | PensionPayable | NhfPayable | NsitfPayable => Liability
    case WhtPayable | NetPayPayable | AccountsPayable | UnionDuesPayable => Liability
    case RevaluationSurplus => Equity
    case RevenueAccount => Revenue
    case PayrollExpenseGross | PayrollExpenseEmployerPension | PayrollExpenseNsitf | ContractorExpense => Expense
    case DepreciationExpense | DisposalGainLoss | RevaluationLoss | BenefitDeductionsRecovered => Expense
    case _ => Asset
  }

  function Specs(codes: seq<Code>): (accounts: seq<Spec>)
    ensures |accounts| == |codes|
    ensures forall i :: 0 <= i < |codes| ==> accounts[i] == Spec(codes[i], SeedName(codes[i]), SeedKind(codes[i]))
  {
    seq(|codes|, i requires 0 <= i < |codes| => Spec(codes[i], SeedName(codes[i]), SeedKind(codes[i])))
  }

  const DEFAULT_CODES: seq<Code> := [
    Cash, EmployeeLoanReceivable, PayrollExpenseGross, PayrollExpenseEmployerPension, PayrollExpenseNsitf,
    ContractorExpense, PayePayable, PensionPayable, NhfPayable, NsitfPayable, WhtPayable, VatReceivable,
    NetPayPayable, AccountsPayable, AccountsReceivable, RevenueAccount, FixedAssets, AccumulatedDepreciation,
    DepreciationExpense, DisposalGainLoss, RevaluationSurplus, RevaluationLoss]

  const DEFAULT_ACCOUNTS: seq<Spec> := Specs(DEFAULT_CODES)

  predicate IsNigeriaOnly(code: Code) {
    code.PayrollExpenseNsitf? || code.NhfPayable? || code.NsitfPayable?
  }

  const PAYROLL_DEDUCTION_CODES: seq<Code> := [EmployeeLoanReceivable, BenefitDeductionsRecovered, UnionDuesPayable]

  const PAYROLL_DEDUCTION_ACCOUNTS: seq<Spec> := Specs(PAYROLL_DEDUCTION_CODES)

  datatype ChartAccount = ChartAccount(name: string, kind: AccountType, isSystem: bool, isActive: bool)

  /** One organisation's rows; (org, code) is unique. */
  type Chart = map<Code, ChartAccount>

  datatype SeedError = UniqueViolation

  function Row(s: Spec): ChartAccount {
    ChartAccount(s.name, s.kind, true, true)
  }

  function Codes(accounts: seq<Spec>): set<Code> {
    if accounts == [] then {} else Codes(accounts[..|accounts| - 1]) + {accounts[|accounts| - 1].code}
  }

  predicate DistinctCodes(accounts: seq<Spec>) {
    forall i, j :: 0 <= i < j < |accounts| ==> accounts[i].code != accounts[j].code
  }

  /** Nothing is seeded twice, save what the chart already has: only a code that
      is both new and repeated breaks the unique key at flush. */
  predicate CanSeed(chart: Chart, accounts: seq<Spec>) {
    forall i, j :: 0 <= i < j < |accounts| && accounts[i].code == accounts[j].code ==> accounts[i].code in chart
  }

  /** The accounts whose code the chart lacks: what _seed adds to the session. */
  function Missing(chart: Chart, accounts: seq<Spec>): seq<Spec> {
    if accounts == [] then []
    else
      var last := accounts[|accounts| - 1];
      Missing(chart, accounts[..|accounts| - 1]) + if last.code in chart then [] else [last]
  }

  /** The chart after a flush of new accounts. */
  function Inserted(chart: Chart, pending: seq<Spec>): Chart {
    if pending == [] then chart
    else Inserted(chart, pending[..|pending| - 1])[pending[|pending| - 1].code := Row(pending[|pending| - 1])]
  }

  function Seeded(chart: Chart, accounts: seq<Spec>): Chart {
    Inserted(chart, Missing(chart, accounts))
  }

  /** DEFAULT_ACCOUNTS, without the Nigerian schemes elsewhere. */
  function Defaults(isNigerian: bool): seq<Spec> {
    if isNigerian then DEFAULT_ACCOUNTS else WithoutNigeria(DEFAULT_ACCOUNTS)
  }

  function WithoutNigeria(accounts: seq<Spec>): seq<Spec> {
    if accounts == [] then []
    else
      var last := accounts[|accounts| - 1];
      WithoutNigeria(accounts[..|accounts| - 1]) + if IsNigeriaOnly(last.code) then [] else [last]
  }

  // ----- The accounts a country's rule set names -----

  datatype Contribution = Contribution(name: string, liability: Code, expense: Option<Code>)

  datatype Levy = Levy(name: string, liability: Code, expense: Code)

  datatype RuleSet = RuleSet(taxName: string, taxLiability: Code, contributions: seq<Contribution>, levies: seq<Levy>)

  /** Python's truth of an optional string: present and not empty. */
  predicate IsGiven(code: Option<Code>) {
    code.Some? && code.value != Named("")
  }

  function ContributionMentions(rules: seq<Contribution>): seq<Spec> {
    if rules == [] then []
    else
      var last := rules[|rules| - 1];
      ContributionMentions(rules[..|rules| - 1]) + [Spec(last.liability, last.name + " Payable", Liability)]
      + if IsGiven(last.expense) then [Spec(last.expense.value, "Payroll Expense — " + last.name, Expense)] else []
  }

  function LevyMentions(levies: seq<Levy>): seq<Spec> {
    if levies == [] then []
    else
      var last := levies[|levies| - 1];
      LevyMentions(levies[..|levies| - 1])
      + [Spec(last.liability, last.name + " Payable", Liability),
          Spec(last.expense, "Payroll Expense — " + last.name, Expense)]
  }

  /** Every account a payslip under this rule set posts to, as often as it is
      mentioned: the deductions first, then what the rule set itself names. */
  function Mentions(rules: RuleSet): seq<Spec> {
    PAYROLL_DEDUCTION_ACCOUNTS + [Spec(rules.taxLiability, rules.taxName + " Payable", Liability)]
    + ContributionMentions(rules.contributions) + LevyMentions(rules.levies)
  }

  /** dict.setdefault on the accounts being collected. */
  function SetDefault(accounts: seq<Spec>, s: Spec): seq<Spec> {
    if s.code in Codes(accounts) then accounts else accounts + [s]
  }

  /** The first mention of each code. */
  function FirstOfEach(mentions: seq<Spec>): seq<Spec> {
    if mentions == [] then [] else SetDefault(FirstOfEach(mentions[..|mentions| - 1]), mentions[|mentions| - 1])
  }

  class ChartTable {
    var chart: Chart

    constructor (chart: Chart)
      ensures this.chart == chart
    {
      this.chart := chart;
    }

    /** _seed: the existing codes are read once, before the loop, and all new
        rows are flushed together, or refused together by the unique key. */
    method Seed(accounts: seq<Spec>) returns (r: Result<seq<Spec>, SeedError>)
      modifies this
      ensures r.Ok? <==> CanSeed(old(chart), accounts)
      ensures r.Ok? ==> r.value == Missing(old(chart), accounts)
      ensures chart == if r.Ok? then Seeded(old(chart), accounts) else old(chart)
    {
      var existingCodes := chart.Keys;
      var created := [];
      for i := 0 to |accounts|
        invariant created == Missing(chart, accounts[..i])
      {
        assert accounts[..i + 1][..i] == accounts[..i];
        if accounts[i].code in existingCodes {
          continue;
        }
        created := created + [accounts[i]];
      }
      assert accounts[..|accounts|] == accounts;
      PendingIsDistinctIffCanSeed(chart, accounts);
      if !DistinctCodes(created) {
        return Err(UniqueViolation);
      }
      chart := Inserted(chart, created);
      return Ok(created);
    }

    /** seed_default_chart_of_accounts. */
    method SeedDefaultChartOfAccounts(isNigerian: bool) returns (r: Result<seq<Spec>, SeedError>)
      modifies this
      ensures r == Ok(Missing(old(chart), Defaults(isNigerian))) && chart == Seeded(old(chart), Defaults(isNigerian))
    {
      DefaultsAreDistinct(isNigerian);
      r := Seed(Defaults(isNigerian));
    }

    /** seed_rule_set_accounts: the defaults, flushed, and then the payroll
        deductions with everything the rule set names. It never fails. */
    method SeedRuleSetAccounts(isNigerian: bool, rules: RuleSet) returns (r: Result<seq<Spec>, SeedError>)
      modifies this
      ensures chart == WithRuleSet(old(chart), isNigerian, rules)
      ensures r == Ok(Missing(old(chart), Defaults(isNigerian))
                      + Missing(Seeded(old(chart), Defaults(isNigerian)), FirstOfEach(Mentions(rules))))
    {
      hide DistinctCodes, CanSeed, Missing, Inserted, Codes, Specs, FirstOfEach, Mentions;
      var first := SeedDefaultChartOfAccounts(isNigerian);
      var accounts := RuleSetAccounts(rules);
      FirstOfEachIsDistinct(Mentions(rules));
      DistinctCanSeed(chart, accounts);
      var second := Seed(accounts);
      return Ok(first.value + second.value);
    }
  }

  function WithRuleSet(chart: Chart, isNigerian: bool, rules: RuleSet): Chart {
    Seeded(Seeded(chart, Defaults(isNigerian)), FirstOfEach(Mentions(rules)))
  }

  /** The dictionary of seed_rule_set_accounts, in insertion order. */
  method RuleSetAccounts(rules: RuleSet) returns (accounts: seq<Spec>)
    ensures accounts == FirstOfEach(Mentions(rules))
  {
    hide SetDefault, FirstOfEach;
    accounts := PAYROLL_DEDUCTION_ACCOUNTS;
    ghost var mentions := PAYROLL_DEDUCTION_ACCOUNTS;
    DeductionsAreDistinct();
    accounts, mentions := Add(accounts, mentions, Spec(rules.taxLiability, rules.taxName + " Payable", Liability));
    ghost var base := mentions;
    for i := 0 to |rules.contributions|
      invariant accounts == FirstOfEach(mentions)
      invariant mentions == base + ContributionMentions(rules.contributions[..i])
    {
      var rule := rules.contributions[i];
      assert rules.contributions[..i + 1][..i] == rules.contributions[..i];
      accounts, mentions := Add(accounts, mentions, Spec(rule.liability, rule.name + " Payable", Liability));
      if IsGiven(rule.expense) {
        accounts, mentions := Add(accounts, mentions,
            Spec(rule.expense.value, "Payroll Expense — " + rule.name, Expense));
      }
    }
    assert rules.contributions[..|rules.contributions|] == rules.contributions;
    base := mentions;
    for i := 0 to |rules.levies|
      invariant accounts == FirstOfEach(mentions)
      invariant mentions == base + LevyMentions(rules.levies[..i])
    {
      var levy := rules.levies[i];
      assert rules.levies[..i + 1][..i] == rules.levies[..i];
      accounts, mentions := Add(accounts, mentions, Spec(levy.liability, levy.name + " Payable", Liability));
      accounts, mentions := Add(accounts, mentions, Spec(levy.expense, "Payroll Expense — " + levy.name, Expense));
    }
    assert rules.levies[..|rules.levies|] == rules.levies;
  }

  /** The nested add(): the first account given for a code is the one kept. */
  method Add(accounts: seq<Spec>, ghost mentions: seq<Spec>, s: Spec) returns (r: seq<Spec>, ghost mentioned: seq<Spec>)
    requires accounts == FirstOfEach(mentions)
    ensures r == SetDefault(accounts, s) == FirstOfEach(mentioned) && mentioned == mentions + [s]
  {
    mentioned := mentions + [s];
    assert mentioned[..|mentions|] == mentions;
    r := if s.code in Codes(accounts) then accounts else accounts + [s];
  }

  lemma {:induction false} CodesMembers(accounts: seq<Spec>)
    ensures forall code :: code in Codes(accounts) <==> exists i :: 0 <= i < |accounts| && accounts[i].code == code
  {
    if accounts != [] {
      var front := accounts[..|accounts| - 1];
      CodesMembers(front);
      forall code
        ensures code in Codes(accounts) <==> exists i :: 0 <= i < |accounts| && accounts[i].code == code
      {
        if i :| 0 <= i < |accounts| && accounts[i].code == code {
          assert i < |front| ==> front[i].code == code;
        }
        if code in Codes(front) {
          var i :| 0 <= i < |front| && front[i].code == code;
          assert accounts[i].code == code;
        }
      }
    }
  }

  // ----- The lists themselves -----

  lemma DefaultsAreRanked(i: nat)
    requires i < |DEFAULT_ACCOUNTS|
    ensures Rank(DEFAULT_ACCOUNTS[i].code) == i
  {
    hide SeedName, SeedKind;
  }

  lemma DefaultsAreDistinct(isNigerian: bool)
    ensures DistinctCodes(Defaults(isNigerian))
  {
    hide DEFAULT_ACCOUNTS, Rank;
    forall i | 0 <= i < |DEFAULT_ACCOUNTS|
      ensures Rank(DEFAULT_ACCOUNTS[i].code) == i
    {
      DefaultsAreRanked(i);
    }
    WithoutNigeriaIsDistinct(DEFAULT_ACCOUNTS);
  }

  lemma {:induction false} WithoutNigeriaIsDistinct(accounts: seq<Spec>)
    requires DistinctCodes(accounts)
    ensures DistinctCodes(WithoutNigeria(accounts))
    ensures forall s :: s in WithoutNigeria(accounts) <==> s in accounts && !IsNigeriaOnly(s.code)
  {
    if accounts != [] {
      var front, last := accounts[..|accounts| - 1], accounts[|accounts| - 1];
      WithoutNigeriaIsDistinct(front);
      assert accounts == front + [last];
      var kept := WithoutNigeria(front);
      forall i | 0 <= i < |kept|
        ensures kept[i].code != last.code
      {
        assert kept[i] in front;
      }
    }
  }

  /** Outside Nigeria the defaults are the same but for its three schemes. */
  lemma DefaultsAbroad()
    ensures Codes(Defaults(false)) == Codes(Defaults(true)) - {PayrollExpenseNsitf, NhfPayable, NsitfPayable}
    ensures {PayrollExpenseNsitf, NhfPayable, NsitfPayable} <= Codes(Defaults(true))
  {
    hide DEFAULT_ACCOUNTS, Codes, DistinctCodes;
    NigerianSchemesAreListed();
    KeptCodes(DEFAULT_ACCOUNTS);
    CodesMembers(DEFAULT_ACCOUNTS);
  }

  lemma NigerianSchemesAreListed()
    ensures |DEFAULT_ACCOUNTS| == 22 && DEFAULT_ACCOUNTS[4].code == PayrollExpenseNsitf
    ensures DEFAULT_ACCOUNTS[8].code == NhfPayable && DEFAULT_ACCOUNTS[9].code == NsitfPayable
  {
    hide SeedName, SeedKind;
  }

  lemma {:induction false} KeptCodes(accounts: seq<Spec>)
    ensures Codes(WithoutNigeria(accounts)) == Codes(accounts) - {PayrollExpenseNsitf, NhfPayable, NsitfPayable}
  {
    if accounts != [] {
      var front, last := accounts[..|accounts| - 1], accounts[|accounts| - 1];
      KeptCodes(front);
      KeptOneMore(front, last);
      assert front + [last] == accounts;
    }
  }

  lemma KeptOneMore(front: seq<Spec>, last: Spec)
    requires Codes(WithoutNigeria(front)) == Codes(front) - {PayrollExpenseNsitf, NhfPayable, NsitfPayable}
    ensures Codes(WithoutNigeria(front + [last]))
            == Codes(front + [last]) - {PayrollExpenseNsitf, NhfPayable, NsitfPayable}
  {
    hide Codes;
    assert (front + [last])[..|front|] == front;
    CodesAppend(front, last);
    var schemes: set<Code> := {PayrollExpenseNsitf, NhfPayable, NsitfPayable};
    OneMoreMember(Codes(WithoutNigeria(front)), Codes(front), schemes, last.code);
    if IsNigeriaOnly(last.code) {
      assert WithoutNigeria(front + [last]) == WithoutNigeria(front);
    } else {
      CodesAppend(WithoutNigeria(front), last);
    }
  }

  lemma DeductionsAreDistinct()
    ensures FirstOfEach(PAYROLL_DEDUCTION_ACCOUNTS) == PAYROLL_DEDUCTION_ACCOUNTS
  {
    var all := PAYROLL_DEDUCTION_ACCOUNTS;
    DistinctIsFirstOfEach(all);
  }

  lemma {:induction false} DistinctIsFirstOfEach(accounts: seq<Spec>)
    requires DistinctCodes(accounts)
    ensures FirstOfEach(accounts) == accounts
  {
    if accounts != [] {
      DistinctIsFirstOfEach(accounts[..|accounts| - 1]);
      CodesMembers(accounts[..|accounts| - 1]);
    }
  }

  /** Collecting with setdefault keeps one account a code, for every code
      mentioned. */
  lemma {:induction false} FirstOfEachIsDistinct(mentions: seq<Spec>)
    ensures DistinctCodes(FirstOfEach(mentions)) && Codes(FirstOfEach(mentions)) == Codes(mentions)
  {
    if mentions != [] {
      FirstOfEachIsDistinct(mentions[..|mentions| - 1]);
      SetDefaultKeepsDistinct(FirstOfEach(mentions[..|mentions| - 1]), mentions[|mentions| - 1]);
    }
  }

  /** The account kept for a code is the first one mentioned. */
  lemma {:induction false} FirstMentionIsKept(mentions: seq<Spec>, i: nat)
    requires i < |mentions| && IsFirstMention(mentions, i)
    ensures mentions[i] in FirstOfEach(mentions)
  {
    hide Codes, DistinctCodes;
    var front := mentions[..|mentions| - 1];
    if i < |front| {
      FirstMentionIsKept(front, i);
    } else {
      NotMentionedIsNotCollected(front, mentions[i].code);
    }
  }

  lemma NotMentionedIsNotCollected(mentions: seq<Spec>, code: Code)
    requires forall j :: 0 <= j < |mentions| ==> mentions[j].code != code
    ensures code !in Codes(FirstOfEach(mentions))
  {
    hide FirstOfEach, Codes, DistinctCodes;
    FirstOfEachIsDistinct(mentions);
    CodesMembers(mentions);
  }

  lemma SetDefaultKeepsDistinct(accounts: seq<Spec>, s: Spec)
    requires DistinctCodes(accounts)
    ensures DistinctCodes(SetDefault(accounts, s)) && Codes(SetDefault(accounts, s)) == Codes(accounts) + {s.code}
    ensures accounts <= SetDefault(accounts, s)
  {
    CodesMembers(accounts);
    assert (accounts + [s])[..|accounts|] == accounts;
  }

  lemma DistinctCanSeed(chart: Chart, accounts: seq<Spec>)
    requires DistinctCodes(accounts)
    ensures CanSeed(chart, accounts)
  {
  }

  // ----- What seeding does to a chart -----

  lemma {:induction false} MissingMembers(chart: Chart, accounts: seq<Spec>)
    ensures forall s :: s in Missing(chart, accounts) <==> s in accounts && s.code !in chart
  {
    if accounts != [] {
      MissingMembers(chart, accounts[..|accounts| - 1]);
      assert accounts == accounts[..|accounts| - 1] + [accounts[|accounts| - 1]];
    }
  }

  lemma {:induction false} MissingCodes(chart: Chart, accounts: seq<Spec>)
    ensures Codes(Missing(chart, accounts)) == Codes(accounts) - chart.Keys
  {
    if accounts != [] {
      var front, last := accounts[..|accounts| - 1], accounts[|accounts| - 1];
      MissingCodes(chart, front);
      MissingOneMore(chart, front, last);
      assert front + [last] == accounts;
    }
  }

  lemma MissingOneMore(chart: Chart, front: seq<Spec>, last: Spec)
    requires Codes(Missing(chart, front)) == Codes(front) - chart.Keys
    ensures Codes(Missing(chart, front + [last])) == Codes(front + [last]) - chart.Keys
  {
    hide Codes;
    assert (front + [last])[..|front|] == front;
    CodesAppend(front, last);
    OneMoreMember(Codes(Missing(chart, front)), Codes(front), chart.Keys, last.code);
    if last.code in chart {
      assert Missing(chart, front + [last]) == Missing(chart, front);
    } else {
      CodesAppend(Missing(chart, front), last);
    }
  }

  lemma OneMoreMember(missing: set<Code>, codes: set<Code>, known: set<Code>, code: Code)
    requires missing == codes - known
    ensures codes + {code} - known == if code in known then missing else missing + {code}
  {
  }

  lemma {:induction false} NothingIsMissing(chart: Chart, accounts: seq<Spec>)
    requires Codes(accounts) <= chart.Keys
    ensures Missing(chart, accounts) == []
  {
    if accounts != [] {
      NothingIsMissing(chart, accounts[..|accounts| - 1]);
    }
  }

  lemma CodesAppend(accounts: seq<Spec>, s: Spec)
    ensures Codes(accounts + [s]) == Codes(accounts) + {s.code}
  {
    assert (accounts + [s])[..|accounts|] == accounts;
  }

  /** The pending rows are distinct exactly when CanSeed holds. */
  lemma {:induction false} PendingIsDistinctIffCanSeed(chart: Chart, accounts: seq<Spec>)
    ensures DistinctCodes(Missing(chart, accounts)) <==> CanSeed(chart, accounts)
  {
    if accounts != [] {
      hide CanSeed, DistinctCodes;
      var front, last := accounts[..|accounts| - 1], accounts[|accounts| - 1];
      assert accounts == front + [last];
      PendingIsDistinctIffCanSeed(chart, front);
      if last.code in chart {
        assert Missing(chart, accounts) == Missing(chart, front);
        OneMoreKnown(chart, front, last);
      } else {
        OneMorePending(chart, front, last);
      }
    }
  }

  lemma OneMoreKnown(chart: Chart, front: seq<Spec>, last: Spec)
    requires last.code in chart
    ensures CanSeed(chart, front + [last]) <==> CanSeed(chart, front)
  {
    var all := front + [last];
    assert all[..|front|] == front;
    assert forall i :: 0 <= i < |front| ==> all[i] == front[i];
    if CanSeed(chart, all) {
      forall i, j | 0 <= i < j < |front| && front[i].code == front[j].code
        ensures front[i].code in chart
      {
        assert all[i].code == all[j].code;
      }
    }
  }

  lemma OneMorePending(chart: Chart, front: seq<Spec>, last: Spec)
    requires last.code !in chart
    requires DistinctCodes(Missing(chart, front)) <==> CanSeed(chart, front)
    ensures DistinctCodes(Missing(chart, front) + [last]) <==> CanSeed(chart, front + [last])
  {
    hide Missing;
    var before, all := Missing(chart, front), front + [last];
    MissingMembers(chart, front);
    if i :| 0 <= i < |front| && front[i].code == last.code {
      assert front[i] in before;
      var k :| 0 <= k < |before| && before[k] == front[i];
      assert (before + [last])[k].code == (before + [last])[|before|].code;
      assert all[i].code == all[|front|].code;
    } else {
      DistinctAppend(before, last);
      CanSeedAppend(chart, front, last);
    }
  }

  lemma DistinctAppend(before: seq<Spec>, last: Spec)
    requires forall k :: 0 <= k < |before| ==> before[k].code != last.code
    ensures DistinctCodes(before + [last]) <==> DistinctCodes(before)
  {
    assert forall i :: 0 <= i < |before| ==> (before + [last])[i] == before[i];
    if DistinctCodes(before + [last]) {
      forall i, j | 0 <= i < j < |before|
        ensures before[i].code != before[j].code
      {
        assert (before + [last])[i].code != (before + [last])[j].code;
      }
    }
  }

  lemma CanSeedAppend(chart: Chart, front: seq<Spec>, last: Spec)
    requires forall k :: 0 <= k < |front| ==> front[k].code != last.code
    ensures CanSeed(chart, front + [last]) <==> CanSeed(chart, front)
  {
    assert forall i :: 0 <= i < |front| ==> (front + [last])[i] == front[i];
    if CanSeed(chart, front + [last]) {
      forall i, j | 0 <= i < j < |front| && front[i].code == front[j].code
        ensures front[i].code in chart
      {
        assert (front + [last])[i].code == (front + [last])[j].code;
      }
    }
  }

  lemma {:induction false} InsertedKeepsAndAdds(chart: Chart, pending: seq<Spec>)
    requires Codes(pending) !! chart.Keys
    ensures Inserted(chart, pending).Keys == chart.Keys + Codes(pending)
    ensures forall code :: code in chart ==> Inserted(chart, pending)[code] == chart[code]
  {
    if pending != [] {
      InsertedKeepsAndAdds(chart, pending[..|pending| - 1]);
    }
  }

  /** Seeding adds exactly the missing codes and leaves every existing row, its
      name, type and activity, as it was. */
  lemma SeededKeepsAndAdds(chart: Chart, accounts: seq<Spec>)
    ensures Seeded(chart, accounts).Keys == chart.Keys + Codes(accounts)
    ensures forall code :: code in chart ==> Seeded(chart, accounts)[code] == chart[code]
  {
    MissingCodes(chart, accounts);
    InsertedKeepsAndAdds(chart, Missing(chart, accounts));
  }

  /** A missing code gets a system row with the listed name and type. */
  lemma {:induction false} InsertedRow(chart: Chart, pending: seq<Spec>, i: nat)
    requires DistinctCodes(pending) && i < |pending|
    ensures pending[i].code in Inserted(chart, pending) && Inserted(chart, pending)[pending[i].code] == Row(pending[i])
  {
    if i < |pending| - 1 {
      InsertedRow(chart, pending[..|pending| - 1], i);
    }
  }

  lemma SeededRow(chart: Chart, accounts: seq<Spec>, s: Spec)
    requires CanSeed(chart, accounts) && s in accounts && s.code !in chart
    ensures s.code in Seeded(chart, accounts) && Seeded(chart, accounts)[s.code] == Row(s)
  {
    PendingIsDistinctIffCanSeed(chart, accounts);
    MissingMembers(chart, accounts);
    var pending := Missing(chart, accounts);
    var i :| 0 <= i < |pending| && pending[i] == s;
    InsertedRow(chart, pending, i);
  }

  /** After seed_rule_set_accounts the chart has every default, every deduction
      account and every account the rule set names, and all it had before,
      unchanged; a new code that is not a default carries the first name and
      type it was mentioned with. */
  lemma RuleSetIsCovered(chart: Chart, isNigerian: bool, rules: RuleSet)
    ensures var t := WithRuleSet(chart, isNigerian, rules);
            && t.Keys == chart.Keys + Codes(Defaults(isNigerian)) + Codes(Mentions(rules))
            && (forall code :: code in chart ==> t[code] == chart[code])
            && (forall i :: 0 <= i < |Mentions(rules)| && IsFirstMention(Mentions(rules), i)
                  && Mentions(rules)[i].code !in chart.Keys + Codes(Defaults(isNigerian))
                  ==> var m := Mentions(rules)[i]; m.code in t && t[m.code] == ChartAccount(m.name, m.kind, true, true))
  {
    hide Mentions, Defaults, FirstOfEach, IsFirstMention, Missing, Inserted, Codes, DistinctCodes, CanSeed, Seeded;
    var middle, mentions := Seeded(chart, Defaults(isNigerian)), Mentions(rules);
    SeededKeepsAndAdds(chart, Defaults(isNigerian));
    FirstOfEachIsDistinct(mentions);
    DistinctCanSeed(middle, FirstOfEach(mentions));
    SeededKeepsAndAdds(middle, FirstOfEach(mentions));
    CodesMembers(mentions);
    forall i | 0 <= i < |mentions| && IsFirstMention(mentions, i) && mentions[i].code !in middle
      ensures Seeded(middle, FirstOfEach(mentions))[mentions[i].code] == Row(mentions[i])
    {
      FirstMentionIsKept(mentions, i);
      SeededRow(middle, FirstOfEach(mentions), mentions[i]);
    }
  }

  predicate IsFirstMention(mentions: seq<Spec>, i: nat)
    requires i < |mentions|
  {
    forall j :: 0 <= j < i ==> mentions[j].code != mentions[i].code
  }

  /** Seeding again creates nothing and cannot fail. */
  lemma SeedingTwiceIsIdle(chart: Chart, accounts: seq<Spec>)
    ensures var once := Seeded(chart, accounts);
            Missing(once, accounts) == [] && CanSeed(once, accounts) && Seeded(once, accounts) == once
  {
    var once := Seeded(chart, accounts);
    SeededKeepsAndAdds(chart, accounts);
    NothingIsMissing(once, accounts);
    PendingIsDistinctIffCanSeed(once, accounts);
  }

  /** The order of two seeds does not change which codes end up in the chart,
      nor whether the second can run. */
  lemma SeedOrderDoesNotMatter(chart: Chart, a: seq<Spec>, b: seq<Spec>)
    requires DistinctCodes(a) && DistinctCodes(b)
    ensures Seeded(Seeded(chart, a), b).Keys == Seeded(Seeded(chart, b), a).Keys
    ensures CanSeed(Seeded(chart, a), b) && CanSeed(Seeded(chart, b), a)
  {
    SeededKeepsAndAdds(chart, a);
    SeededKeepsAndAdds(chart, b);
    SeededKeepsAndAdds(Seeded(chart, a), b);
    SeededKeepsAndAdds(Seeded(chart, b), a);
  }

  /** Why the flush in between matters: the defaults and the payroll deductions
      share a code, so as one list they could not be seeded into an empty chart. */
  lemma OneListWouldFail(isNigerian: bool)
    ensures !CanSeed(map[], Defaults(isNigerian) + PAYROLL_DEDUCTION_ACCOUNTS)
    ensures CanSeed(Seeded(map[], Defaults(isNigerian)), PAYROLL_DEDUCTION_ACCOUNTS)
  {
    SharedCode(isNigerian);
    DefaultsAreDistinct(isNigerian);
    hide Defaults, PAYROLL_DEDUCTION_ACCOUNTS;
    var first, second := Defaults(isNigerian), PAYROLL_DEDUCTION_ACCOUNTS;
    var i :| 0 <= i < |first| && first[i] == second[0];
    assert (first + second)[i].code == (first + second)[|first|].code;
    DeductionsAreDistinct();
    FirstOfEachIsDistinct(second);
  }

  lemma SharedCode(isNigerian: bool)
    ensures PAYROLL_DEDUCTION_ACCOUNTS != [] && PAYROLL_DEDUCTION_ACCOUNTS[0] in Defaults(isNigerian)
  {
    assert DEFAULT_ACCOUNTS[1] == PAYROLL_DEDUCTION_ACCOUNTS[0];
    hide DEFAULT_ACCOUNTS;
    DefaultsAreDistinct(true);
    WithoutNigeriaIsDistinct(DEFAULT_ACCOUNTS);
  }
}
