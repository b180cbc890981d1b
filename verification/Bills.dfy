/** The bill lifecycle (app/services/bills.py): draft, approved, paid, void, and
    the journals it posts. */
module Bills {
  import opened Base
  import opened Journals
  import Money

  datatype Status = Draft | Approved | Paid | Void

  datatype Bill = Bill(
    number: string, vendor: Uuid, expense: Code, amount: int, vat: int, whtCategory: Option<string>, wht: int,
    receipt: Option<Uuid>, billDate: int, dueDate: int, status: Status)
  {
    /** net_payable_minor. */
    function Net(): int { amount + vat - wht }

    predicate IsLive() { status.Approved? || status.Paid? }
  }

  /** What a goods receipt shows when it is looked up: who supplied it, whether
      it is posted, and what it accrued. */
  datatype GoodsReceipt = GoodsReceipt(vendor: Uuid, isPosted: bool, accrual: Option<int>)

  /** Rows and rules other services own, as they are when a call reads them. */
  datatype Context = Context(
    chart: Chart, periodOpen: bool, receipts: map<Uuid, GoodsReceipt>, whtRates: Option<map<string, int>>)

  datatype BillError =
    | BadAmount | InvalidDates | NotAnExpenseAccount | ReceiptNotBillable | AlreadyBilled | DuplicateNumber
    | WrongStatus | RulesRequired | UnknownCategory | NotPostable(cause: JournalError)

  datatype Purpose = Approval | Payment

  /** A posted journal, tagged with the bill row its description names. */
  datatype Journal = Journal(bill: nat, purpose: Purpose, lines: seq<Line>)

  datatype State = State(bills: seq<Bill>, journals: seq<Journal>)

  // ----- Lookups -----

  /** receipt_bill: whether a bill that is not void, other than `except`, holds
      the receipt. */
  predicate IsHeldByAnother(bills: seq<Bill>, receipt: Uuid, except: int) {
    exists i :: 0 <= i < |bills| && i != except && bills[i].receipt == Some(receipt) && !bills[i].status.Void?
  }

  /** billable_receipt: the accrual a bill of this vendor may clear. */
  function BillableAccrual(c: Context, bills: seq<Bill>, receipt: Uuid, vendor: Uuid, bill: int)
    : Result<int, BillError>
  {
    if receipt !in c.receipts || !c.receipts[receipt].isPosted || c.receipts[receipt].vendor != vendor
    then Err(ReceiptNotBillable)
    else if IsHeldByAnother(bills, receipt, bill) then Err(AlreadyBilled)
    else
      var accrual := c.receipts[receipt].accrual;
      if accrual.None? || accrual.value == 0 then Err(ReceiptNotBillable) else Ok(accrual.value)
  }

  /** compute_wht, or nothing for a bill without a category. */
  function WhtOf(c: Context, b: Bill): Result<int, BillError> {
    if b.whtCategory.None? then Ok(0)
    else if c.whtRates.None? then Err(RulesRequired)
    else if b.whtCategory.value !in c.whtRates.value then Err(UnknownCategory)
    else
      var r := Money.ApplyRatePpm(b.amount, c.whtRates.value[b.whtCategory.value]);
      if r.Ok? then Ok(r.value) else Err(BadAmount)
  }

  function Cleared(c: Context, bills: seq<Bill>, i: nat): Result<int, BillError>
    requires i < |bills|
  {
    if bills[i].receipt.None? then Ok(0)
    else BillableAccrual(c, bills, bills[i].receipt.value, bills[i].vendor, i)
  }

  /** The journal approval posts. */
  function ApprovalLines(b: Bill, wht: int, cleared: int): Result<seq<Line>, JournalError> {
    var legs := BillLegs(b.amount, b.vat, wht, b.expense, cleared);
    if legs.Ok? then Ok(LegLines(legs.value)) else Err(legs.error)
  }

  function PaymentLines(b: Bill, cash: Code): seq<Line> {
    [Line(ACCOUNTS_PAYABLE, b.Net(), 0), Line(cash, 0, b.Net())]
  }

  // ----- What each call needs -----

  predicate CanRegister(s: State, c: Context, b: Bill) {
    && b.amount > 0 && b.vat >= 0 && b.billDate <= b.dueDate
    && b.expense in c.chart && c.chart[b.expense].Expense?
    && (b.receipt.Some? ==> BillableAccrual(c, s.bills, b.receipt.value, b.vendor, -1).Ok?)
    && (forall i :: 0 <= i < |s.bills| ==> s.bills[i].number != b.number)
  }

  predicate CanApprove(s: State, c: Context, i: nat) {
    && i < |s.bills| && s.bills[i].status.Draft?
    && WhtOf(c, s.bills[i]).Ok? && Cleared(c, s.bills, i).Ok?
    && var lines := ApprovalLines(s.bills[i], WhtOf(c, s.bills[i]).value, Cleared(c, s.bills, i).value);
      lines.Ok? && IsPostable(lines.value, c.chart, c.periodOpen)
  }

  predicate CanPay(s: State, c: Context, i: nat, cash: Code) {
    && i < |s.bills| && s.bills[i].status.Approved?
    && IsPostable(PaymentLines(s.bills[i], cash), c.chart, c.periodOpen)
  }

  // ----- Requests -----

  datatype Event =
    | Register(c: Context, bill: Bill)
    | Approve(c: Context, i: nat)
    | Pay(c: Context, i: nat, cash: Code)
    | VoidBill(i: nat)

  /** A refused request rolls back. */
  function Step(s: State, e: Event): State {
    match e
    case Register(c, b) =>
      if CanRegister(s, c, b) then s.(bills := s.bills + [b.(status := Draft, wht := 0)]) else s
    case Approve(c, i) =>
      if !CanApprove(s, c, i) then s
      else
        var wht := WhtOf(c, s.bills[i]).value;
        var lines := ApprovalLines(s.bills[i], wht, Cleared(c, s.bills, i).value).value;
        State(s.bills[i := s.bills[i].(wht := wht, status := Approved)], s.journals + [Journal(i, Approval, lines)])
    case Pay(c, i, cash) =>
      if !CanPay(s, c, i, cash) then s
      else State(s.bills[i := s.bills[i].(status := Paid)],
                 s.journals + [Journal(i, Payment, PaymentLines(s.bills[i], cash))])
    case VoidBill(i) =>
      if i < |s.bills| && s.bills[i].status.Draft? then s.(bills := s.bills[i := s.bills[i].(status := Void)]) else s
  }

  function Run(s: State, events: seq<Event>): State {
    if events == [] then s else Step(Run(s, events[..|events| - 1]), events[|events| - 1])
  }

  const EMPTY: State := State([], [])

  class Payables {
    var bills: seq<Bill>
    var journals: seq<Journal>

    function Now(): State
      reads this
    {
      State(bills, journals)
    }

    constructor ()
      ensures Now() == EMPTY
    {
      bills, journals := [], [];
    }

    method RegisterBill(c: Context, b: Bill) returns (r: Result<nat, BillError>)
      modifies this
      ensures r.Ok? <==> CanRegister(old(Now()), c, b)
      ensures Now() == Step(old(Now()), Register(c, b))
      ensures r.Ok? ==> r.value == |old(bills)|
    {
      if b.amount <= 0 || b.vat < 0 {
        return Err(BadAmount);
      }
      if b.dueDate < b.billDate {
        return Err(InvalidDates);
      }
      if b.expense !in c.chart || !c.chart[b.expense].Expense? {
        return Err(NotAnExpenseAccount);
      }
      if b.receipt.Some? {
        var billable := BillableAccrual(c, bills, b.receipt.value, b.vendor, -1);
        if billable.Err? {
          return Err(billable.error);
        }
      }
      if exists i :: 0 <= i < |bills| && bills[i].number == b.number {
        return Err(DuplicateNumber);
      }
      bills := bills + [b.(status := Draft, wht := 0)];
      return Ok(|bills| - 1);
    }

    method ApproveBill(c: Context, i: nat) returns (r: Result<Bill, BillError>)
      requires i < |bills|
      modifies this
      ensures r.Ok? <==> CanApprove(old(Now()), c, i)
      ensures Now() == Step(old(Now()), Approve(c, i))
      ensures r.Ok? ==> i < |bills| && r.value == bills[i]
    {
      var bill := bills[i];
      if !bill.status.Draft? {
        return Err(WrongStatus);
      }
      var wht := WhtOf(c, bill);
      if wht.Err? {
        return Err(wht.error);
      }
      var cleared := 0;
      if bill.receipt.Some? {
        var billable := BillableAccrual(c, bills, bill.receipt.value, bill.vendor, i);
        if billable.Err? {
          return Err(billable.error);
        }
        cleared := billable.value;
      }
      var lines := ApprovalLines(bill, wht.value, cleared);
      if lines.Err? {
        return Err(NotPostable(lines.error));
      }
      var posted := PostManualJournalEntry(lines.value, c.chart, c.periodOpen);
      if posted.Err? {
        return Err(NotPostable(posted.error));
      }
      journals := journals + [Journal(i, Approval, posted.value)];
      bills := bills[i := bill.(wht := wht.value, status := Approved)];
      return Ok(bills[i]);
    }

    method PayBill(c: Context, i: nat, cash: Code) returns (r: Result<Bill, BillError>)
      requires i < |bills|
      modifies this
      ensures r.Ok? <==> CanPay(old(Now()), c, i, cash)
      ensures Now() == Step(old(Now()), Pay(c, i, cash))
      ensures r.Ok? ==> i < |bills| && r.value == bills[i]
    {
      if !bills[i].status.Approved? {
        return Err(WrongStatus);
      }
      var posted := PostManualJournalEntry(PaymentLines(bills[i], cash), c.chart, c.periodOpen);
      if posted.Err? {
        return Err(NotPostable(posted.error));
      }
      journals := journals + [Journal(i, Payment, posted.value)];
      bills := bills[i := bills[i].(status := Paid)];
      return Ok(bills[i]);
    }

    method VoidDraft(i: nat) returns (r: Result<Bill, BillError>)
      requires i < |bills|
      modifies this
      ensures r.Ok? <==> old(bills)[i].status.Draft?
      ensures Now() == Step(old(Now()), VoidBill(i))
      ensures r.Ok? ==> i < |bills| && r.value == bills[i]
    {
      if !bills[i].status.Draft? {
        return Err(WrongStatus);
      }
      bills := bills[i := bills[i].(status := Void)];
      return Ok(bills[i]);
    }
  }

  // ----- Accounts payable -----

  /** What all journals together leave on an account, debits less credits. */
  function Ledger(journals: seq<Journal>, account: Code): int {
    if journals == [] then 0
    else Ledger(journals[..|journals| - 1], account) + Balance(journals[|journals| - 1].lines, account)
  }

  function Owed(b: Bill): int {
    if b.status.Approved? then b.Net() else 0
  }

  /** What is owed to vendors: the net amount of each approved, unpaid bill. */
  function TotalOwed(bills: seq<Bill>): int {
    if bills == [] then 0 else TotalOwed(bills[..|bills| - 1]) + Owed(bills[|bills| - 1])
  }

  lemma {:induction false} TotalOwedUpdate(bills: seq<Bill>, i: nat, b: Bill)
    requires i < |bills|
    ensures TotalOwed(bills[i := b]) == TotalOwed(bills) - Owed(bills[i]) + Owed(b)
  {
    var front := bills[..|bills| - 1];
    if i == |bills| - 1 {
      assert bills[i := b][..i] == front;
    } else {
      assert bills[i := b][..|bills| - 1] == front[i := b];
      TotalOwedUpdate(front, i, b);
    }
  }

  lemma LedgerAppend(journals: seq<Journal>, j: Journal, account: Code)
    ensures Ledger(journals + [j], account) == Ledger(journals, account) + Balance(j.lines, account)
  {
    assert (journals + [j])[..|journals|] == journals;
  }

  /** The law: accounts payable holds, as a credit, exactly what is owed. */
  predicate PayablesMatch(s: State) {
    -Ledger(s.journals, ACCOUNTS_PAYABLE) == TotalOwed(s.bills)
  }

  /** Approving keeps the law exactly when the bill does not expense to
      accounts payable itself, or has nothing left to expense. */
  lemma ApprovalKeepsPayables(s: State, c: Context, i: nat)
    requires CanApprove(s, c, i) && PayablesMatch(s)
    ensures PayablesMatch(Step(s, Approve(c, i)))
            <==> s.bills[i].expense != ACCOUNTS_PAYABLE || s.bills[i].amount == Cleared(c, s.bills, i).value
  {
    var b, wht, cleared := s.bills[i], WhtOf(c, s.bills[i]).value, Cleared(c, s.bills, i).value;
    var lines := ApprovalLines(b, wht, cleared).value;
    BillJournalEffect(b.amount, b.vat, wht, b.expense, cleared, ACCOUNTS_PAYABLE);
    LedgerAppend(s.journals, Journal(i, Approval, lines), ACCOUNTS_PAYABLE);
    TotalOwedUpdate(s.bills, i, b.(wht := wht, status := Approved));
  }

  /** Paying keeps it exactly when the money does not come out of accounts
      payable. */
  lemma PaymentKeepsPayables(s: State, c: Context, i: nat, cash: Code)
    requires CanPay(s, c, i, cash) && PayablesMatch(s)
    ensures PayablesMatch(Step(s, Pay(c, i, cash))) <==> cash != ACCOUNTS_PAYABLE
  {
    var b := s.bills[i];
    var lines := PaymentLines(b, cash);
    assert IsSingleSided(lines[0]);
    TwoLines(lines[0], lines[1], ACCOUNTS_PAYABLE);
    LedgerAppend(s.journals, Journal(i, Payment, lines), ACCOUNTS_PAYABLE);
    TotalOwedUpdate(s.bills, i, b.(status := Paid));
  }

  /** An approved bill can be paid exactly when the books are open for both
      accounts and something is owed: a bill withheld in full never can. */
  lemma PayableIffSomethingIsOwed(s: State, c: Context, i: nat, cash: Code)
    requires i < |s.bills| && s.bills[i].status.Approved?
    ensures CanPay(s, c, i, cash)
            <==> c.periodOpen && ACCOUNTS_PAYABLE in c.chart && cash in c.chart && s.bills[i].Net() > 0
  {
    var lines := PaymentLines(s.bills[i], cash);
    TwoLines(lines[0], lines[1], ACCOUNTS_PAYABLE);
    assert lines[0].account == ACCOUNTS_PAYABLE && lines[1].account == cash;
  }

  /** Below a 50% withholding rate something always is. */
  lemma LowWithholdingLeavesANet(c: Context, b: Bill)
    requires b.amount > 0 && b.vat >= 0 && WhtOf(c, b).Ok?
    requires b.whtCategory.Some? ==> c.whtRates.value[b.whtCategory.value] < Money.HALF
    ensures b.(wht := WhtOf(c, b).value).Net() > 0
  {
    if b.whtCategory.Some? {
      Money.LowRateLeavesARest(b.amount, c.whtRates.value[b.whtCategory.value]);
    }
  }

  // ----- Runs -----

  /** An accepted request whose journal has accounts payable where the expense or
      the money should be: a bill that expenses something to it, or a payment out
      of it. */
  predicate PostsIntoPayables(s: State, e: Event) {
    match e
    case Approve(c, i) =>
      && CanApprove(s, c, i)
      && s.bills[i].expense == ACCOUNTS_PAYABLE && s.bills[i].amount != Cleared(c, s.bills, i).value
    case Pay(c, i, cash) => CanPay(s, c, i, cash) && cash == ACCOUNTS_PAYABLE
    case _ => false
  }

  /** A request keeps the law exactly when it does not. */
  lemma StepKeepsPayablesIff(s: State, e: Event)
    requires PayablesMatch(s)
    ensures PayablesMatch(Step(s, e)) <==> !PostsIntoPayables(s, e)
  {
    hide CanRegister, CanApprove, CanPay, PayablesMatch;
    match e {
      case Register(c, b) => RegistrationKeepsPayables(s, c, b);
      case Approve(c, i) =>
        if CanApprove(s, c, i) {
          ApprovalKeepsPayables(s, c, i);
        }
      case Pay(c, i, cash) =>
        if CanPay(s, c, i, cash) {
          PaymentKeepsPayables(s, c, i, cash);
        }
      case VoidBill(i) =>
        if i < |s.bills| && s.bills[i].status.Draft? {
          VoidKeepsPayables(s, i);
        }
    }
  }

  lemma RegistrationKeepsPayables(s: State, c: Context, b: Bill)
    requires PayablesMatch(s)
    ensures PayablesMatch(Step(s, Register(c, b)))
  {
    hide CanRegister;
    var added := b.(status := Draft, wht := 0);
    assert (s.bills + [added])[..|s.bills|] == s.bills;
  }

  lemma VoidKeepsPayables(s: State, i: nat)
    requires i < |s.bills| && s.bills[i].status.Draft? && PayablesMatch(s)
    ensures PayablesMatch(Step(s, VoidBill(i)))
  {
    TotalOwedUpdate(s.bills, i, s.bills[i].(status := Void));
  }

  /** After any run that posts nothing so, what the journals leave on accounts
      payable is the sum of the net amounts of the approved bills. */
  lemma {:induction false} AccountsPayableIsWhatIsOwed(events: seq<Event>)
    requires forall k :: 0 <= k < |events| ==> !PostsIntoPayables(Run(EMPTY, events[..k]), events[k])
    ensures var s := Run(EMPTY, events); -Ledger(s.journals, ACCOUNTS_PAYABLE) == TotalOwed(s.bills)
  {
    if events != [] {
      hide Step, PostsIntoPayables;
      var front := events[..|events| - 1];
      forall k | 0 <= k < |front|
        ensures !PostsIntoPayables(Run(EMPTY, front[..k]), front[k])
      {
        assert front[..k] == events[..k];
      }
      AccountsPayableIsWhatIsOwed(front);
      StepKeepsPayablesIff(Run(EMPTY, front), events[|events| - 1]);
    }
  }

  // ----- Goods receipts -----

  /** No two bills, void ones aside, hold the same goods receipt. */
  predicate ReceiptsAreHeldOnce(bills: seq<Bill>) {
    forall i, j ::
      0 <= i < j < |bills| && bills[i].receipt.Some? && !bills[i].status.Void? && !bills[j].status.Void? ==>
      bills[i].receipt != bills[j].receipt
  }

  /** Approval journals belong to bills approved or paid, one each. */
  predicate ApprovalsAreUnique(s: State) {
    && (forall k :: 0 <= k < |s.journals| ==>
          s.journals[k].bill < |s.bills| && s.bills[s.journals[k].bill].IsLive())
    && (forall k, l ::
          0 <= k < l < |s.journals| && s.journals[k].purpose.Approval? && s.journals[l].purpose.Approval? ==>
            s.journals[k].bill != s.journals[l].bill)
  }

  predicate Invariant(s: State) {
    ReceiptsAreHeldOnce(s.bills) && ApprovalsAreUnique(s)
  }

  lemma StepKeepsInvariant(s: State, e: Event)
    requires Invariant(s)
    ensures Invariant(Step(s, e))
  {
    hide CanApprove, CanPay, BillableAccrual;
    match e {
      case Register(c, b) =>
        if CanRegister(s, c, b) && b.receipt.Some? {
          BillableIsNotHeld(c, s.bills, b.receipt.value, b.vendor, -1);
        }
      case Approve(c, i) =>
        if CanApprove(s, c, i) {
          ApprovalIsOfADraft(s, c, i);
        }
      case Pay(c, i, cash) =>
        if CanPay(s, c, i, cash) {
          PaymentIsOfAnApproved(s, c, i, cash);
        }
      case VoidBill(i) =>
    }
  }

  lemma BillableIsNotHeld(c: Context, bills: seq<Bill>, receipt: Uuid, vendor: Uuid, bill: int)
    requires BillableAccrual(c, bills, receipt, vendor, bill).Ok?
    ensures !IsHeldByAnother(bills, receipt, bill)
  {
  }

  lemma ApprovalIsOfADraft(s: State, c: Context, i: nat)
    requires CanApprove(s, c, i)
    ensures i < |s.bills| && s.bills[i].status.Draft?
  {
  }

  lemma PaymentIsOfAnApproved(s: State, c: Context, i: nat, cash: Code)
    requires CanPay(s, c, i, cash)
    ensures i < |s.bills| && s.bills[i].status.Approved?
  {
  }

  lemma {:induction false} RunKeepsInvariant(events: seq<Event>)
    ensures Invariant(Run(EMPTY, events))
  {
    if events != [] {
      RunKeepsInvariant(events[..|events| - 1]);
      StepKeepsInvariant(Run(EMPTY, events[..|events| - 1]), events[|events| - 1]);
    }
  }

  /** Each goods receipt is cleared by at most one approval, ever: two approval
      journals are never of bills that hold the same receipt. */
  lemma ReceiptIsClearedOnce(events: seq<Event>, k: nat, l: nat)
    requires k < l < |Run(EMPTY, events).journals|
    requires Run(EMPTY, events).journals[k].purpose.Approval? && Run(EMPTY, events).journals[l].purpose.Approval?
    ensures var s := Run(EMPTY, events); var (b, d) := (s.journals[k].bill, s.journals[l].bill);
            && b < |s.bills| && d < |s.bills| && b != d
            && (s.bills[b].receipt.Some? ==> s.bills[b].receipt != s.bills[d].receipt)
  {
    RunKeepsInvariant(events);
  }

  // ----- What approval withholds and clears -----

  /** An approval withholds nothing without a category, and otherwise the nearest
      integer to the category's rate on the amount before VAT; it clears nothing
      without a receipt, and otherwise just what a posted receipt of the bill's
      vendor, held by no other live bill, accrued. */
  lemma ApprovalWithholdsAndClears(s: State, c: Context, i: nat)
    requires CanApprove(s, c, i)
    ensures var b, t := s.bills[i], Step(s, Approve(c, i));
            var lines := t.journals[|s.journals|].lines;
            && |t.bills| == |s.bills| && t.bills[i] == b.(wht := t.bills[i].wht, status := Approved)
            && t.journals == s.journals + [Journal(i, Approval, lines)]
            && (match b.whtCategory
                case None => t.bills[i].wht == 0
                case Some(category) =>
                  && c.whtRates.Some? && category in c.whtRates.value
                  && Money.IsNearestTiesUp(b.amount * c.whtRates.value[category], t.bills[i].wht))
            && (match b.receipt
                case None => b.expense != GRNI ==> Balance(lines, GRNI) == 0
                case Some(receipt) =>
                  && receipt in c.receipts && c.receipts[receipt].isPosted && c.receipts[receipt].vendor == b.vendor
                  && (forall k :: 0 <= k < |s.bills| && k != i && s.bills[k].receipt == b.receipt ==>
                        s.bills[k].status.Void?)
                  && (b.expense != GRNI ==> Some(Balance(lines, GRNI)) == c.receipts[receipt].accrual))
  {
    var b := s.bills[i];
    if b.whtCategory.Some? {
      var scaled := b.amount * c.whtRates.value[b.whtCategory.value];
      Money.RoundedIsTheNearest(scaled, Money.Rounded(scaled));
    }
    BillJournalEffect(b.amount, b.vat, WhtOf(c, b).value, b.expense, Cleared(c, s.bills, i).value, GRNI);
    hide Balance, BillLegs, LegLines, IsPostable;
  }

  // ----- What every run keeps -----

  /** Bills are for positive amounts, due no sooner than they are dated, and no
      two share a number. */
  predicate AreBillsSound(bills: seq<Bill>) {
    && (forall i :: 0 <= i < |bills| ==>
          bills[i].amount > 0 && bills[i].vat >= 0 && bills[i].billDate <= bills[i].dueDate)
    && (forall i, j :: 0 <= i < j < |bills| ==> bills[i].number != bills[j].number)
  }

  lemma {:induction false} BillsStaySound(events: seq<Event>)
    ensures AreBillsSound(Run(EMPTY, events).bills)
  {
    if events != [] {
      BillsStaySound(events[..|events| - 1]);
      StepKeepsBillsSound(Run(EMPTY, events[..|events| - 1]), events[|events| - 1]);
    }
  }

  lemma StepKeepsBillsSound(s: State, e: Event)
    requires AreBillsSound(s.bills)
    ensures AreBillsSound(Step(s, e).bills)
  {
    hide WhtOf, Cleared, ApprovalLines, IsPostable, BillableAccrual;
  }

  /** One request changes a bill only forwards: a draft is approved or voided, an
      approved bill paid; and whatever is registered is a draft on an expense
      account. */
  lemma StatusMovesForward(s: State, e: Event)
    ensures var t := Step(s, e);
            && |s.bills| <= |t.bills| <= |s.bills| + 1
            && (forall i :: 0 <= i < |s.bills| && t.bills[i] != s.bills[i] ==>
                  || (s.bills[i].status.Draft? && (t.bills[i].status.Approved? || t.bills[i].status.Void?))
                  || (s.bills[i].status.Approved? && t.bills[i].status.Paid?))
            && (|t.bills| > |s.bills| ==>
                  && e.Register? && t.bills[|s.bills|].status.Draft?
                  && e.bill.expense in e.c.chart && e.c.chart[e.bill.expense].Expense?)
  {
    hide WhtOf, Cleared, ApprovalLines, IsPostable, BillableAccrual;
  }

  /** No journal is posted in a locked period or to an account that is not in the
      chart. */
  lemma JournalsNeedOpenBooks(s: State, e: Event)
    requires Step(s, e).journals != s.journals
    ensures e.Approve? || e.Pay?
    ensures e.c.periodOpen
    ensures |Step(s, e).journals| == |s.journals| + 1
    ensures forall k :: 0 <= k < |Step(s, e).journals[|s.journals|].lines| ==>
              Step(s, e).journals[|s.journals|].lines[k].account in e.c.chart
  {
    hide WhtOf, Cleared, ApprovalLines, IsBalanced;
  }

  /** With open books and every account in the chart, a plain draft goes all the
      way: it can be approved and then paid, and leaves accounts payable as it
      was. */
  lemma PlainBillGoesThrough(s: State, c: Context, i: nat, cash: Code)
    requires i < |s.bills| && s.bills[i].status.Draft? && s.bills[i].whtCategory.None? && s.bills[i].receipt.None?
    requires s.bills[i].amount > 0 && s.bills[i].vat >= 0 && s.bills[i].expense != ACCOUNTS_PAYABLE
    requires {GRNI, s.bills[i].expense, VAT_RECEIVABLE, WHT_PAYABLE, ACCOUNTS_PAYABLE, cash} <= c.chart.Keys
    requires c.periodOpen && cash != ACCOUNTS_PAYABLE
    ensures var approved := Step(s, Approve(c, i));
            var paid := Step(approved, Pay(c, i, cash));
            && approved.bills == s.bills[i := s.bills[i].(wht := 0, status := Approved)]
            && paid.bills == s.bills[i := s.bills[i].(wht := 0, status := Paid)]
            && Ledger(paid.journals, ACCOUNTS_PAYABLE) == Ledger(s.journals, ACCOUNTS_PAYABLE)
  {
    hide Step, Ledger, Balance;
    PlainBillIsApproved(s, c, i);
    ApprovedBillIsPaid(Step(s, Approve(c, i)), c, i, cash);
  }

  lemma PlainBillIsApproved(s: State, c: Context, i: nat)
    requires i < |s.bills| && s.bills[i].status.Draft? && s.bills[i].whtCategory.None? && s.bills[i].receipt.None?
    requires s.bills[i].amount > 0 && s.bills[i].vat >= 0 && s.bills[i].expense != ACCOUNTS_PAYABLE
    requires {GRNI, s.bills[i].expense, VAT_RECEIVABLE, WHT_PAYABLE, ACCOUNTS_PAYABLE} <= c.chart.Keys && c.periodOpen
    ensures var b, t := s.bills[i], Step(s, Approve(c, i));
            && t.bills == s.bills[i := b.(wht := 0, status := Approved)]
            && Ledger(t.journals, ACCOUNTS_PAYABLE) == Ledger(s.journals, ACCOUNTS_PAYABLE) - b.amount - b.vat
  {
    var b := s.bills[i];
    PlainBillIsPostable(b, c);
    BillJournalEffect(b.amount, b.vat, 0, b.expense, 0, ACCOUNTS_PAYABLE);
    LedgerAppend(s.journals, Journal(i, Approval, ApprovalLines(b, 0, 0).value), ACCOUNTS_PAYABLE);
    hide IsPostable, Balance, BillLegs, LegLines, Ledger;
  }

  lemma ApprovedBillIsPaid(s: State, c: Context, i: nat, cash: Code)
    requires i < |s.bills| && s.bills[i].status.Approved? && s.bills[i].Net() > 0
    requires c.periodOpen && ACCOUNTS_PAYABLE in c.chart && cash in c.chart && cash != ACCOUNTS_PAYABLE
    ensures var b, t := s.bills[i], Step(s, Pay(c, i, cash));
            && t.bills == s.bills[i := b.(status := Paid)]
            && Ledger(t.journals, ACCOUNTS_PAYABLE) == Ledger(s.journals, ACCOUNTS_PAYABLE) + b.Net()
  {
    var lines := PaymentLines(s.bills[i], cash);
    PayableIffSomethingIsOwed(s, c, i, cash);
    LedgerAppend(s.journals, Journal(i, Payment, lines), ACCOUNTS_PAYABLE);
    TwoLines(lines[0], lines[1], ACCOUNTS_PAYABLE);
    hide IsPostable, Balance, Ledger;
  }

  lemma PlainBillIsPostable(b: Bill, c: Context)
    requires b.amount > 0 && b.vat >= 0 && c.periodOpen
    requires {GRNI, b.expense, VAT_RECEIVABLE, WHT_PAYABLE, ACCOUNTS_PAYABLE} <= c.chart.Keys
    ensures ApprovalLines(b, 0, 0).Ok? && IsPostable(ApprovalLines(b, 0, 0).value, c.chart, c.periodOpen)
  {
    BillJournalIsPostable(b.amount, b.vat, 0, b.expense, 0, c.chart, c.periodOpen);
    hide IsPostable;
    var legs := BillLegs(b.amount, b.vat, 0, b.expense, 0).value;
    forall k | 0 <= k < |legs|
      ensures legs[k].account in c.chart
    {
      assert legs[k] in LegsOfBill(b.amount, b.vat, 0, b.expense, 0);
    }
  }
}
