/** Invoices and the credit notes issued against them
    (app/services/credit_notes.py, app/services/invoices.py). */
module CreditNotes {
  import opened Base
  import opened Journals

  datatype Status = Draft | Sent | Paid | Void

  datatype Invoice = Invoice(number: string, revenue: Code, amount: int, issueDate: int, dueDate: int, status: Status)

  /** A credit note row: never updated or deleted. */
  datatype Note = Note(number: string, invoice: nat, amount: int)

  datatype Purpose = Sending | Payment | Credit

  /** A posted journal, tagged with the invoice row its description names. */
  datatype Journal = Journal(invoice: nat, purpose: Purpose, lines: seq<Line>)

  datatype State = State(invoices: seq<Invoice>, notes: seq<Note>, journals: seq<Journal>)

  datatype Books = Books(chart: Chart, periodOpen: bool)

  datatype InvoiceError =
    | BadAmount | InvalidDates | NotARevenueAccount | DuplicateNumber | WrongStatus | ExceedsRemaining
    | NotPostable(cause: JournalError)

  /** total_credited. */
  function TotalCredited(notes: seq<Note>, invoice: nat): int {
    if notes == [] then 0
    else
      var last := notes[|notes| - 1];
      TotalCredited(notes[..|notes| - 1], invoice) + if last.invoice == invoice then last.amount else 0
  }

  function Entry(debit: Code, credit: Code, amount: int): seq<Line> {
    [Line(debit, amount, 0), Line(credit, 0, amount)]
  }

  predicate CanRegister(s: State, b: Books, v: Invoice) {
    && v.amount > 0 && v.issueDate <= v.dueDate
    && v.revenue in b.chart && b.chart[v.revenue].Revenue?
    && (forall i :: 0 <= i < |s.invoices| ==> s.invoices[i].number != v.number)
  }

  predicate CanSend(s: State, b: Books, i: nat) {
    && i < |s.invoices| && s.invoices[i].status.Draft?
    && IsPostable(Entry(ACCOUNTS_RECEIVABLE, s.invoices[i].revenue, s.invoices[i].amount), b.chart, b.periodOpen)
  }

  predicate CanReceive(s: State, b: Books, i: nat, cash: Code) {
    && i < |s.invoices| && s.invoices[i].status.Sent?
    && IsPostable(Entry(cash, ACCOUNTS_RECEIVABLE, s.invoices[i].amount), b.chart, b.periodOpen)
  }

  /** issue_credit_note's guards, and the unique note number. */
  predicate CanCredit(s: State, b: Books, i: nat, number: string, amount: int) {
    && i < |s.invoices| && amount > 0
    && (s.invoices[i].status.Sent? || s.invoices[i].status.Paid?)
    && TotalCredited(s.notes, i) + amount <= s.invoices[i].amount
    && IsPostable(Entry(s.invoices[i].revenue, ACCOUNTS_RECEIVABLE, amount), b.chart, b.periodOpen)
    && (forall n :: 0 <= n < |s.notes| ==> s.notes[n].number != number)
  }

  datatype Event =
    | Register(b: Books, v: Invoice)
    | Send(b: Books, i: nat)
    | Receive(b: Books, i: nat, cash: Code)
    | VoidInvoice(i: nat)
    | Issue(b: Books, i: nat, number: string, amount: int)

  function SetStatus(s: State, i: nat, status: Status): State
    requires i < |s.invoices|
  {
    s.(invoices := s.invoices[i := s.invoices[i].(status := status)])
  }

  function Post(s: State, j: Journal): State {
    s.(journals := s.journals + [j])
  }

  /** A refused request rolls back. */
  function Step(s: State, e: Event): State {
    match e
    case Register(b, v) =>
      if CanRegister(s, b, v) then s.(invoices := s.invoices + [v.(status := Draft)]) else s
    case Send(b, i) =>
      if !CanSend(s, b, i) then s
      else Post(SetStatus(s, i, Sent),
                Journal(i, Sending, Entry(ACCOUNTS_RECEIVABLE, s.invoices[i].revenue, s.invoices[i].amount)))
    case Receive(b, i, cash) =>
      if !CanReceive(s, b, i, cash) then s
      else Post(SetStatus(s, i, Paid), Journal(i, Payment, Entry(cash, ACCOUNTS_RECEIVABLE, s.invoices[i].amount)))
    case VoidInvoice(i) => if i < |s.invoices| && s.invoices[i].status.Draft? then SetStatus(s, i, Void) else s
    case Issue(b, i, number, amount) =>
      if !CanCredit(s, b, i, number, amount) then s
      else Post(s.(notes := s.notes + [Note(number, i, amount)]),
                Journal(i, Credit, Entry(s.invoices[i].revenue, ACCOUNTS_RECEIVABLE, amount)))
  }

  function Run(s: State, events: seq<Event>): State {
    if events == [] then s else Step(Run(s, events[..|events| - 1]), events[|events| - 1])
  }

  const EMPTY: State := State([], [], [])

  class Receivables {
    var invoices: seq<Invoice>
    var notes: seq<Note>
    var journals: seq<Journal>

    function Now(): State
      reads this
    {
      State(invoices, notes, journals)
    }

    constructor ()
      ensures Now() == EMPTY
    {
      invoices, notes, journals := [], [], [];
    }

    method RegisterInvoice(b: Books, v: Invoice) returns (r: Result<nat, InvoiceError>)
      modifies this
      ensures r.Ok? <==> CanRegister(old(Now()), b, v)
      ensures Now() == Step(old(Now()), Register(b, v))
      ensures r.Ok? ==> r.value == |old(invoices)|
    {
      if v.amount <= 0 {
        return Err(BadAmount);
      }
      if v.dueDate < v.issueDate {
        return Err(InvalidDates);
      }
      if v.revenue !in b.chart || !b.chart[v.revenue].Revenue? {
        return Err(NotARevenueAccount);
      }
      if exists i :: 0 <= i < |invoices| && invoices[i].number == v.number {
        return Err(DuplicateNumber);
      }
      invoices := invoices + [v.(status := Draft)];
      return Ok(|invoices| - 1);
    }

    method VoidDraft(i: nat) returns (r: Result<Invoice, InvoiceError>)
      requires i < |invoices|
      modifies this
      ensures r.Ok? <==> old(invoices)[i].status.Draft?
      ensures Now() == Step(old(Now()), VoidInvoice(i))
      ensures r.Ok? ==> i < |invoices| && r.value == invoices[i]
    {
      if !invoices[i].status.Draft? {
        return Err(WrongStatus);
      }
      invoices := invoices[i := invoices[i].(status := Void)];
      return Ok(invoices[i]);
    }

    method SendInvoice(b: Books, i: nat) returns (r: Result<Invoice, InvoiceError>)
      requires i < |invoices|
      modifies this
      ensures r.Ok? <==> CanSend(old(Now()), b, i)
      ensures Now() == Step(old(Now()), Send(b, i))
      ensures r.Ok? ==> i < |invoices| && r.value == invoices[i]
    {
      var invoice := invoices[i];
      if !invoice.status.Draft? {
        return Err(WrongStatus);
      }
      var lines := Entry(ACCOUNTS_RECEIVABLE, invoice.revenue, invoice.amount);
      var posted := PostManualJournalEntry(lines, b.chart, b.periodOpen);
      if posted.Err? {
        return Err(NotPostable(posted.error));
      }
      journals := journals + [Journal(i, Sending, posted.value)];
      invoices := invoices[i := invoice.(status := Sent)];
      return Ok(invoices[i]);
    }

    method RecordInvoicePayment(b: Books, i: nat, cash: Code) returns (r: Result<Invoice, InvoiceError>)
      requires i < |invoices|
      modifies this
      ensures r.Ok? <==> CanReceive(old(Now()), b, i, cash)
      ensures Now() == Step(old(Now()), Receive(b, i, cash))
      ensures r.Ok? ==> i < |invoices| && r.value == invoices[i]
    {
      var invoice := invoices[i];
      if !invoice.status.Sent? {
        return Err(WrongStatus);
      }
      var posted := PostManualJournalEntry(Entry(cash, ACCOUNTS_RECEIVABLE, invoice.amount), b.chart, b.periodOpen);
      if posted.Err? {
        return Err(NotPostable(posted.error));
      }
      journals := journals + [Journal(i, Payment, posted.value)];
      invoices := invoices[i := invoice.(status := Paid)];
      return Ok(invoices[i]);
    }

    method IssueCreditNote(b: Books, i: nat, number: string, amount: int) returns (r: Result<Note, InvoiceError>)
      requires i < |invoices|
      modifies this
      ensures r.Ok? <==> CanCredit(old(Now()), b, i, number, amount)
      ensures Now() == Step(old(Now()), Issue(b, i, number, amount))
      ensures r.Ok? ==> r.value == Note(number, i, amount)
    {
      if amount <= 0 {
        return Err(BadAmount);
      }
      var invoice := invoices[i];
      if !invoice.status.Sent? && !invoice.status.Paid? {
        return Err(WrongStatus);
      }
      var alreadyCredited := SumNotes(i);
      if alreadyCredited + amount > invoice.amount {
        return Err(ExceedsRemaining);
      }
      var posted := PostManualJournalEntry(Entry(invoice.revenue, ACCOUNTS_RECEIVABLE, amount), b.chart, b.periodOpen);
      if posted.Err? {
        return Err(NotPostable(posted.error));
      }
      if exists n :: 0 <= n < |notes| && notes[n].number == number {
        return Err(DuplicateNumber);
      }
      journals := journals + [Journal(i, Credit, posted.value)];
      notes := notes + [Note(number, i, amount)];
      return Ok(notes[|notes| - 1]);
    }

    method SumNotes(i: nat) returns (total: int)
      ensures total == TotalCredited(notes, i)
    {
      total := 0;
      for n := 0 to |notes|
        invariant total == TotalCredited(notes[..n], i)
      {
        assert notes[..n + 1][..n] == notes[..n];
        if notes[n].invoice == i {
          total := total + notes[n].amount;
        }
      }
      assert notes[..|notes|] == notes;
    }
  }

  // ----- What the journals of one invoice add up to -----

  function On(journals: seq<Journal>, invoice: nat, only: set<Purpose>, account: Code): int {
    if journals == [] then 0
    else
      var last := journals[|journals| - 1];
      On(journals[..|journals| - 1], invoice, only, account)
      + if last.invoice == invoice && last.purpose in only then Balance(last.lines, account) else 0
  }

  const ALL: set<Purpose> := {Sending, Payment, Credit}

  lemma OnAppend(journals: seq<Journal>, j: Journal, invoice: nat, only: set<Purpose>, account: Code)
    ensures On(journals + [j], invoice, only, account)
            == On(journals, invoice, only, account)
             + if j.invoice == invoice && j.purpose in only then Balance(j.lines, account) else 0
  {
    assert (journals + [j])[..|journals|] == journals;
  }

  lemma EntryEffect(debit: Code, credit: Code, amount: int, account: Code)
    ensures Balance(Entry(debit, credit, amount), account)
            == (if debit == account then amount else 0) - if credit == account then amount else 0
  {
    TwoLines(Line(debit, amount, 0), Line(credit, 0, amount), account);
  }

  lemma CreditedAppend(notes: seq<Note>, n: Note, invoice: nat)
    ensures TotalCredited(notes + [n], invoice)
            == TotalCredited(notes, invoice) + if n.invoice == invoice then n.amount else 0
  {
    assert (notes + [n])[..|notes|] == notes;
  }

  // ----- What the notes of one invoice posted, side by side -----

  function Debits(lines: seq<Line>, account: Code): int {
    if lines == [] then 0
    else
      var last := lines[|lines| - 1];
      Debits(lines[..|lines| - 1], account) + if last.account == account then last.debit else 0
  }

  function Credits(lines: seq<Line>, account: Code): int {
    if lines == [] then 0
    else
      var last := lines[|lines| - 1];
      Credits(lines[..|lines| - 1], account) + if last.account == account then last.credit else 0
  }

  /** What an invoice's credit journals debit to an account. */
  function NotedDebits(journals: seq<Journal>, invoice: nat, account: Code): int {
    if journals == [] then 0
    else
      var last := journals[|journals| - 1];
      NotedDebits(journals[..|journals| - 1], invoice, account)
      + if last.invoice == invoice && last.purpose.Credit? then Debits(last.lines, account) else 0
  }

  /** And what they credit to it. */
  function NotedCredits(journals: seq<Journal>, invoice: nat, account: Code): int {
    if journals == [] then 0
    else
      var last := journals[|journals| - 1];
      NotedCredits(journals[..|journals| - 1], invoice, account)
      + if last.invoice == invoice && last.purpose.Credit? then Credits(last.lines, account) else 0
  }

  lemma EntrySides(debit: Code, credit: Code, amount: int, account: Code)
    ensures Debits(Entry(debit, credit, amount), account) == if debit == account then amount else 0
    ensures Credits(Entry(debit, credit, amount), account) == if credit == account then amount else 0
  {
    var lines := Entry(debit, credit, amount);
    var one, none := lines[..1], lines[..0];
    assert one[..0] == none == [];
    assert Debits(one, account) == Debits(none, account) + if debit == account then amount else 0;
    assert Credits(one, account) == Credits(none, account);
  }

  lemma NotedAppend(journals: seq<Journal>, j: Journal, invoice: nat, account: Code)
    ensures NotedDebits(journals + [j], invoice, account) == NotedDebits(journals, invoice, account)
            + if j.invoice == invoice && j.purpose.Credit? then Debits(j.lines, account) else 0
    ensures NotedCredits(journals + [j], invoice, account) == NotedCredits(journals, invoice, account)
            + if j.invoice == invoice && j.purpose.Credit? then Credits(j.lines, account) else 0
  {
    assert (journals + [j])[..|journals|] == journals;
  }

  /** One invoice against its notes: at most its amount is ever credited, and its
      credit journals debit its revenue account, and credit the receivable, by
      exactly the sum of its notes, and touch no other account. */
  predicate NotesMatch(s: State, i: nat, account: Code)
    requires i < |s.invoices|
  {
    var v, credited := s.invoices[i], TotalCredited(s.notes, i);
    && 0 <= credited <= v.amount
    && NotedDebits(s.journals, i, account) == (if account == v.revenue then credited else 0)
    && NotedCredits(s.journals, i, account) == (if account == ACCOUNTS_RECEIVABLE then credited else 0)
  }

  /** Rows point at rows that exist, and every amount is positive. */
  predicate IsSound(s: State) {
    && (forall i :: 0 <= i < |s.invoices| ==> s.invoices[i].amount > 0)
    && (forall n :: 0 <= n < |s.notes| ==> s.notes[n].invoice < |s.invoices| && s.notes[n].amount > 0)
    && (forall k :: 0 <= k < |s.journals| ==> s.journals[k].invoice < |s.invoices|)
  }

  lemma {:induction false} NothingYet(s: State, i: nat, account: Code)
    requires forall n :: 0 <= n < |s.notes| ==> s.notes[n].invoice != i
    requires forall k :: 0 <= k < |s.journals| ==> s.journals[k].invoice != i
    ensures TotalCredited(s.notes, i) == 0 && On(s.journals, i, ALL, account) == 0
    ensures NotedDebits(s.journals, i, account) == 0 && NotedCredits(s.journals, i, account) == 0
    decreases |s.notes| + |s.journals|
  {
    if s.notes != [] {
      NothingYet(s.(notes := s.notes[..|s.notes| - 1]), i, account);
    } else if s.journals != [] {
      NothingYet(s.(journals := s.journals[..|s.journals| - 1]), i, account);
    }
  }

  lemma StepKeepsSound(s: State, e: Event)
    requires IsSound(s)
    ensures IsSound(Step(s, e))
  {
    hide IsPostable, TotalCredited, Entry;
  }

  lemma StepKeepsNotes(s: State, e: Event, i: nat, account: Code)
    requires IsSound(s) && i < |s.invoices| && NotesMatch(s, i, account)
    ensures i < |Step(s, e).invoices| && NotesMatch(Step(s, e), i, account)
  {
    hide IsPostable, NotedDebits, NotedCredits, Debits, Credits, TotalCredited, Entry;
    if Step(s, e) != s {
      match e {
        case Send(b, k) =>
          var v := s.invoices[k];
          NotedAppend(s.journals, Journal(k, Sending, Entry(ACCOUNTS_RECEIVABLE, v.revenue, v.amount)), i, account);
        case Receive(b, k, cash) =>
          var v := s.invoices[k];
          NotedAppend(s.journals, Journal(k, Payment, Entry(cash, ACCOUNTS_RECEIVABLE, v.amount)), i, account);
        case Issue(b, k, number, amount) =>
          var v := s.invoices[k];
          NotedAppend(s.journals, Journal(k, Credit, Entry(v.revenue, ACCOUNTS_RECEIVABLE, amount)), i, account);
          EntrySides(v.revenue, ACCOUNTS_RECEIVABLE, amount, account);
          CreditedAppend(s.notes, Note(number, k, amount), i);
        case _ =>
      }
    }
  }

  /** Over every run, with no condition on the chart or the requests: no invoice
      is ever credited past its amount, and its credit journals carry exactly
      its notes. */
  lemma {:induction false} CreditsStayWithinTheInvoice(events: seq<Event>, i: nat, account: Code)
    ensures IsSound(Run(EMPTY, events))
    ensures i < |Run(EMPTY, events).invoices| ==> NotesMatch(Run(EMPTY, events), i, account)
  {
    if events != [] {
      var front, e := events[..|events| - 1], events[|events| - 1];
      CreditsStayWithinTheInvoice(front, i, account);
      StepKeepsSound(Run(EMPTY, front), e);
      hide Step, NotesMatch, IsSound;
      if i < |Run(EMPTY, front).invoices| {
        StepKeepsNotes(Run(EMPTY, front), e, i, account);
      } else if i < |Run(EMPTY, events).invoices| {
        NewInvoiceMatches(Run(EMPTY, front), e, i, account);
      }
    }
  }

  lemma NewInvoiceMatches(s: State, e: Event, i: nat, account: Code)
    requires IsSound(s) && |s.invoices| <= i < |Step(s, e).invoices|
    ensures NotesMatch(Step(s, e), i, account) && ReceivableMatches(Step(s, e), i)
  {
    hide TotalCredited, NotedDebits, NotedCredits, On;
    StepKeepsSound(s, e);
    NothingYet(Step(s, e), i, account);
    NothingYet(Step(s, e), i, ACCOUNTS_RECEIVABLE);
  }

  // ----- What is left receivable -----

  /** All an invoice's journals together leave its amount on the receivable while
      it is sent, and nothing otherwise, less what was credited. */
  predicate ReceivableMatches(s: State, i: nat)
    requires i < |s.invoices|
  {
    On(s.journals, i, ALL, ACCOUNTS_RECEIVABLE)
    == (if s.invoices[i].status.Sent? then s.invoices[i].amount else 0) - TotalCredited(s.notes, i)
  }

  /** An accepted request whose journal for invoice i has the receivable on both
      sides: the invoice earns into it, or is paid into it. */
  predicate PostsIntoReceivable(s: State, e: Event, i: nat) {
    match e
    case Send(b, k) => k == i && CanSend(s, b, k) && s.invoices[k].revenue == ACCOUNTS_RECEIVABLE
    case Receive(b, k, cash) => k == i && CanReceive(s, b, k, cash) && cash == ACCOUNTS_RECEIVABLE
    case Issue(b, k, number, amount) =>
      k == i && CanCredit(s, b, k, number, amount) && s.invoices[k].revenue == ACCOUNTS_RECEIVABLE
    case _ => false
  }

  /** A request keeps that law exactly when it does not. */
  lemma StepKeepsReceivableIff(s: State, e: Event, i: nat)
    requires IsSound(s) && i < |s.invoices| && ReceivableMatches(s, i)
    ensures i < |Step(s, e).invoices|
    ensures ReceivableMatches(Step(s, e), i) <==> !PostsIntoReceivable(s, e, i)
  {
    hide IsPostable, On, TotalCredited, Entry, ALL;
    if Step(s, e) != s {
      match e {
        case Send(b, k) =>
          var v := s.invoices[k];
          PostedEffect(s, Journal(k, Sending, Entry(ACCOUNTS_RECEIVABLE, v.revenue, v.amount)), i);
          EntryEffect(ACCOUNTS_RECEIVABLE, v.revenue, v.amount, ACCOUNTS_RECEIVABLE);
        case Receive(b, k, cash) =>
          var v := s.invoices[k];
          PostedEffect(s, Journal(k, Payment, Entry(cash, ACCOUNTS_RECEIVABLE, v.amount)), i);
          EntryEffect(cash, ACCOUNTS_RECEIVABLE, v.amount, ACCOUNTS_RECEIVABLE);
        case Issue(b, k, number, amount) =>
          var v := s.invoices[k];
          PostedEffect(s, Journal(k, Credit, Entry(v.revenue, ACCOUNTS_RECEIVABLE, amount)), i);
          EntryEffect(v.revenue, ACCOUNTS_RECEIVABLE, amount, ACCOUNTS_RECEIVABLE);
          CreditedAppend(s.notes, Note(number, k, amount), i);
        case _ =>
      }
    }
  }

  lemma PostedEffect(s: State, j: Journal, i: nat)
    ensures On(Post(s, j).journals, i, ALL, ACCOUNTS_RECEIVABLE)
            == On(s.journals, i, ALL, ACCOUNTS_RECEIVABLE)
             + if j.invoice == i then Balance(j.lines, ACCOUNTS_RECEIVABLE) else 0
  {
    assert j.purpose.Sending? || j.purpose.Payment? || j.purpose.Credit?;
    assert j.purpose in ALL;
    OnAppend(s.journals, j, i, ALL, ACCOUNTS_RECEIVABLE);
  }

  /** No request of a run posts into the receivable for invoice i. */
  predicate NeverPostsIntoReceivable(events: seq<Event>, i: nat) {
    forall k :: 0 <= k < |events| ==> !PostsIntoReceivable(Run(EMPTY, events[..k]), events[k], i)
  }

  /** So it holds over every run that posts nothing of the invoice so. */
  lemma {:induction false} ReceivableIsWhatIsLeft(events: seq<Event>, i: nat)
    requires i < |Run(EMPTY, events).invoices| && NeverPostsIntoReceivable(events, i)
    ensures ReceivableMatches(Run(EMPTY, events), i)
  {
    if events != [] {
      hide Step, ReceivableMatches, PostsIntoReceivable, IsSound, NotesMatch;
      var front, e := events[..|events| - 1], events[|events| - 1];
      CreditsStayWithinTheInvoice(front, i, ACCOUNTS_RECEIVABLE);
      forall k | 0 <= k < |front|
        ensures !PostsIntoReceivable(Run(EMPTY, front[..k]), front[k], i)
      {
        assert front[..k] == events[..k];
      }
      if i < |Run(EMPTY, front).invoices| {
        ReceivableIsWhatIsLeft(front, i);
        StepKeepsReceivableIff(Run(EMPTY, front), e, i);
      } else {
        NewInvoiceMatches(Run(EMPTY, front), e, i, ACCOUNTS_RECEIVABLE);
      }
    }
  }

  /** The credited total of an invoice never falls. */
  lemma {:induction false} CreditedNeverFalls(s: State, events: seq<Event>, i: nat)
    ensures TotalCredited(s.notes, i) <= TotalCredited(Run(s, events).notes, i)
  {
    hide Step, TotalCredited;
    if events != [] {
      CreditedNeverFalls(s, events[..|events| - 1], i);
      StepNeverLowersCredit(Run(s, events[..|events| - 1]), events[|events| - 1], i);
    }
  }

  lemma StepNeverLowersCredit(s: State, e: Event, i: nat)
    ensures TotalCredited(s.notes, i) <= TotalCredited(Step(s, e).notes, i)
  {
    hide IsPostable, TotalCredited, Entry;
    if e.Issue? {
      CreditedAppend(s.notes, Note(e.number, e.i, e.amount), i);
    }
  }

  /** A payment is always recorded in full, so a paid invoice leaves nothing
      receivable exactly when it was never credited; otherwise the customer is
      left in credit by the whole credited amount. */
  lemma PaidAndCreditedLeavesACredit(events: seq<Event>, i: nat)
    requires NeverPostsIntoReceivable(events, i)
    requires i < |Run(EMPTY, events).invoices| && Run(EMPTY, events).invoices[i].status.Paid?
    ensures var s := Run(EMPTY, events);
            && On(s.journals, i, ALL, ACCOUNTS_RECEIVABLE) == -TotalCredited(s.notes, i)
            && (On(s.journals, i, ALL, ACCOUNTS_RECEIVABLE) == 0
                <==> forall n :: 0 <= n < |s.notes| ==> s.notes[n].invoice != i)
  {
    var s := Run(EMPTY, events);
    CreditsStayWithinTheInvoice(events, i, ACCOUNTS_RECEIVABLE);
    ReceivableIsWhatIsLeft(events, i);
    CreditedIsZeroIff(s.notes, i);
  }

  lemma {:induction false} CreditedIsZeroIff(notes: seq<Note>, i: nat)
    requires forall n :: 0 <= n < |notes| ==> notes[n].amount > 0
    ensures TotalCredited(notes, i) >= 0
    ensures TotalCredited(notes, i) == 0 <==> forall n :: 0 <= n < |notes| ==> notes[n].invoice != i
  {
    if notes != [] {
      CreditedIsZeroIff(notes[..|notes| - 1], i);
    }
  }

  // ----- What every run keeps -----

  /** Invoices and notes have positive amounts and numbers of their own, an
      invoice is due no sooner than it is issued, and no note is of a draft or of
      a void invoice. */
  predicate AreRowsSound(s: State) {
    && (forall i :: 0 <= i < |s.invoices| ==>
          s.invoices[i].amount > 0 && s.invoices[i].issueDate <= s.invoices[i].dueDate)
    && (forall i, j :: 0 <= i < j < |s.invoices| ==> s.invoices[i].number != s.invoices[j].number)
    && (forall m, n :: 0 <= m < n < |s.notes| ==> s.notes[m].number != s.notes[n].number)
    && (forall n :: 0 <= n < |s.notes| ==>
          && s.notes[n].amount > 0 && s.notes[n].invoice < |s.invoices|
          && !s.invoices[s.notes[n].invoice].status.Draft? && !s.invoices[s.notes[n].invoice].status.Void?)
  }

  lemma {:induction false} RowsStaySound(events: seq<Event>)
    ensures AreRowsSound(Run(EMPTY, events))
  {
    if events != [] {
      RowsStaySound(events[..|events| - 1]);
      StepKeepsRowsSound(Run(EMPTY, events[..|events| - 1]), events[|events| - 1]);
    }
  }

  lemma StepKeepsRowsSound(s: State, e: Event)
    requires AreRowsSound(s)
    ensures AreRowsSound(Step(s, e))
  {
    hide IsPostable, TotalCredited, Entry;
  }

  /** One request changes an invoice only forwards: a draft is sent or voided, a
      sent one paid; and whatever is registered is a draft on a revenue account. */
  lemma StatusMovesForward(s: State, e: Event)
    ensures var t := Step(s, e);
            && |s.invoices| <= |t.invoices| <= |s.invoices| + 1
            && (forall i :: 0 <= i < |s.invoices| && t.invoices[i] != s.invoices[i] ==>
                  || (s.invoices[i].status.Draft? && (t.invoices[i].status.Sent? || t.invoices[i].status.Void?))
                  || (s.invoices[i].status.Sent? && t.invoices[i].status.Paid?))
            && (|t.invoices| > |s.invoices| ==>
                  && e.Register? && t.invoices[|s.invoices|].status.Draft?
                  && e.v.revenue in e.b.chart && e.b.chart[e.v.revenue].Revenue?)
  {
    hide TotalCredited, IsPostable, Entry;
  }

  /** No journal is posted in a locked period or to an account that is not in the
      chart. */
  lemma JournalsNeedOpenBooks(s: State, e: Event)
    requires Step(s, e).journals != s.journals
    ensures e.Send? || e.Receive? || e.Issue?
    ensures e.b.periodOpen
    ensures |Step(s, e).journals| == |s.journals| + 1
    ensures forall k :: 0 <= k < |Step(s, e).journals[|s.journals|].lines| ==>
              Step(s, e).journals[|s.journals|].lines[k].account in e.b.chart
  {
    hide TotalCredited, IsBalanced;
  }

  /** With open books, a sent or paid invoice can be credited by any positive
      amount up to what is left of it, and by no other. */
  lemma CreditIsAcceptedUpToTheRest(s: State, b: Books, i: nat, number: string, amount: int)
    requires i < |s.invoices| && (s.invoices[i].status.Sent? || s.invoices[i].status.Paid?)
    requires b.periodOpen && s.invoices[i].revenue in b.chart && ACCOUNTS_RECEIVABLE in b.chart
    requires forall n :: 0 <= n < |s.notes| ==> s.notes[n].number != number
    ensures var t := Step(s, Issue(b, i, number, amount));
            TotalCredited(t.notes, i)
            == TotalCredited(s.notes, i)
               + if 0 < amount <= s.invoices[i].amount - TotalCredited(s.notes, i) then amount else 0
  {
    if amount > 0 {
      EntryIsPostable(s.invoices[i].revenue, ACCOUNTS_RECEIVABLE, amount, b);
    }
    CreditedAppend(s.notes, Note(number, i, amount), i);
    hide IsPostable, Entry, TotalCredited;
  }

  lemma EntryIsPostable(debit: Code, credit: Code, amount: int, b: Books)
    requires amount > 0 && b.periodOpen && debit in b.chart && credit in b.chart
    ensures IsPostable(Entry(debit, credit, amount), b.chart, b.periodOpen)
  {
    TwoLines(Line(debit, amount, 0), Line(credit, 0, amount), debit);
  }

  /** And a draft invoice can be sent and then paid in full. */
  lemma DraftCanBeSentAndPaid(s: State, b: Books, i: nat, cash: Code)
    requires i < |s.invoices| && s.invoices[i].status.Draft? && s.invoices[i].amount > 0
    requires b.periodOpen && s.invoices[i].revenue in b.chart && ACCOUNTS_RECEIVABLE in b.chart && cash in b.chart
    ensures var sent := Step(s, Send(b, i));
            var paid := Step(sent, Receive(b, i, cash));
            && sent.invoices == s.invoices[i := s.invoices[i].(status := Sent)]
            && paid.invoices == s.invoices[i := s.invoices[i].(status := Paid)]
            && paid.notes == s.notes
  {
    var v := s.invoices[i];
    EntryIsPostable(ACCOUNTS_RECEIVABLE, v.revenue, v.amount, b);
    EntryIsPostable(cash, ACCOUNTS_RECEIVABLE, v.amount, b);
    hide IsPostable, Entry;
  }
}
