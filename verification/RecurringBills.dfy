/** Recurring-bill templates (app/services/recurring_bills.py): a run registers
    one bill per due template, numbered by prefix and date, and moves the
    template one occurrence on. */
module RecurringBills {
  import opened Base
  import opened Recurrence

  /** `expense` is the account code, only ever looked up. */
  datatype Template = Template(
    isActive: bool, frequency: Frequency, nextRunDate: Date,
    prefix: string, expense: nat, amount: int, vat: int, dueInDays: int)

  /** A generated bill: which template (by row position), and its bill date. */
  datatype DatedBill = DatedBill(template: nat, billDate: Date)

  /** `numbers` holds the number of every bill of the organisation, however it
      was registered; `bills` the generated ones. */
  datatype Table = Table(templates: seq<Template>, bills: seq<DatedBill>, numbers: set<string>)

  datatype RunError =
    | BadAmount | InvalidDates | NotAnExpenseAccount | NumberTooLong | DuplicateNumber | OutOfCalendar(cause: DateError)

  // ----- Bill numbers -----

  function Digit(n: int): (c: char)
    requires 0 <= n < 10
    ensures c as int == '0' as int + n
  {
    ('0' as int + n) as char
  }

  function TwoDigits(n: int): string
    requires 0 <= n < 100
  {
    [Digit(n / 10), Digit(n % 10)]
  }

  /** date.isoformat: YYYY-MM-DD. */
  function Iso(d: Date): (s: string)
    ensures |s| == 10
  {
    TwoDigits(d.year / 100) + TwoDigits(d.year % 100) + "-" + TwoDigits(d.month) + "-" + TwoDigits(d.day)
  }

  function BillNumber(prefix: string, d: Date): string {
    prefix + "-" + Iso(d)
  }

  /** The column's width. */
  const NUMBER_LENGTH: int := 64

  lemma TwoDigitsAreUnique(m: int, n: int)
    requires 0 <= m < 100 && 0 <= n < 100 && TwoDigits(m) == TwoDigits(n)
    ensures m == n
  {
    assert TwoDigits(m)[0] == TwoDigits(n)[0] && TwoDigits(m)[1] == TwoDigits(n)[1];
  }

  lemma IsoIsUnique(a: Date, b: Date)
    requires Iso(a) == Iso(b)
    ensures a == b
  {
    hide TwoDigits;
    TwoDigitsLength(a);
    TwoDigitsLength(b);
    assert Iso(a)[0..2] == Iso(b)[0..2] && Iso(a)[2..4] == Iso(b)[2..4];
    assert Iso(a)[5..7] == Iso(b)[5..7] && Iso(a)[8..10] == Iso(b)[8..10];
    TwoDigitsAreUnique(a.year / 100, b.year / 100);
    TwoDigitsAreUnique(a.year % 100, b.year % 100);
    TwoDigitsAreUnique(a.month, b.month);
    TwoDigitsAreUnique(a.day, b.day);
  }

  lemma TwoDigitsLength(d: Date)
    ensures Iso(d)[0..2] == TwoDigits(d.year / 100) && Iso(d)[2..4] == TwoDigits(d.year % 100)
    ensures Iso(d)[5..7] == TwoDigits(d.month) && Iso(d)[8..10] == TwoDigits(d.day)
  {
  }

  /** Two bill numbers are the same exactly when prefix and date both are,
      whatever dashes and digits the prefixes hold. */
  lemma NumberTellsPrefixAndDate(p: string, a: Date, q: string, b: Date)
    ensures BillNumber(p, a) == BillNumber(q, b) <==> p == q && a == b
  {
    hide Iso;
    if BillNumber(p, a) == BillNumber(q, b) {
      var m, n := BillNumber(p, a), BillNumber(q, b);
      assert |m| == |p| + 11 && |n| == |q| + 11;
      assert m[..|p|] == p && n[..|q|] == q;
      assert m[|p| + 1..] == Iso(a) && n[|q| + 1..] == Iso(b);
      IsoIsUnique(a, b);
    }
  }

  // ----- One run -----

  predicate IsDue(t: Template, asOf: Date) {
    t.isActive && !Before(asOf, t.nextRunDate)
  }

  /** The guards of register_bill that look at one template alone, the due
      date's own range and the number's length included. */
  function Refusal(t: Template, expenses: set<nat>): Option<RunError> {
    if Ordinal(t.nextRunDate) + t.dueInDays > Ordinal(RawDate(MAX_YEAR, 12, 31)) then Some(InvalidDates)
    else if t.amount <= 0 || t.vat < 0 then Some(BadAmount)
    else if t.dueInDays < 0 then Some(InvalidDates)
    else if t.expense !in expenses then Some(NotAnExpenseAccount)
    else if |BillNumber(t.prefix, t.nextRunDate)| > NUMBER_LENGTH then Some(NumberTooLong)
    else None
  }

  /** Every due template is billable by itself and has a next occurrence. */
  predicate AreBillable(templates: seq<Template>, asOf: Date, expenses: set<nat>) {
    forall i :: 0 <= i < |templates| && IsDue(templates[i], asOf) ==>
      && Refusal(templates[i], expenses).None?
      && NextOccurrence(templates[i].nextRunDate, templates[i].frequency).Ok?
  }

  function NumberOf(t: Template): string {
    BillNumber(t.prefix, t.nextRunDate)
  }

  /** The due templates' numbers are new, and differ from each other. */
  predicate NumbersAreFree(s: Table, asOf: Date) {
    && (forall i :: 0 <= i < |s.templates| && IsDue(s.templates[i], asOf) ==> NumberOf(s.templates[i]) !in s.numbers)
    && (forall i, j :: 0 <= i < j < |s.templates| && IsDue(s.templates[i], asOf) && IsDue(s.templates[j], asOf) ==>
          NumberOf(s.templates[i]) != NumberOf(s.templates[j]))
  }

  predicate CanGenerate(s: Table, asOf: Date, expenses: set<nat>) {
    AreBillable(s.templates, asOf, expenses) && NumbersAreFree(s, asOf)
  }

  function Advance(t: Template, asOf: Date): Template
    requires IsDue(t, asOf) ==> NextOccurrence(t.nextRunDate, t.frequency).Ok?
  {
    if IsDue(t, asOf) then t.(nextRunDate := NextOccurrence(t.nextRunDate, t.frequency).value) else t
  }

  function Advanced(templates: seq<Template>, asOf: Date, expenses: set<nat>): (after: seq<Template>)
    requires AreBillable(templates, asOf, expenses)
    ensures |after| == |templates|
  {
    seq(|templates|, i requires 0 <= i < |templates| => Advance(templates[i], asOf))
  }

  /** The bills of the due templates among the first n, in row order. */
  function BillsDue(templates: seq<Template>, asOf: Date, n: nat): seq<DatedBill>
    requires n <= |templates|
  {
    if n == 0 then []
    else BillsDue(templates, asOf, n - 1)
         + if IsDue(templates[n - 1], asOf) then [DatedBill(n - 1, templates[n - 1].nextRunDate)] else []
  }

  /** And their numbers. */
  function NumbersDue(templates: seq<Template>, asOf: Date, n: nat): set<string>
    requires n <= |templates|
  {
    if n == 0 then {}
    else NumbersDue(templates, asOf, n - 1) + if IsDue(templates[n - 1], asOf) then {NumberOf(templates[n - 1])} else {}
  }

  class RecurringBillTable {
    var templates: seq<Template>
    var bills: seq<DatedBill>
    var numbers: set<string>

    function Now(): Table
      reads this
    {
      Table(templates, bills, numbers)
    }

    constructor (templates: seq<Template>, numbers: set<string>)
      ensures Now() == Table(templates, [], numbers)
    {
      this.templates, bills, this.numbers := templates, [], numbers;
    }

    /** generate_due_bills: all due templates bill and move on, or, when one of
        them is refused its bill or leaves the calendar, the transaction rolls
        back. `expenses` holds the chart's expense accounts. */
    method GenerateDueBills(asOf: Date, expenses: set<nat>) returns (r: Result<seq<DatedBill>, RunError>)
      modifies this
      ensures r.Ok? <==> CanGenerate(old(Now()), asOf, expenses)
      ensures r.Ok? ==> r.value == BillsDue(old(templates), asOf, |old(templates)|)
      ensures Now() == Step(old(Now()), Generate(asOf, expenses))
    {
      hide NextOccurrence, Before, BillNumber, Refusal, CanGenerate, NumberOf;
      var rows, generated, taken := templates, [], numbers;
      var i := 0;
      NothingToGenerate(Now(), asOf, expenses);
      while i < |templates|
        invariant Now() == old(Now())
        invariant 0 <= i <= |templates| == |rows|
        invariant CanGenerate(FirstOf(Now(), i), asOf, expenses)
        invariant forall j :: 0 <= j < i ==> IsAdvanced(templates[j], rows[j], asOf)
        invariant forall j :: i <= j < |rows| ==> rows[j] == templates[j]
        invariant generated == BillsDue(templates, asOf, i)
        invariant taken == numbers + NumbersDue(templates, asOf, i)
      {
        var t := rows[i];
        OneMoreTemplate(Now(), i, asOf, expenses);
        if IsDue(t, asOf) {
          var refusal := Refusal(t, expenses);
          if refusal.Some? {
            return Err(refusal.value);
          }
          if NumberOf(t) in taken {
            return Err(DuplicateNumber);
          }
          taken := taken + {NumberOf(t)};
          generated := generated + [DatedBill(i, t.nextRunDate)];
          var next := NextOccurrence(t.nextRunDate, t.frequency);
          if next.Err? {
            return Err(OutOfCalendar(next.error));
          }
          rows := rows[i := t.(nextRunDate := next.value)];
        }
        i := i + 1;
      }
      assert FirstOf(Now(), i) == Now();
      GenerateMeansBillable(Now(), asOf, expenses);
      AllAdvanced(templates, rows, asOf, expenses);
      templates, bills, numbers := rows, bills + generated, taken;
      return Ok(generated);
    }
  }

  /** The table as the first n templates would have it. */
  function FirstOf(s: Table, n: nat): Table
    requires n <= |s.templates|
  {
    s.(templates := s.templates[..n])
  }

  predicate IsAdvanced(t: Template, row: Template, asOf: Date) {
    && (IsDue(t, asOf) ==> NextOccurrence(t.nextRunDate, t.frequency).Ok?)
    && row == Advance(t, asOf)
  }

  lemma AllAdvanced(templates: seq<Template>, rows: seq<Template>, asOf: Date, expenses: set<nat>)
    requires |rows| == |templates| && forall j :: 0 <= j < |rows| ==> IsAdvanced(templates[j], rows[j], asOf)
    requires AreBillable(templates, asOf, expenses)
    ensures rows == Advanced(templates, asOf, expenses)
  {
    hide NextOccurrence, Before, BillNumber, Refusal, NumbersAreFree;
  }

  lemma GenerateMeansBillable(s: Table, asOf: Date, expenses: set<nat>)
    requires CanGenerate(s, asOf, expenses)
    ensures AreBillable(s.templates, asOf, expenses)
  {
  }

  lemma NothingToGenerate(s: Table, asOf: Date, expenses: set<nat>)
    ensures CanGenerate(FirstOf(s, 0), asOf, expenses)
  {
  }

  predicate IsSettled(t: Template, expenses: set<nat>) {
    Refusal(t, expenses).None? && NextOccurrence(t.nextRunDate, t.frequency).Ok?
  }

  /** One template more can be generated for exactly when it is not due, or is
      settled and its number is not taken by then; and if it cannot, neither can
      the whole table. */
  lemma OneMoreTemplate(s: Table, n: nat, asOf: Date, expenses: set<nat>)
    requires n < |s.templates| && CanGenerate(FirstOf(s, n), asOf, expenses)
    ensures CanGenerate(FirstOf(s, n + 1), asOf, expenses) <==>
              (IsDue(s.templates[n], asOf) ==>
                IsSettled(s.templates[n], expenses)
                    && NumberOf(s.templates[n]) !in s.numbers + NumbersDue(s.templates, asOf, n))
    ensures !CanGenerate(FirstOf(s, n + 1), asOf, expenses) ==> !CanGenerate(s, asOf, expenses)
  {
    hide NextOccurrence, Before, BillNumber, Refusal, NumberOf, NumbersDue, IsDue;
    TakenByEarlier(s.templates, asOf, n, NumberOf(s.templates[n]));
    var first, more := FirstOf(s, n), FirstOf(s, n + 1);
    assert forall j :: 0 <= j < n ==> first.templates[j] == more.templates[j] == s.templates[j];
    assert more.templates[n] == s.templates[n];
  }

  lemma {:induction false} TakenByEarlier(templates: seq<Template>, asOf: Date, n: nat, number: string)
    requires n <= |templates|
    ensures number in NumbersDue(templates, asOf, n)
            <==> exists j :: 0 <= j < n && IsDue(templates[j], asOf) && NumberOf(templates[j]) == number
  {
    hide IsDue, NumberOf;
    if n > 0 {
      TakenByEarlier(templates, asOf, n - 1, number);
    }
  }

  // ----- Any sequence of requests -----

  datatype Event =
    | Generate(asOf: Date, expenses: set<nat>)
    | RegisterOther(number: string)
    | SetActive(template: nat, isActive: bool)
    | AddTemplate(t: Template)

  /** What a request leaves, a failed one rolling back. */
  function Step(s: Table, e: Event): Table {
    match e
    case Generate(asOf, expenses) =>
      if CanGenerate(s, asOf, expenses)
      then Table(Advanced(s.templates, asOf, expenses), s.bills + BillsDue(s.templates, asOf, |s.templates|),
                 s.numbers + NumbersDue(s.templates, asOf, |s.templates|))
      else s
    case RegisterOther(number) => s.(numbers := s.numbers + {number})
    case SetActive(i, isActive) =>
      if i < |s.templates| then s.(templates := s.templates[i := s.templates[i].(isActive := isActive)]) else s
    case AddTemplate(t) => s.(templates := s.templates + [t])
  }

  function Run(s: Table, events: seq<Event>): Table {
    if events == [] then s else Step(Run(s, events[..|events| - 1]), events[|events| - 1])
  }

  function DatesOf(bills: seq<DatedBill>, template: nat): seq<Date> {
    if bills == [] then []
    else DatesOf(bills[..|bills| - 1], template)
         + if bills[|bills| - 1].template == template then [bills[|bills| - 1].billDate] else []
  }

  lemma {:induction false} DatesOfAppend(a: seq<DatedBill>, b: seq<DatedBill>, template: nat)
    ensures DatesOf(a + b, template) == DatesOf(a, template) + DatesOf(b, template)
  {
    if b == [] {
      assert a + b == a;
    } else {
      assert (a + b)[..|a + b| - 1] == a + b[..|b| - 1];
      DatesOfAppend(a, b[..|b| - 1], template);
    }
  }

  lemma DatesOfOneMore(bills: seq<DatedBill>, b: DatedBill, template: nat)
    ensures DatesOf(bills + [b], template)
            == if b.template == template then DatesOf(bills, template) + [b.billDate] else DatesOf(bills, template)
  {
    assert (bills + [b])[..|bills|] == bills;
  }

  /** One run bills a template at most once, on the date it was due. */
  lemma {:induction false} DatesOfDueBills(templates: seq<Template>, asOf: Date, n: nat, template: nat)
    requires n <= |templates|
    ensures DatesOf(BillsDue(templates, asOf, n), template)
            == if template < n && IsDue(templates[template], asOf) then [templates[template].nextRunDate] else []
  {
    hide IsDue, DatesOf;
    if n == 0 {
      NoBillsNoDates(template);
    } else {
      DatesOfDueBills(templates, asOf, n - 1, template);
      var before := BillsDue(templates, asOf, n - 1);
      if IsDue(templates[n - 1], asOf) {
        DatesOfOneMore(before, DatedBill(n - 1, templates[n - 1].nextRunDate), template);
      } else {
        assert BillsDue(templates, asOf, n) == before;
      }
    }
  }

  /** The first n dates of a template's schedule. */
  function Occurrences(start: Date, f: Frequency, n: nat): (dates: seq<Date>)
    requires Iterate(start, f, n).Ok?
    ensures |dates| == n
  {
    if n == 0 then [] else Occurrences(start, f, n - 1) + [Iterate(start, f, n - 1).value]
  }

  /** From s to t the template has billed the next n dates of its schedule, each
      once and in order, waits on the one after, and is otherwise as it was. */
  predicate HasBilled(s: Table, t: Table, template: nat, n: nat)
    requires template < |s.templates|
  {
    var start := s.templates[template];
    && template < |t.templates|
    && Iterate(start.nextRunDate, start.frequency, n) == Ok(t.templates[template].nextRunDate)
    && t.templates[template] == start.(nextRunDate := t.templates[template].nextRunDate,
                                       isActive := t.templates[template].isActive)
    && DatesOf(t.bills, template) == DatesOf(s.bills, template) + Occurrences(start.nextRunDate, start.frequency, n)
  }

  /** Whether a request, accepted, bills the template. */
  predicate Bills(s: Table, e: Event, template: nat)
    requires template < |s.templates|
  {
    e.Generate? && CanGenerate(s, e.asOf, e.expenses) && IsDue(s.templates[template], e.asOf)
  }

  lemma StepBills(s: Table, t: Table, e: Event, template: nat, n: nat)
    requires template < |s.templates| && HasBilled(s, t, template, n)
    ensures HasBilled(s, Step(t, e), template, if Bills(t, e, template) then n + 1 else n)
  {
    hide NextOccurrence, IsDue, DatesOf, Before, NumbersAreFree, Refusal, NumbersDue;
    if e.Generate? && CanGenerate(t, e.asOf, e.expenses) {
      var due := BillsDue(t.templates, e.asOf, |t.templates|);
      DatesOfAppend(t.bills, due, template);
      DatesOfDueBills(t.templates, e.asOf, |t.templates|, template);
      assert Step(t, e).templates[template] == Advance(t.templates[template], e.asOf);
    }
  }

  /** How many requests of a run billed the template. */
  function TimesBilled(s: Table, events: seq<Event>, template: nat): nat {
    if events == [] then 0
    else
      var before := Run(s, events[..|events| - 1]);
      TimesBilled(s, events[..|events| - 1], template)
      + if template < |before.templates| && Bills(before, events[|events| - 1], template) then 1 else 0
  }

  /** After any requests, failed ones included, a template has billed the next n
      dates of its schedule, where n counts the accepted runs it was due in:
      none is skipped, and none billed twice. */
  lemma {:induction false} RunsFollowTheSchedule(s: Table, events: seq<Event>, template: nat)
    requires template < |s.templates|
    ensures HasBilled(s, Run(s, events), template, TimesBilled(s, events, template))
  {
    hide Bills, Step, DatesOf;
    if events != [] {
      RunsFollowTheSchedule(s, events[..|events| - 1], template);
      StepBills(s, Run(s, events[..|events| - 1]), events[|events| - 1], template,
                TimesBilled(s, events[..|events| - 1], template));
    }
  }

  lemma {:induction false} OccurrenceAt(start: Date, f: Frequency, n: nat, i: nat)
    requires Iterate(start, f, n).Ok? && i < n
    ensures Iterate(start, f, i) == Ok(Occurrences(start, f, n)[i])
  {
    if i < n - 1 {
      OccurrenceAt(start, f, n - 1, i);
    }
  }

  /** Hence one template never bills the same date twice: a later bill of it has
      a later date. */
  lemma NoDateIsBilledTwice(s: Table, events: seq<Event>, template: nat, i: nat, j: nat)
    requires template < |s.templates| && s.bills == []
    requires i < j < |DatesOf(Run(s, events).bills, template)|
    ensures var dates := DatesOf(Run(s, events).bills, template); Before(dates[i], dates[j])
  {
    var n := TimesBilled(s, events, template);
    RunsFollowTheSchedule(s, events, template);
    BilledDatesIncrease(s, Run(s, events), template, n, i, j);
  }

  lemma BilledDatesIncrease(s: Table, t: Table, template: nat, n: nat, i: nat, j: nat)
    requires template < |s.templates| && s.bills == [] && HasBilled(s, t, template, n)
    requires i < j < |DatesOf(t.bills, template)|
    ensures Before(DatesOf(t.bills, template)[i], DatesOf(t.bills, template)[j])
  {
    NoBillsNoDates(template);
    hide Before, DatesOf, Iterate, Ordinal;
    var start := s.templates[template];
    assert DatesOf(t.bills, template) == Occurrences(start.nextRunDate, start.frequency, n);
    OccurrenceAt(start.nextRunDate, start.frequency, n, i);
    OccurrenceAt(start.nextRunDate, start.frequency, n, j);
    IterateStrictlyIncreases(start.nextRunDate, start.frequency, i, j);
  }

  lemma NoBillsNoDates(template: nat)
    ensures DatesOf([], template) == []
  {
  }

  // ----- Catching up -----

  /** How many dates of a schedule are up to `asOf`. */
  function DueCount(d: Date, f: Frequency, asOf: Date): nat
    decreases Ordinal(asOf) - Ordinal(d) + 1
  {
    if Before(asOf, d) then 0
    else if NextOccurrence(d, f).Err? then 1
    else
      OrdinalIsTheDateOrder(asOf, d);
      OccurrenceAdvances(d, f);
      1 + DueCount(NextOccurrence(d, f).value, f, asOf)
  }

  lemma {:induction false} IterateFromNext(d: Date, f: Frequency, n: nat)
    requires NextOccurrence(d, f).Ok?
    ensures Iterate(d, f, n + 1) == Iterate(NextOccurrence(d, f).value, f, n)
  {
    hide NextOccurrence;
    if n > 0 {
      IterateFromNext(d, f, n - 1);
    } else {
      assert Iterate(d, f, 0) == Ok(d);
    }
  }

  lemma {:induction false} NothingAfterAnError(d: Date, f: Frequency, n: nat)
    requires NextOccurrence(d, f).Err? && n > 0
    ensures Iterate(d, f, n).Err?
  {
    if n > 1 {
      NothingAfterAnError(d, f, n - 1);
    } else {
      assert Iterate(d, f, 0) == Ok(d);
    }
  }

  /** Occurrence n is among them exactly when it exists and is not after `asOf`. */
  lemma {:induction false} DueCountMeans(d: Date, f: Frequency, asOf: Date, n: nat)
    ensures n < DueCount(d, f, asOf) <==> Iterate(d, f, n).Ok? && !Before(asOf, Iterate(d, f, n).value)
    decreases n
  {
    hide NextOccurrence, Before, Ordinal;
    if Before(asOf, d) {
      if n > 0 && Iterate(d, f, n).Ok? {
        IterateStrictlyIncreases(d, f, 0, n);
        OrdinalIsTheDateOrder(asOf, d);
        OrdinalIsTheDateOrder(asOf, Iterate(d, f, n).value);
      }
    } else if NextOccurrence(d, f).Err? {
      if n > 0 {
        NothingAfterAnError(d, f, n);
      }
    } else if n > 0 {
      IterateFromNext(d, f, n - 1);
      DueCountMeans(NextOccurrence(d, f).value, f, asOf, n - 1);
    }
  }

  /** 28 days of backlog make for one occurrence at most. */
  lemma DueCountIsBounded(d: Date, f: Frequency, asOf: Date)
    requires DueCount(d, f, asOf) > 0
    ensures 28 * (DueCount(d, f, asOf) - 1) <= Ordinal(asOf) - Ordinal(d)
  {
    hide Before, Ordinal, DueCount;
    var n := DueCount(d, f, asOf) - 1;
    DueCountMeans(d, f, asOf, n);
    OrdinalIsTheDateOrder(asOf, Iterate(d, f, n).value);
    if n > 0 {
      IterateStrictlyIncreases(d, f, 0, n);
    }
  }

  /** A run of requests whose accepted calls are all for one date, and which does
      not switch the template on or off. */
  predicate IsOneDay(events: seq<Event>, asOf: Date, template: nat) {
    forall i :: 0 <= i < |events| ==>
      && (events[i].Generate? ==> events[i].asOf == asOf)
      && (events[i].SetActive? ==> events[i].template != template)
  }

  /** How many calls of a run are accepted. */
  function Accepted(s: Table, events: seq<Event>): nat {
    if events == [] then 0
    else
      var e := events[|events| - 1];
      Accepted(s, events[..|events| - 1])
      + if e.Generate? && CanGenerate(Run(s, events[..|events| - 1]), e.asOf, e.expenses) then 1 else 0
  }

  /** After k accepted calls for one date, an active template has billed exactly
      the first min(k, m) dates of its schedule, where m are up to that date. */
  lemma {:induction false} CallsBillWhatIsDue(s: Table, events: seq<Event>, asOf: Date, template: nat)
    requires template < |s.templates| && s.templates[template].isActive && IsOneDay(events, asOf, template)
    ensures var t, after := s.templates[template], Run(s, events);
            && HasBilled(s, after, template, Min(Accepted(s, events), DueCount(t.nextRunDate, t.frequency, asOf)))
            && after.templates[template].isActive
  {
    hide DatesOf, Before, CanGenerate, DueCount, Step, Refusal, NextOccurrence;
    if events != [] {
      var front, e := events[..|events| - 1], events[|events| - 1];
      CallsBillWhatIsDue(s, front, asOf, template);
      var t := s.templates[template];
      var n := Min(Accepted(s, front), DueCount(t.nextRunDate, t.frequency, asOf));
      StepBills(s, Run(s, front), e, template, n);
      StaysActive(Run(s, front), e, template);
      DueCountMeans(t.nextRunDate, t.frequency, asOf, n);
    }
  }

  lemma StaysActive(s: Table, e: Event, template: nat)
    requires template < |s.templates| && s.templates[template].isActive && (e.SetActive? ==> e.template != template)
    ensures template < |Step(s, e).templates| && Step(s, e).templates[template].isActive
  {
    hide CanGenerate, BillsDue, NumbersDue;
  }

  /** The promise that a second call for the same date generates nothing more
      for a template that just ran holds exactly when its next occurrence is
      after that date. */
  lemma SecondCallIsIdle(s: Table, asOf: Date, expenses: set<nat>, template: nat)
    requires template < |s.templates| && IsDue(s.templates[template], asOf)
    requires CanGenerate(s, asOf, expenses) && CanGenerate(Step(s, Generate(asOf, expenses)), asOf, expenses)
    ensures var t, once := s.templates[template], Step(s, Generate(asOf, expenses));
            && NextOccurrence(t.nextRunDate, t.frequency).Ok?
            && (DatesOf(Step(once, Generate(asOf, expenses)).bills, template) == DatesOf(once.bills, template)
                <==> Before(asOf, NextOccurrence(t.nextRunDate, t.frequency).value))
  {
    hide DatesOf, Before, CanGenerate, DueCount, Step, NextOccurrence;
    var t, call := s.templates[template], Generate(asOf, expenses);
    var once, one, two := Step(s, call), [call], [call, call];
    assert one[..0] == [] && two[..1] == one && Run(s, []) == s && Run(s, one) == once
        && Run(s, two) == Step(once, call);
    assert Accepted(s, []) == 0 && Accepted(s, one) == 1 && Accepted(s, two) == 2;
    CallsBillWhatIsDue(s, one, asOf, template);
    CallsBillWhatIsDue(s, two, asOf, template);
    assert Iterate(t.nextRunDate, t.frequency, 0) == Ok(t.nextRunDate);
    assert Iterate(t.nextRunDate, t.frequency, 1) == NextOccurrence(t.nextRunDate, t.frequency);
    DueCountMeans(t.nextRunDate, t.frequency, asOf, 0);
    DueCountMeans(t.nextRunDate, t.frequency, asOf, 1);
  }

  /** An organisation's only template, when nothing refuses it. */
  lemma OneTemplateRuns(t: Template, bills: seq<DatedBill>, numbers: set<string>, asOf: Date, expenses: set<nat>)
    requires IsDue(t, asOf) && IsSettled(t, expenses) && NumberOf(t) !in numbers
    ensures var call := Generate(asOf, expenses);
            Step(Table([t], bills, numbers), call)
            == Table([Advance(t, asOf)], bills + [DatedBill(0, t.nextRunDate)], numbers + {NumberOf(t)})
  {
    hide NextOccurrence, Refusal, BillNumber, Before;
    var due := [t];
    assert BillsDue(due, asOf, 0) == [] && BillsDue(due, asOf, 1) == [DatedBill(0, t.nextRunDate)];
    assert NumbersDue(due, asOf, 0) == {} && NumbersDue(due, asOf, 1) == {NumberOf(t)};
    assert Advanced(due, asOf, expenses) == [Advance(t, asOf)];
  }

  /** A template due on 1 January runs on a call for 1 April, and runs again on
      a second one. */
  lemma SecondCallCanBillAgain(t: Template, expenses: set<nat>)
    requires t.isActive && t.frequency == Monthly && t.nextRunDate == RawDate(2026, 1, 1)
    requires Refusal(t, expenses).None? && Refusal(t.(nextRunDate := RawDate(2026, 2, 1)), expenses).None?
    ensures var call := Generate(RawDate(2026, 4, 1), expenses);
            Step(Step(Table([t], [], {}), call), call).bills
            == [DatedBill(0, RawDate(2026, 1, 1)), DatedBill(0, RawDate(2026, 2, 1))]
  {
    assert NextOccurrence(RawDate(2026, 1, 1), Monthly) == Ok(RawDate(2026, 2, 1));
    assert NextOccurrence(RawDate(2026, 2, 1), Monthly) == Ok(RawDate(2026, 3, 1));
    var later := t.(nextRunDate := RawDate(2026, 2, 1));
    hide NextOccurrence, Refusal, BillNumber, Step;
    NumberTellsPrefixAndDate(t.prefix, t.nextRunDate, later.prefix, later.nextRunDate);
    assert Advance(t, RawDate(2026, 4, 1)) == later;
    OneTemplateRuns(t, [], {}, RawDate(2026, 4, 1), expenses);
    var first := [DatedBill(0, RawDate(2026, 1, 1))];
    assert [] + first == first && {} + {NumberOf(t)} == {NumberOf(t)};
    OneTemplateRuns(later, first, {NumberOf(t)}, RawDate(2026, 4, 1), expenses);
  }

  /** Catching up is finite: once there have been more accepted calls than 28-day
      stretches of backlog, the template is no longer due. */
  lemma CatchUpIsBounded(s: Table, events: seq<Event>, asOf: Date, template: nat)
    requires template < |s.templates| && s.templates[template].isActive && IsOneDay(events, asOf, template)
    requires 28 * Accepted(s, events) > Ordinal(asOf) - Ordinal(s.templates[template].nextRunDate)
    ensures template < |Run(s, events).templates| && !IsDue(Run(s, events).templates[template], asOf)
  {
    hide DatesOf, Before, DueCount, Run, Accepted, Ordinal;
    var t, k := s.templates[template], Accepted(s, events);
    var m := DueCount(t.nextRunDate, t.frequency, asOf);
    CallsBillWhatIsDue(s, events, asOf, template);
    if m > 0 {
      DueCountIsBounded(t.nextRunDate, t.frequency, asOf);
    }
    DueCountMeans(t.nextRunDate, t.frequency, asOf, m);
  }

  // ----- When a run collides -----

  predicate AreDueTogether(t: Template, u: Template, asOf: Date) {
    IsDue(t, asOf) && IsDue(u, asOf) && t.prefix == u.prefix && t.nextRunDate == u.nextRunDate
  }

  /** A run's numbers collide exactly when two due templates share prefix and
      date, or a due template's number was used before. */
  lemma RunCollidesIff(s: Table, asOf: Date)
    ensures NumbersAreFree(s, asOf) <==>
              && (forall i, j :: 0 <= i < j < |s.templates| ==> !AreDueTogether(s.templates[i], s.templates[j], asOf))
              && (forall i :: 0 <= i < |s.templates| && IsDue(s.templates[i], asOf) ==>
                  NumberOf(s.templates[i]) !in s.numbers)
  {
    hide IsDue, BillNumber;
    forall i, j | 0 <= i < j < |s.templates|
      ensures var (t, u) := (s.templates[i], s.templates[j]);
              NumberOf(t) == NumberOf(u) <==> t.prefix == u.prefix && t.nextRunDate == u.nextRunDate
    {
      var t, u := s.templates[i], s.templates[j];
      NumberTellsPrefixAndDate(t.prefix, t.nextRunDate, u.prefix, u.nextRunDate);
    }
  }

  /** Two active templates with one prefix and one next date. */
  predicate AreTwins(s: Table, i: nat, j: nat, date: Date) {
    && i < j < |s.templates|
    && s.templates[i].isActive && s.templates[j].isActive
    && s.templates[i].prefix == s.templates[j].prefix
    && s.templates[i].nextRunDate == s.templates[j].nextRunDate == date
  }

  /** Nothing makes a prefix unique. Twins stop every run from their date on, for
      the whole organisation and for good: until one of them is switched off,
      no such run generates or moves anything. */
  lemma {:induction false} TwinsBlockEveryRun(s: Table, events: seq<Event>, i: nat, j: nat, date: Date,
      asOf: Date, expenses: set<nat>)
    requires AreTwins(s, i, j, date) && !Before(asOf, date)
    requires forall k :: 0 <= k < |events| && events[k].SetActive? ==>
        events[k].template != i && events[k].template != j
    ensures AreTwins(Run(s, events), i, j, date)
    ensures !CanGenerate(Run(s, events), asOf, expenses)
  {
    hide Before, BillNumber;
    if events != [] {
      var front, e := events[..|events| - 1], events[|events| - 1];
      TwinsBlockEveryRun(s, front, i, j, date, asOf, expenses);
      TwinsStay(Run(s, front), e, i, j, date);
    }
    TwinsCollide(Run(s, events), i, j, date, asOf, expenses);
  }

  lemma TwinsCollide(s: Table, i: nat, j: nat, date: Date, asOf: Date, expenses: set<nat>)
    requires AreTwins(s, i, j, date) && !Before(asOf, date)
    ensures !CanGenerate(s, asOf, expenses)
  {
    hide Before, BillNumber, AreBillable;
    assert NumberOf(s.templates[i]) == NumberOf(s.templates[j]);
  }

  lemma TwinsStay(s: Table, e: Event, i: nat, j: nat, date: Date)
    requires AreTwins(s, i, j, date) && (e.SetActive? ==> e.template != i && e.template != j)
    ensures AreTwins(Step(s, e), i, j, date)
  {
    hide Before, BillsDue, NumbersDue, CanGenerate;
    if e.Generate? && CanGenerate(s, e.asOf, e.expenses) {
      if !Before(e.asOf, date) {
        TwinsCollide(s, i, j, date, e.asOf, e.expenses);
      }
      assert !IsDue(s.templates[i], e.asOf) && !IsDue(s.templates[j], e.asOf);
    }
  }

  /** Prefixes differ, and every number made of a template's prefix is of a date
      before its next. */
  ghost predicate NumbersArePast(s: Table) {
    && (forall i, j :: 0 <= i < j < |s.templates| ==> s.templates[i].prefix != s.templates[j].prefix)
    && (forall i, d: Date :: 0 <= i < |s.templates| && BillNumber(s.templates[i].prefix, d) in s.numbers ==>
          Before(d, s.templates[i].nextRunDate))
  }

  /** A request that keeps the prefixes for the templates: no other bill is
      numbered like one of theirs, and a new template brings a new prefix. */
  ghost predicate RespectsPrefixes(s: Table, e: Event) {
    match e
    case RegisterOther(number) =>
      forall i, d: Date :: 0 <= i < |s.templates| ==> number != BillNumber(s.templates[i].prefix, d)
    case AddTemplate(t) =>
      && (forall i :: 0 <= i < |s.templates| ==> s.templates[i].prefix != t.prefix)
      && (forall d: Date :: BillNumber(t.prefix, d) !in s.numbers)
    case _ => true
  }

  lemma StepKeepsNumbersPast(s: Table, e: Event)
    requires NumbersArePast(s) && RespectsPrefixes(s, e)
    ensures NumbersArePast(Step(s, e))
  {
    hide Before, BillNumber, NumbersAreFree, Refusal, NextOccurrence, BillsDue, NumbersDue;
    var t := Step(s, e);
    if e.Generate? && CanGenerate(s, e.asOf, e.expenses) {
      forall i, d: Date | 0 <= i < |t.templates| && BillNumber(t.templates[i].prefix, d) in t.numbers
        ensures Before(d, t.templates[i].nextRunDate)
      {
        GeneratedIsPast(s, e, i, d);
      }
    }
  }

  lemma GeneratedIsPast(s: Table, e: Event, i: nat, d: Date)
    requires NumbersArePast(s) && e.Generate? && CanGenerate(s, e.asOf, e.expenses) && i < |s.templates|
    requires BillNumber(s.templates[i].prefix, d) in s.numbers + NumbersDue(s.templates, e.asOf, |s.templates|)
    ensures Before(d, Advance(s.templates[i], e.asOf).nextRunDate)
  {
    hide BillNumber, Refusal, NextOccurrence, NumbersDue, NumbersAreFree, Before, Ordinal;
    var t, number := s.templates[i], BillNumber(s.templates[i].prefix, d);
    if number in NumbersDue(s.templates, e.asOf, |s.templates|) {
      TakenByEarlier(s.templates, e.asOf, |s.templates|, number);
      var j :| 0 <= j < |s.templates| && IsDue(s.templates[j], e.asOf) && NumberOf(s.templates[j]) == number;
      NumberTellsPrefixAndDate(t.prefix, d, s.templates[j].prefix, s.templates[j].nextRunDate);
      assert i == j;
    }
    if IsDue(t, e.asOf) {
      OccurrenceAdvances(t.nextRunDate, t.frequency);
      var next := NextOccurrence(t.nextRunDate, t.frequency).value;
      OrdinalIsTheDateOrder(d, t.nextRunDate);
      OrdinalIsTheDateOrder(t.nextRunDate, next);
      OrdinalIsTheDateOrder(d, next);
    }
  }

  /** And with prefixes that differ, and are left to the templates, no run ever
      collides. */
  lemma {:induction false} DistinctPrefixesNeverCollide(s: Table, events: seq<Event>, asOf: Date)
    requires NumbersArePast(s)
    requires forall k :: 0 <= k < |events| ==> RespectsPrefixes(Run(s, events[..k]), events[k])
    ensures NumbersArePast(Run(s, events)) && NumbersAreFree(Run(s, events), asOf)
  {
    hide Step, RespectsPrefixes, IsDue, BillNumber;
    if events != [] {
      var front := events[..|events| - 1];
      forall k | 0 <= k < |front|
        ensures RespectsPrefixes(Run(s, front[..k]), front[k])
      {
        assert front[..k] == events[..k];
      }
      DistinctPrefixesNeverCollide(s, front, asOf);
      StepKeepsNumbersPast(Run(s, front), events[|events| - 1]);
    }
    var after := Run(s, events);
    RunCollidesIff(after, asOf);
    forall i | 0 <= i < |after.templates|
      ensures NumberOf(after.templates[i]) !in after.numbers
    {
      NotBeforeItself(after.templates[i].nextRunDate);
    }
  }

  lemma NotBeforeItself(d: Date)
    ensures !Before(d, d)
  {
  }

  // ----- What is billed, and what is not -----

  /** What a run asks of a due template by itself: the guards of register_bill,
      room for the eleven characters after the prefix, a due date and a next
      occurrence on the calendar. */
  predicate IsBillable(t: Template, expenses: set<nat>) {
    && t.amount > 0 && t.vat >= 0 && t.dueInDays >= 0 && t.expense in expenses && |t.prefix| + 11 <= 64
    && Ordinal(t.nextRunDate) + t.dueInDays <= Ordinal(RawDate(9999, 12, 31))
    && MonthIndex(t.nextRunDate) + MonthsPerOccurrence(t.frequency) <= MAX_INDEX
  }

  /** On or before the date of the run, and not switched off. */
  predicate IsUp(t: Template, asOf: Date) {
    t.isActive && Ordinal(t.nextRunDate) <= Ordinal(asOf)
  }

  predicate AreUpTogether(t: Template, u: Template, asOf: Date) {
    IsUp(t, asOf) && IsUp(u, asOf) && t.prefix == u.prefix && t.nextRunDate == u.nextRunDate
  }

  lemma DueMeans(t: Template, asOf: Date, expenses: set<nat>)
    ensures IsDue(t, asOf) <==> IsUp(t, asOf)
    ensures IsSettled(t, expenses) <==> IsBillable(t, expenses)
  {
    OrdinalIsTheDateOrder(asOf, t.nextRunDate);
    AddMonthsLands(t.nextRunDate, MonthsPerOccurrence(t.frequency));
    hide Ordinal, Before, AddMonths, MonthIndex, MonthLength;
  }

  /** A run is accepted exactly when every template that is up is billable, and
      the numbers of those that are up are new and differ. */
  lemma RunIsAcceptedIff(s: Table, asOf: Date, expenses: set<nat>)
    ensures CanGenerate(s, asOf, expenses)
            <==> && (forall i :: 0 <= i < |s.templates| && IsUp(s.templates[i], asOf) ==>
                       IsBillable(s.templates[i], expenses))
                 && (forall i, j :: 0 <= i < j < |s.templates| ==> !AreUpTogether(s.templates[i], s.templates[j], asOf))
                 && (forall i :: 0 <= i < |s.templates| && IsUp(s.templates[i], asOf) ==>
                       BillNumber(s.templates[i].prefix, s.templates[i].nextRunDate) !in s.numbers)
  {
    hide IsUp, IsBillable, IsDue, Refusal, NextOccurrence, BillNumber;
    RunCollidesIff(s, asOf);
    forall i | 0 <= i < |s.templates|
      ensures IsDue(s.templates[i], asOf) <==> IsUp(s.templates[i], asOf)
      ensures IsSettled(s.templates[i], expenses) <==> IsBillable(s.templates[i], expenses)
    {
      DueMeans(s.templates[i], asOf, expenses);
    }
  }

  /** An accepted run bills exactly the templates that are up, once each, on the
      date each waited on. */
  lemma RunBillsWhatIsUp(s: Table, asOf: Date, expenses: set<nat>, template: nat)
    requires template < |s.templates| && CanGenerate(s, asOf, expenses)
    ensures var t := s.templates[template];
            DatesOf(Step(s, Generate(asOf, expenses)).bills, template)
            == DatesOf(s.bills, template) + if IsUp(t, asOf) then [t.nextRunDate] else []
  {
    hide IsUp, IsDue, DatesOf, CanGenerate, NumbersDue;
    DatesOfAppend(s.bills, BillsDue(s.templates, asOf, |s.templates|), template);
    DatesOfDueBills(s.templates, asOf, |s.templates|, template);
    DueMeans(s.templates[template], asOf, expenses);
  }

  /** A template that is switched off, and not switched on again, is never billed
      and does not move, whatever runs there are. */
  lemma {:induction false} SwitchedOffIsNeverBilled(s: Table, events: seq<Event>, template: nat)
    requires template < |s.templates| && !s.templates[template].isActive
    requires forall k :: 0 <= k < |events| && events[k].SetActive? && events[k].template == template ==>
               !events[k].isActive
    ensures template < |Run(s, events).templates| && Run(s, events).templates[template] == s.templates[template]
    ensures DatesOf(Run(s, events).bills, template) == DatesOf(s.bills, template)
  {
    hide Step, DatesOf;
    if events != [] {
      SwitchedOffIsNeverBilled(s, events[..|events| - 1], template);
      OffStaysOff(Run(s, events[..|events| - 1]), events[|events| - 1], template);
    }
  }

  lemma OffStaysOff(s: Table, e: Event, template: nat)
    requires template < |s.templates| && !s.templates[template].isActive
    requires e.SetActive? && e.template == template ==> !e.isActive
    ensures template < |Step(s, e).templates| && Step(s, e).templates[template] == s.templates[template]
    ensures DatesOf(Step(s, e).bills, template) == DatesOf(s.bills, template)
  {
    hide DatesOf, CanGenerate, NumbersDue, BillsDue, Before, NextOccurrence;
    if e.Generate? && CanGenerate(s, e.asOf, e.expenses) {
      DatesOfAppend(s.bills, BillsDue(s.templates, e.asOf, |s.templates|), template);
      DatesOfDueBills(s.templates, e.asOf, |s.templates|, template);
    }
  }
}
