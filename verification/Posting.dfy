/** The posting engine (app/services/posting.py): journals posted once per
    business event and corrected only by mirrored reversals
    (app/domain/accounting/posting_rules.py). */
module Posting {
  import opened Base
  import opened Journals

  /** The document and event a journal came from. */
  datatype Source = Source(kind: nat, document: Uuid, event: string)

  /** One journal with its lines. A journal written without a header
      (`hasHeader` false) gets one the first time it is reversed. Rows are named
      by position, so `reversalOf` points at an earlier one. */
  datatype Journal = Journal(lines: seq<Line>, source: Option<Source>, reversalOf: Option<nat>, hasHeader: bool)

  datatype PostingError =
    | Refused(cause: JournalError) | InactiveAccount | AlreadyPosted
    | NoReason | NotFound | IsAReversal | AlreadyReversed

  /** mirror_postings: debit and credit swapped, line by line. */
  function Mirror(lines: seq<Line>): (r: seq<Line>)
    ensures |r| == |lines|
    ensures forall i :: 0 <= i < |lines| ==> r[i] == Line(lines[i].account, lines[i].credit, lines[i].debit)
  {
    seq(|lines|, i requires 0 <= i < |lines| => Line(lines[i].account, lines[i].credit, lines[i].debit))
  }

  predicate IsReversed(journals: seq<Journal>, i: nat) {
    exists j :: 0 <= j < |journals| && journals[j].reversalOf == Some(i)
  }

  predicate IsPosted(journals: seq<Journal>, source: Source) {
    exists j :: 0 <= j < |journals| && journals[j].source == Some(source)
  }

  /** post_journal's checks. `chart` is None for the payroll writers, which skip
      the account check; otherwise it holds the active accounts. */
  predicate CanPost(
    journals: seq<Journal>, lines: seq<Line>, source: Option<Source>, chart: Option<set<Code>>, open: bool)
  {
    && IsBalanced(lines) && open
    && (chart.Some? ==> forall i :: 0 <= i < |lines| ==> lines[i].account in chart.value)
    && (source.Some? ==> !IsPosted(journals, source.value))
  }

  /** reverse_journal's checks. */
  predicate CanReverse(journals: seq<Journal>, i: nat, hasReason: bool, open: bool) {
    hasReason && open && i < |journals| && journals[i].reversalOf.None? && !IsReversed(journals, i)
  }

  /** What reversing journal i writes: its header if it had none, and a mirrored
      journal that points back at it. */
  function Reversed(journals: seq<Journal>, i: nat): seq<Journal>
    requires i < |journals|
  {
    journals[i := journals[i].(hasHeader := true)] + [Journal(Mirror(journals[i].lines), None, Some(i), true)]
  }

  datatype Event =
    | Post(lines: seq<Line>, source: Option<Source>, chart: Option<set<Code>>, open: bool)
    | PostManual(lines: seq<Line>, codes: Chart, open: bool)
    | Reverse(i: nat, hasReason: bool, open: bool)

  function Step(journals: seq<Journal>, e: Event): seq<Journal> {
    match e
    case Post(lines, source, chart, open) =>
      if CanPost(journals, lines, source, chart, open) then journals + [Journal(lines, source, None, true)]
          else journals
    case PostManual(lines, codes, open) =>
      if IsPostable(lines, codes, open) then journals + [Journal(lines, None, None, false)] else journals
    case Reverse(i, hasReason, open) =>
      if CanReverse(journals, i, hasReason, open)
      then Reversed(journals, i)
      else journals
  }

  function Run(journals: seq<Journal>, events: seq<Event>): seq<Journal> {
    if events == [] then journals else Step(Run(journals, events[..|events| - 1]), events[|events| - 1])
  }

  class Ledger {
    var journals: seq<Journal>

    constructor ()
      ensures journals == []
    {
      journals := [];
    }

    method PostJournal(lines: seq<Line>, source: Option<Source>, chart: Option<set<Code>>, open: bool)
      returns (r: Result<nat, PostingError>)
      modifies this
      ensures r.Ok? <==> CanPost(old(journals), lines, source, chart, open)
      ensures journals == Step(old(journals), Post(lines, source, chart, open))
      ensures r.Ok? ==> r.value == |old(journals)|
    {
      var balanced := AssertBalanced(lines);
      if balanced.Err? {
        return Err(Refused(balanced.error));
      }
      if !open {
        return Err(Refused(PeriodLocked));
      }
      if chart.Some? && exists i :: 0 <= i < |lines| && lines[i].account !in chart.value {
        return Err(InactiveAccount);
      }
      if source.Some? && IsPosted(journals, source.value) {
        return Err(AlreadyPosted);
      }
      journals := journals + [Journal(lines, source, None, true)];
      return Ok(|journals| - 1);
    }

    method ReverseJournal(i: nat, hasReason: bool, open: bool) returns (r: Result<nat, PostingError>)
      requires forall j :: 0 <= j < |journals| ==> IsBalanced(journals[j].lines)
      modifies this
      ensures r.Ok? <==> CanReverse(old(journals), i, hasReason, open)
      ensures journals == Step(old(journals), Reverse(i, hasReason, open))
      ensures r.Ok? ==> r.value == |old(journals)|
    {
      if !hasReason {
        return Err(NoReason);
      }
      if !open {
        return Err(Refused(PeriodLocked));
      }
      if i >= |journals| {
        return Err(NotFound);
      }
      if journals[i].reversalOf.Some? {
        return Err(IsAReversal);
      }
      if IsReversed(journals, i) {
        return Err(AlreadyReversed);
      }
      var mirrored := Mirror(journals[i].lines);
      MirrorBalances(journals[i].lines, 0);
      var balanced := AssertBalanced(mirrored);
      assert balanced.Ok?;
      journals := journals[i := journals[i].(hasHeader := true)] + [Journal(mirrored, None, Some(i), true)];
      return Ok(|journals| - 1);
    }

    method AssertBalanced(lines: seq<Line>) returns (r: Result<(), JournalError>)
      ensures r.Ok? <==> IsBalanced(lines)
    {
      if |lines| < 2 {
        return Err(TooFewLines);
      }
      var totalDebit, totalCredit := 0, 0;
      for i := 0 to |lines|
        invariant totalDebit == TotalDebit(lines[..i]) && totalCredit == TotalCredit(lines[..i])
        invariant forall j :: 0 <= j < i ==> IsSingleSided(lines[j])
      {
        assert lines[..i + 1][..i] == lines[..i];
        if lines[i].debit < 0 || lines[i].credit < 0 {
          return Err(NegativeAmount);
        }
        if (lines[i].debit > 0) == (lines[i].credit > 0) {
          return Err(NotSingleSided);
        }
        totalDebit, totalCredit := totalDebit + lines[i].debit, totalCredit + lines[i].credit;
      }
      assert lines[..|lines|] == lines;
      if totalDebit != totalCredit {
        return Err(Unbalanced);
      }
      return Ok(());
    }
  }

  // ----- A mirror undoes a journal -----

  /** Mirroring twice gives the lines back, keeps them postable, and takes each
      account back to where it was. */
  lemma MirrorUndoes(lines: seq<Line>, account: Code)
    ensures Mirror(Mirror(lines)) == lines
    ensures IsBalanced(lines) <==> IsBalanced(Mirror(lines))
    ensures Balance(lines, account) + Balance(Mirror(lines), account) == 0
  {
    MirrorBalances(lines, account);
    assert Mirror(Mirror(lines)) == lines;
    if IsBalanced(Mirror(lines)) {
      forall i | 0 <= i < |lines|
        ensures IsSingleSided(lines[i])
      {
        assert IsSingleSided(Mirror(lines)[i]);
      }
    }
  }

  lemma {:induction false} MirrorBalances(lines: seq<Line>, account: Code)
    ensures TotalDebit(Mirror(lines)) == TotalCredit(lines) && TotalCredit(Mirror(lines)) == TotalDebit(lines)
    ensures Balance(Mirror(lines), account) == -Balance(lines, account)
  {
    if lines != [] {
      MirrorBalances(lines[..|lines| - 1], account);
      assert Mirror(lines)[..|lines| - 1] == Mirror(lines[..|lines| - 1]);
    }
  }

  // ----- Over every run -----

  /** Every journal balances; a reversal mirrors an earlier journal that is not
      itself a reversal; nothing is reversed twice and no event posted twice. */
  predicate Invariant(journals: seq<Journal>) {
    && (forall j :: 0 <= j < |journals| ==> IsBalanced(journals[j].lines))
    && (forall j :: 0 <= j < |journals| && journals[j].reversalOf.Some? ==>
        IsReversalOf(journals, j, journals[j].reversalOf.value))
    && (forall j, k :: 0 <= j < k < |journals| && journals[j].reversalOf.Some? ==>
        journals[j].reversalOf != journals[k].reversalOf)
    && (forall j, k :: 0 <= j < k < |journals| && journals[j].source.Some? ==> journals[j].source != journals[k].source)
  }

  predicate IsReversalOf(journals: seq<Journal>, j: nat, i: nat)
    requires j < |journals|
  {
    i < j && journals[i].reversalOf.None? && journals[j].lines == Mirror(journals[i].lines)
  }

  lemma StepKeepsInvariant(journals: seq<Journal>, e: Event)
    requires Invariant(journals)
    ensures Invariant(Step(journals, e))
  {
    hide IsBalanced;
    var t := Step(journals, e);
    if e.Reverse? && CanReverse(journals, e.i, e.hasReason, e.open) {
      MirrorUndoes(journals[e.i].lines, 0);
    }
    forall j | 0 <= j < |t| && t[j].reversalOf.Some?
      ensures IsReversalOf(t, j, t[j].reversalOf.value)
    {
      assert j < |journals| ==> IsReversalOf(journals, j, journals[j].reversalOf.value);
    }
  }

  /** What all journals leave on an account. */
  function Total(journals: seq<Journal>, account: Code): int {
    if journals == [] then 0
    else Total(journals[..|journals| - 1], account) + Balance(journals[|journals| - 1].lines, account)
  }

  /** A journal that still counts: neither reversed nor a reversal. */
  predicate IsLive(journals: seq<Journal>, i: nat)
    requires i < |journals|
  {
    journals[i].reversalOf.None? && !IsReversed(journals, i)
  }

  /** What the live ones among the first n leave on an account. */
  function LiveTotal(journals: seq<Journal>, account: Code, n: nat): int
    requires n <= |journals|
  {
    if n == 0 then 0
    else LiveTotal(journals, account, n - 1) + if IsLive(journals, n - 1)
        then Balance(journals[n - 1].lines, account) else 0
  }

  lemma TotalAppend(journals: seq<Journal>, j: Journal, account: Code)
    ensures Total(journals + [j], account) == Total(journals, account) + Balance(j.lines, account)
  {
    assert (journals + [j])[..|journals|] == journals;
  }

  lemma {:induction false} TotalSameLines(a: seq<Journal>, b: seq<Journal>, account: Code)
    requires |a| == |b| && forall i :: 0 <= i < |a| ==> a[i].lines == b[i].lines
    ensures Total(a, account) == Total(b, account)
  {
    if a != [] {
      TotalSameLines(a[..|a| - 1], b[..|b| - 1], account);
    }
  }

  /** How the live total of the first n moves when one journal, `dropped`, stops
      being live and the others stay as they were. */
  lemma {:induction false} LiveTotalDrops(a: seq<Journal>, b: seq<Journal>, account: Code, n: nat, dropped: Option<nat>)
    requires n <= |a| <= |b|
    requires forall i :: 0 <= i < n ==> b[i].lines == a[i].lines
    requires forall i :: 0 <= i < n && Some(i) != dropped ==> (IsLive(b, i) <==> IsLive(a, i))
    requires dropped.Some? ==> dropped.value < |a| && IsLive(a, dropped.value) && !IsLive(b, dropped.value)
    ensures LiveTotal(b, account, n)
            == LiveTotal(a, account, n) - if dropped.Some? && dropped.value < n
                then Balance(a[dropped.value].lines, account) else 0
  {
    if n > 0 {
      LiveTotalDrops(a, b, account, n - 1, dropped);
    }
  }

  /** No journal claims to reverse one that is not there yet. */
  predicate PointsBack(journals: seq<Journal>) {
    forall j :: 0 <= j < |journals| && journals[j].reversalOf.Some? ==> journals[j].reversalOf.value < |journals|
  }

  lemma InvariantPointsBack(journals: seq<Journal>)
    requires Invariant(journals)
    ensures PointsBack(journals)
  {
    hide IsBalanced;
    forall j | 0 <= j < |journals| && journals[j].reversalOf.Some?
      ensures journals[j].reversalOf.value < |journals|
    {
      assert IsReversalOf(journals, j, journals[j].reversalOf.value);
    }
  }

  /** Adding a journal reverses the one it names and no other. */
  lemma ReversedAfterAppend(journals: seq<Journal>, j: Journal, i: nat)
    ensures IsReversed(journals + [j], i) <==> IsReversed(journals, i) || j.reversalOf == Some(i)
  {
    var t := journals + [j];
    if IsReversed(journals, i) {
      var k :| 0 <= k < |journals| && journals[k].reversalOf == Some(i);
      assert t[k].reversalOf == Some(i);
    }
    if j.reversalOf == Some(i) {
      assert t[|journals|].reversalOf == Some(i);
    }
  }

  lemma AppendKeepsLive(journals: seq<Journal>, j: Journal, account: Code)
    requires PointsBack(journals) && j.reversalOf.None?
    ensures LiveTotal(journals + [j], account, |journals| + 1)
            == LiveTotal(journals, account, |journals|) + Balance(j.lines, account)
  {
    hide Balance;
    var t := journals + [j];
    forall i | 0 <= i <= |journals|
      ensures IsReversed(t, i) <==> IsReversed(journals, i)
    {
      ReversedAfterAppend(journals, j, i);
    }
    LiveTotalDrops(journals, t, account, |journals|, None);
  }

  lemma ReversedAfterReversal(journals: seq<Journal>, i: nat)
    requires i < |journals|
    ensures var t := Reversed(journals, i);
            forall k: nat :: IsReversed(t, k) <==> IsReversed(journals, k) || k == i
  {
    hide Mirror;
    var marked, reversal := journals[i := journals[i].(hasHeader := true)],
        Journal(Mirror(journals[i].lines), None, Some(i), true);
    forall k: nat
      ensures IsReversed(marked + [reversal], k) <==> IsReversed(journals, k) || k == i
    {
      ReversedAfterAppend(marked, reversal, k);
      if IsReversed(journals, k) {
        var j :| 0 <= j < |journals| && journals[j].reversalOf == Some(k);
        assert marked[j].reversalOf == Some(k);
      }
    }
  }

  lemma ReversalKeepsLive(journals: seq<Journal>, i: nat, account: Code)
    requires PointsBack(journals) && i < |journals| && IsLive(journals, i)
    ensures var t := Reversed(journals, i);
            LiveTotal(t, account, |journals| + 1)
                == LiveTotal(journals, account, |journals|) - Balance(journals[i].lines, account)
  {
    hide Balance, IsReversed, Mirror;
    var t := Reversed(journals, i);
    ReversedAfterReversal(journals, i);
    LiveTotalDrops(journals, t, account, |journals|, Some(i));
  }

  /** After any run of postings and reversals the ledger reads, on every
      account, as if only the journals never reversed had been posted. */
  lemma {:induction false} ReversedJournalsNetOut(events: seq<Event>, account: Code)
    ensures Invariant(Run([], events))
    ensures Total(Run([], events), account) == LiveTotal(Run([], events), account, |Run([], events)|)
  {
    if events != [] {
      hide Step, Invariant, Total, LiveTotal;
      var front, e := events[..|events| - 1], events[|events| - 1];
      ReversedJournalsNetOut(front, account);
      StepKeepsInvariant(Run([], front), e);
      StepMovesBoth(Run([], front), e, account);
    }
  }

  lemma StepMovesBoth(s: seq<Journal>, e: Event, account: Code)
    requires Invariant(s)
    ensures var t := Step(s, e);
            Total(t, account) - Total(s, account) == LiveTotal(t, account, |t|) - LiveTotal(s, account, |s|)
  {
    hide IsBalanced, IsPosted, IsReversed, Invariant, Total, LiveTotal, Balance, Mirror;
    if Step(s, e) != s {
      match e
      case Post(lines, source, chart, open) =>
        PlainPostingMovesBoth(s, Journal(lines, source, None, true), account);
      case PostManual(lines, codes, open) =>
        PlainPostingMovesBoth(s, Journal(lines, None, None, false), account);
      case Reverse(i, hasReason, open) =>
        ReversalMovesBoth(s, i, account);
    }
  }

  lemma PlainPostingMovesBoth(s: seq<Journal>, j: Journal, account: Code)
    requires Invariant(s) && j.reversalOf.None?
    ensures Total(s + [j], account) - Total(s, account)
            == LiveTotal(s + [j], account, |s| + 1) - LiveTotal(s, account, |s|)
  {
    InvariantPointsBack(s);
    TotalAppend(s, j, account);
    AppendKeepsLive(s, j, account);
  }

  lemma ReversalMovesBoth(s: seq<Journal>, i: nat, account: Code)
    requires Invariant(s) && i < |s| && IsLive(s, i)
    ensures var t := Reversed(s, i);
            Total(t, account) - Total(s, account) == LiveTotal(t, account, |s| + 1) - LiveTotal(s, account, |s|)
  {
    hide IsBalanced;
    var marked := s[i := s[i].(hasHeader := true)];
    InvariantPointsBack(s);
    TotalSameLines(s, marked, account);
    TotalAppend(marked, Journal(Mirror(s[i].lines), None, Some(i), true), account);
    MirrorUndoes(s[i].lines, account);
    ReversalKeepsLive(s, i, account);
  }

  // ----- What posting needs, and what it then does -----

  /** Nothing is posted or reversed in a locked period; what is added is one
      well-formed journal, to active accounts where they are checked, and for an
      event posted before, never. */
  lemma PostingNeedsOpenPeriod(journals: seq<Journal>, e: Event)
    requires Step(journals, e) != journals && forall j :: 0 <= j < |journals| ==> IsBalanced(journals[j].lines)
    ensures e.open && |Step(journals, e)| == |journals| + 1
    ensures IsBalanced(Step(journals, e)[|journals|].lines)
    ensures e.Post? && e.chart.Some? ==> forall i :: 0 <= i < |e.lines| ==> e.lines[i].account in e.chart.value
    ensures e.Post? && e.source.Some? ==> forall j :: 0 <= j < |journals| ==> journals[j].source != e.source
    ensures e.Reverse? ==> e.hasReason
  {
    if e.Reverse? {
      MirrorUndoes(journals[e.i].lines, 0);
    }
    hide IsBalanced, Mirror;
  }

  /** A journal is posted exactly when it has at least two one-sided lines whose
      debits equal their credits, in an open period, on active accounts where they
      are checked, for an event not posted before; then it is the last one. */
  lemma PostIsAcceptedIff(
    journals: seq<Journal>, lines: seq<Line>, source: Option<Source>, chart: Option<set<Code>>, open: bool)
    ensures Step(journals, Post(lines, source, chart, open))
            == journals
               + if && |lines| >= 2 && TotalDebit(lines) == TotalCredit(lines) && open
                    && (forall i :: 0 <= i < |lines| ==>
                          || (lines[i].debit > 0 && lines[i].credit == 0)
                          || (lines[i].credit > 0 && lines[i].debit == 0))
                    && (forall i :: 0 <= i < |lines| && chart.Some? ==> lines[i].account in chart.value)
                    && (forall j :: 0 <= j < |journals| && source.Some? ==> journals[j].source != source)
                 then [Journal(lines, source, None, true)] else []
  {
    hide TotalDebit, TotalCredit;
    assert journals + [] == journals;
    assert forall i :: 0 <= i < |lines| ==>
        (IsSingleSided(lines[i]) <==>
           || (lines[i].debit > 0 && lines[i].credit == 0) || (lines[i].credit > 0 && lines[i].debit == 0));
  }

  /** A plain journal can be reversed once, with a reason in an open period; not
      again; and its reversal not at all. */
  lemma ReversedOnceOnly(journals: seq<Journal>, i: nat, reason: bool, open: bool)
    requires PointsBack(journals) && i < |journals| && journals[i].reversalOf.None?
    requires forall j :: 0 <= j < |journals| ==> journals[j].reversalOf != Some(i)
    ensures var once := Step(journals, Reverse(i, true, true));
            && |once| == |journals| + 1
            && once[|journals|].lines == Mirror(journals[i].lines) && once[|journals|].reversalOf == Some(i)
            && Step(once, Reverse(i, reason, open)) == once
            && Step(once, Reverse(|journals|, reason, open)) == once
    ensures !reason || !open ==> Step(journals, Reverse(i, reason, open)) == journals
  {
    hide Mirror;
    var once := Step(journals, Reverse(i, true, true));
    assert once[|journals|].reversalOf == Some(i);
  }
}
