/** Matching bank statement lines to ledger entries
    (app/services/bank_reconciliation.py, called from
    app/api/v1/company_bank_accounts.py). */
module BankReconciliation {
  import opened Base

  datatype BankAccount = BankAccount(org: Uuid, chartCode: string)

  datatype Line = Line(id: Uuid, bankAccount: Uuid, amount: int, matched: Option<Uuid>)

  datatype Entry = Entry(id: Uuid, org: Uuid, account: string, debit: int, credit: int) {
    function Signed(): int { debit - credit }
  }

  datatype State = State(accounts: map<Uuid, BankAccount>, lines: seq<Line>, ledger: seq<Entry>)

  datatype Refusal =
    | ZeroAmount | AlreadyMatched | EntryNotFound | WrongAccount | EntryTaken | AmountMismatch
    | BankAccountNotFound | LineNotFound

  function FindEntry(ledger: seq<Entry>, id: Uuid): (r: Option<Entry>)
    ensures r.Some? ==> r.value in ledger && r.value.id == id
    ensures r.None? ==> forall e :: e in ledger ==> e.id != id
  {
    if ledger == [] then None
    else if ledger[|ledger| - 1].id == id then Some(ledger[|ledger| - 1])
    else FindEntry(ledger[..|ledger| - 1], id)
  }

  function FindLine(lines: seq<Line>, id: Uuid): (r: Option<nat>)
    ensures r.Some? ==> r.value < |lines| && lines[r.value].id == id
    ensures r.None? ==> forall i :: 0 <= i < |lines| ==> lines[i].id != id
  {
    if lines == [] then None
    else if lines[|lines| - 1].id == id then Some(|lines| - 1)
    else FindLine(lines[..|lines| - 1], id)
  }

  predicate IsTaken(lines: seq<Line>, entry: Uuid) {
    exists i :: 0 <= i < |lines| && lines[i].matched == Some(entry)
  }

  /** match_line's guards, in order. `account` is the one the caller passes. */
  function MatchRefusal(s: State, line: nat, account: BankAccount, entry: Uuid): Option<Refusal>
    requires line < |s.lines|
  {
    if s.lines[line].matched.Some? then Some(AlreadyMatched)
    else
      var found := FindEntry(s.ledger, entry);
      if found.None? || found.value.org != account.org then Some(EntryNotFound)
      else if found.value.account != account.chartCode then Some(WrongAccount)
      else if IsTaken(s.lines, entry) then Some(EntryTaken)
      else if found.value.Signed() != s.lines[line].amount then Some(AmountMismatch)
      else None
  }

  function SetMatch(s: State, line: nat, matched: Option<Uuid>): State
    requires line < |s.lines|
  {
    s.(lines := s.lines[line := s.lines[line].(matched := matched)])
  }

  // ----- The tables, updated in place -----

  datatype Summary = Summary(bankBalance: int, ledgerBalance: int, difference: int,
                             unmatchedLines: seq<Line>, unmatchedEntries: seq<Entry>)

  class Tables {
    var accounts: map<Uuid, BankAccount>
    var lines: seq<Line>
    var ledger: seq<Entry>

    function Now(): State
      reads this
    {
      State(accounts, lines, ledger)
    }

    constructor ()
      ensures Now() == EMPTY
    {
      accounts, lines, ledger := map[], [], [];
    }

    method CreateStatementLine(account: Uuid, id: Uuid, amount: int) returns (r: Result<Line, Refusal>)
      modifies this
      ensures r.Ok? <==> amount != 0
      ensures r.Ok? ==> r.value == Line(id, account, amount, None)
      ensures lines == old(lines) + if r.Ok? then [r.value] else []
      ensures accounts == old(accounts) && ledger == old(ledger)
    {
      if amount == 0 {
        return Err(ZeroAmount);
      }
      var line := Line(id, account, amount, None);
      lines := lines + [line];
      return Ok(line);
    }

    /** match_line: the line is a row already fetched, and nothing in here ties
        it to the account passed along. */
    method MatchLine(line: nat, account: BankAccount, entryId: Uuid) returns (r: Result<Line, Refusal>)
      requires line < |lines|
      modifies this
      ensures r.Err? <==> MatchRefusal(old(Now()), line, account, entryId).Some?
      ensures r.Err? ==> Some(r.error) == MatchRefusal(old(Now()), line, account, entryId) && Now() == old(Now())
      ensures r.Ok? ==> Now() == SetMatch(old(Now()), line, Some(entryId)) && r.value == lines[line]
    {
      if lines[line].matched.Some? {
        return Err(AlreadyMatched);
      }
      var entry := FindEntry(ledger, entryId);
      if entry.None? || entry.value.org != account.org {
        return Err(EntryNotFound);
      }
      if entry.value.account != account.chartCode {
        return Err(WrongAccount);
      }
      if IsTaken(lines, entryId) {
        return Err(EntryTaken);
      }
      if entry.value.Signed() != lines[line].amount {
        return Err(AmountMismatch);
      }
      lines := lines[line := lines[line].(matched := Some(entryId))];
      return Ok(lines[line]);
    }

    method UnmatchLine(line: nat) returns (r: Line)
      requires line < |lines|
      modifies this
      ensures Now() == SetMatch(old(Now()), line, None) && r == lines[line]
    {
      lines := lines[line := lines[line].(matched := None)];
      return lines[line];
    }

    /** The route: the account and the line must exist, and belong together. */
    method LineOfAccount(accountId: Uuid, lineId: Uuid) returns (r: Result<nat, Refusal>)
      ensures r == LookUp(Now(), accountId, lineId)
    {
      if accountId !in accounts {
        return Err(BankAccountNotFound);
      }
      var line := FindLine(lines, lineId);
      if line.None? || lines[line.value].bankAccount != accountId {
        return Err(LineNotFound);
      }
      return Ok(line.value);
    }

    method Match(accountId: Uuid, lineId: Uuid, entryId: Uuid) returns (r: Result<Line, Refusal>)
      modifies this
      ensures Now() == Step(old(Now()), MatchEvent(accountId, lineId, entryId))
      ensures var line := LookUp(old(Now()), accountId, lineId);
              if line.Err? then r == Err(line.error)
              else
                var refusal := MatchRefusal(old(Now()), line.value, old(accounts)[accountId], entryId);
                r == if refusal.Some? then Err(refusal.value)
                     else Ok(old(lines)[line.value].(matched := Some(entryId)))
      ensures r.Err? ==> Now() == old(Now())
    {
      var line := LineOfAccount(accountId, lineId);
      if line.Err? {
        return Err(line.error);
      }
      r := MatchLine(line.value, accounts[accountId], entryId);
    }

    method Unmatch(accountId: Uuid, lineId: Uuid) returns (r: Result<Line, Refusal>)
      modifies this
      ensures Now() == Step(old(Now()), UnmatchEvent(accountId, lineId))
      ensures var line := LookUp(old(Now()), accountId, lineId);
              r == if line.Err? then Err(line.error) else Ok(old(lines)[line.value].(matched := None))
      ensures r.Err? ==> Now() == old(Now())
    {
      var line := LineOfAccount(accountId, lineId);
      if line.Err? {
        return Err(line.error);
      }
      var row := UnmatchLine(line.value);
      return Ok(row);
    }

    /** reconciliation_summary. */
    method ReconciliationSummary(accountId: Uuid) returns (r: Summary)
      requires accountId in accounts
      ensures r.bankBalance == TotalLines(LinesOf(lines, accountId))
      ensures r.ledgerBalance == TotalEntries(EntriesOf(ledger, accounts[accountId]))
      ensures r.difference == r.bankBalance - r.ledgerBalance
      ensures r.unmatchedLines == Unmatched(LinesOf(lines, accountId))
      ensures r.unmatchedEntries
          == Outside(EntriesOf(ledger, accounts[accountId]), MatchedIds(LinesOf(lines, accountId)))
      ensures forall l: Line ::
                multiset(r.unmatchedLines)[l] == if IsOutstanding(accountId, l) then multiset(lines)[l] else 0
      ensures forall e: Entry ::
                multiset(r.unmatchedEntries)[e]
                == if IsOutstandingEntry(lines, accountId, accounts[accountId], e) then multiset(ledger)[e] else 0
    {
      hide LinesOf, EntriesOf, IsOutstanding, IsOutstandingEntry;
      var own := LinesOf(lines, accountId);
      var bank, unmatchedLines, matchedIds := 0, [], {};
      for i := 0 to |own|
        invariant bank == TotalLines(own[..i])
        invariant unmatchedLines == Unmatched(own[..i])
        invariant matchedIds == MatchedIds(own[..i])
      {
        assert own[..i + 1][..i] == own[..i];
        bank := bank + own[i].amount;
        if own[i].matched.None? {
          unmatchedLines := unmatchedLines + [own[i]];
        } else {
          matchedIds := matchedIds + {own[i].matched.value};
        }
      }
      assert own[..|own|] == own;
      var entries := EntriesOf(ledger, accounts[accountId]);
      var books, unmatchedEntries := 0, [];
      for i := 0 to |entries|
        invariant books == TotalEntries(entries[..i])
        invariant unmatchedEntries == Outside(entries[..i], matchedIds)
      {
        assert entries[..i + 1][..i] == entries[..i];
        books := books + entries[i].Signed();
        if entries[i].id !in matchedIds {
          unmatchedEntries := unmatchedEntries + [entries[i]];
        }
      }
      assert entries[..|entries|] == entries;
      r := Summary(bank, books, bank - books, unmatchedLines, unmatchedEntries);
      SummaryListsOutstanding(lines, ledger, accountId, accounts[accountId]);
    }
  }

  // ----- What the summary adds up -----

  function LinesOf(lines: seq<Line>, account: Uuid): seq<Line> {
    if lines == [] then []
    else
      var last := lines[|lines| - 1];
      LinesOf(lines[..|lines| - 1], account) + if last.bankAccount == account then [last] else []
  }

  function TotalLines(lines: seq<Line>): int {
    if lines == [] then 0 else TotalLines(lines[..|lines| - 1]) + lines[|lines| - 1].amount
  }

  function Unmatched(lines: seq<Line>): seq<Line> {
    if lines == [] then []
    else
      var last := lines[|lines| - 1];
      Unmatched(lines[..|lines| - 1]) + if last.matched.None? then [last] else []
  }

  function MatchedIds(lines: seq<Line>): set<Uuid> {
    if lines == [] then {}
    else
      var last := lines[|lines| - 1];
      MatchedIds(lines[..|lines| - 1]) + if last.matched.Some? then {last.matched.value} else {}
  }

  function EntriesOf(ledger: seq<Entry>, account: BankAccount): seq<Entry> {
    if ledger == [] then []
    else
      var last := ledger[|ledger| - 1];
      EntriesOf(ledger[..|ledger| - 1], account)
      + if last.org == account.org && last.account == account.chartCode then [last] else []
  }

  function TotalEntries(entries: seq<Entry>): int {
    if entries == [] then 0 else TotalEntries(entries[..|entries| - 1]) + entries[|entries| - 1].Signed()
  }

  function Outside(entries: seq<Entry>, ids: set<Uuid>): seq<Entry> {
    if entries == [] then []
    else
      var last := entries[|entries| - 1];
      Outside(entries[..|entries| - 1], ids) + if last.id in ids then [] else [last]
  }

  /** A line of the account that no entry is matched to. */
  predicate IsOutstanding(account: Uuid, l: Line) {
    l.bankAccount == account && l.matched.None?
  }

  /** An entry on the account's code that none of the account's lines holds. */
  predicate IsOutstandingEntry(lines: seq<Line>, id: Uuid, account: BankAccount, e: Entry) {
    && e.org == account.org && e.account == account.chartCode
    && forall i :: 0 <= i < |lines| && lines[i].bankAccount == id ==> lines[i].matched != Some(e.id)
  }

  /** The account's lines are every row of the account, each as often as it is
      there, whatever its sign. */
  lemma {:induction false} LinesOfCounts(lines: seq<Line>, account: Uuid, l: Line)
    ensures multiset(LinesOf(lines, account))[l] == if l.bankAccount == account then multiset(lines)[l] else 0
  {
    if lines != [] {
      LinesOfCounts(lines[..|lines| - 1], account, l);
      assert lines == lines[..|lines| - 1] + [lines[|lines| - 1]];
    }
  }

  lemma {:induction false} UnmatchedCounts(lines: seq<Line>, l: Line)
    ensures multiset(Unmatched(lines))[l] == if l.matched.None? then multiset(lines)[l] else 0
  {
    if lines != [] {
      UnmatchedCounts(lines[..|lines| - 1], l);
      assert lines == lines[..|lines| - 1] + [lines[|lines| - 1]];
    }
  }

  lemma EntriesOneMore(front: seq<Entry>, last: Entry, account: BankAccount, e: Entry)
    ensures multiset(EntriesOf(front + [last], account))[e] == multiset(EntriesOf(front, account))[e]
            + if last == e && e.org == account.org && e.account == account.chartCode then 1 else 0
  {
    assert (front + [last])[..|front|] == front;
    var own := EntriesOf(front, account);
    if last.org == account.org && last.account == account.chartCode {
      CountAppend(own, last, e);
    } else {
      assert EntriesOf(front + [last], account) == own;
    }
  }

  lemma OutsideOneMoreCounts(front: seq<Entry>, last: Entry, ids: set<Uuid>, e: Entry)
    ensures multiset(Outside(front + [last], ids))[e]
            == multiset(Outside(front, ids))[e] + if last == e && e.id !in ids then 1 else 0
  {
    assert (front + [last])[..|front|] == front;
    var kept := Outside(front, ids);
    if last.id in ids {
      assert Outside(front + [last], ids) == kept;
    } else {
      CountAppend(kept, last, e);
    }
  }

  lemma CountAppend(entries: seq<Entry>, last: Entry, e: Entry)
    ensures multiset(entries + [last])[e] == multiset(entries)[e] + if last == e then 1 else 0
  {
  }

  lemma {:induction false} EntriesOfCounts(ledger: seq<Entry>, account: BankAccount, e: Entry)
    ensures multiset(EntriesOf(ledger, account))[e]
            == if e.org == account.org && e.account == account.chartCode then multiset(ledger)[e] else 0
  {
    if ledger != [] {
      var front, last := ledger[..|ledger| - 1], ledger[|ledger| - 1];
      EntriesOfCounts(front, account, e);
      assert ledger == front + [last];
      CountAppend(front, last, e);
      EntriesOneMore(front, last, account, e);
    }
  }

  lemma {:induction false} OutsideCounts(entries: seq<Entry>, ids: set<Uuid>, e: Entry)
    ensures multiset(Outside(entries, ids))[e] == if e.id in ids then 0 else multiset(entries)[e]
  {
    if entries != [] {
      var front, last := entries[..|entries| - 1], entries[|entries| - 1];
      OutsideCounts(front, ids, e);
      assert entries == front + [last];
      CountAppend(front, last, e);
      OutsideOneMoreCounts(front, last, ids, e);
    }
  }

  predicate IsHeld(lines: seq<Line>, account: Uuid, id: Uuid) {
    exists i :: 0 <= i < |lines| && lines[i].bankAccount == account && lines[i].matched == Some(id)
  }

  lemma HeldAppend(front: seq<Line>, last: Line, account: Uuid, id: Uuid)
    ensures IsHeld(front + [last], account, id)
            <==> IsHeld(front, account, id) || (last.bankAccount == account && last.matched == Some(id))
  {
    var all := front + [last];
    if i :| 0 <= i < |front| && front[i].bankAccount == account && front[i].matched == Some(id) {
      assert all[i] == front[i];
    }
    if last.bankAccount == account && last.matched == Some(id) {
      assert all[|front|] == last;
    }
  }

  /** The matched ids of the account are those its own rows hold. */
  lemma {:induction false} MatchedIdsOf(lines: seq<Line>, account: Uuid, id: Uuid)
    ensures id in MatchedIds(LinesOf(lines, account)) <==> IsHeld(lines, account, id)
  {
    hide IsHeld, MatchedIds, LinesOf;
    if lines == [] {
      NothingHeld(account, id);
    } else {
      var front, last := lines[..|lines| - 1], lines[|lines| - 1];
      assert lines == front + [last];
      MatchedIdsOf(front, account, id);
      HeldAppend(front, last, account, id);
      MatchedAppend(front, last, account, id);
    }
  }

  lemma MatchedAppend(front: seq<Line>, last: Line, account: Uuid, id: Uuid)
    ensures id in MatchedIds(LinesOf(front + [last], account))
            <==> id in MatchedIds(LinesOf(front, account)) || (last.bankAccount == account && last.matched == Some(id))
  {
    assert (front + [last])[..|front|] == front;
    var own := LinesOf(front, account);
    if last.bankAccount == account {
      AppendLine(own, last);
    } else {
      assert LinesOf(front + [last], account) == own;
    }
  }

  lemma NothingHeld(account: Uuid, id: Uuid)
    ensures MatchedIds(LinesOf([], account)) == {} && !IsHeld([], account, id)
  {
  }

  /** What the summary lists: each row of the account that no entry is matched to,
      and each entry on its code that none of its rows holds, as often as it is
      there. */
  lemma SummaryListsOutstanding(lines: seq<Line>, ledger: seq<Entry>, id: Uuid, account: BankAccount)
    ensures forall l: Line ::
              multiset(Unmatched(LinesOf(lines, id)))[l] == if IsOutstanding(id, l) then multiset(lines)[l] else 0
    ensures forall e: Entry ::
              multiset(Outside(EntriesOf(ledger, account), MatchedIds(LinesOf(lines, id))))[e]
              == if IsOutstandingEntry(lines, id, account, e) then multiset(ledger)[e] else 0
  {
    hide LinesOf, EntriesOf, Unmatched, Outside, MatchedIds;
    forall l: Line
      ensures multiset(Unmatched(LinesOf(lines, id)))[l] == if IsOutstanding(id, l) then multiset(lines)[l] else 0
    {
      LinesOfCounts(lines, id, l);
      UnmatchedCounts(LinesOf(lines, id), l);
    }
    forall e: Entry
      ensures multiset(Outside(EntriesOf(ledger, account), MatchedIds(LinesOf(lines, id))))[e]
              == if IsOutstandingEntry(lines, id, account, e) then multiset(ledger)[e] else 0
    {
      EntriesOfCounts(ledger, account, e);
      OutsideCounts(EntriesOf(ledger, account), MatchedIds(LinesOf(lines, id)), e);
      MatchedIdsOf(lines, id, e.id);
    }
  }

  // ----- Runs of requests -----

  const EMPTY: State := State(map[], [], [])

  datatype Event =
    | RegisterEvent(accountId: Uuid, account: BankAccount)
    | PostEvent(entry: Entry)
    | CreateEvent(accountId: Uuid, lineId: Uuid, amount: int)
    | MatchEvent(accountId: Uuid, lineId: Uuid, entryId: Uuid)
    | UnmatchEvent(accountId: Uuid, lineId: Uuid)

  /** The route's two lookups. */
  function LookUp(s: State, accountId: Uuid, lineId: Uuid): (r: Result<nat, Refusal>)
    ensures r.Ok? ==> accountId in s.accounts && r.value < |s.lines| && s.lines[r.value].bankAccount == accountId
  {
    if accountId !in s.accounts then Err(BankAccountNotFound)
    else
      var line := FindLine(s.lines, lineId);
      if line.None? || s.lines[line.value].bankAccount != accountId then Err(LineNotFound) else Ok(line.value)
  }

  /** One request. New rows carry fresh identifiers; an account, once
      registered, keeps its chart code. */
  function Step(s: State, e: Event): State {
    match e
    case RegisterEvent(id, account) => if id in s.accounts then s else s.(accounts := s.accounts[id := account])
    case PostEvent(entry) => if FindEntry(s.ledger, entry.id).Some? then s else s.(ledger := s.ledger + [entry])
    case CreateEvent(account, id, amount) =>
      if account !in s.accounts || FindLine(s.lines, id).Some? || amount == 0 then s
      else s.(lines := s.lines + [Line(id, account, amount, None)])
    case MatchEvent(account, id, entry) =>
      var line := LookUp(s, account, id);
      if line.Err? || MatchRefusal(s, line.value, s.accounts[account], entry).Some? then s
      else SetMatch(s, line.value, Some(entry))
    case UnmatchEvent(account, id) =>
      var line := LookUp(s, account, id);
      if line.Err? then s else SetMatch(s, line.value, None)
  }

  function Run(s: State, events: seq<Event>): State {
    if events == [] then s else Step(Run(s, events[..|events| - 1]), events[|events| - 1])
  }

  /** Every matched line points at an entry on its own account's code, of its
      own amount. */
  predicate MatchIsSound(s: State, i: nat)
    requires i < |s.lines|
  {
    var line := s.lines[i];
    && line.bankAccount in s.accounts
    && (line.matched.Some? ==>
          var entry := FindEntry(s.ledger, line.matched.value);
          && entry.Some?
          && entry.value.org == s.accounts[line.bankAccount].org
          && entry.value.account == s.accounts[line.bankAccount].chartCode
          && entry.value.Signed() == line.amount)
  }

  /** Across all bank accounts, no entry is matched twice. */
  predicate MatchIsInjective(lines: seq<Line>) {
    forall i, j :: 0 <= i < j < |lines| && lines[i].matched.Some? ==> lines[i].matched != lines[j].matched
  }

  predicate UniqueEntryIds(ledger: seq<Entry>) {
    forall i, j :: 0 <= i < j < |ledger| ==> ledger[i].id != ledger[j].id
  }

  predicate Invariant(s: State) {
    && UniqueEntryIds(s.ledger)
    && (forall i :: 0 <= i < |s.lines| ==> MatchIsSound(s, i))
    && MatchIsInjective(s.lines)
  }

  lemma StepKeepsInvariant(s: State, e: Event)
    requires Invariant(s)
    ensures Invariant(Step(s, e))
  {
    hide MatchIsSound, MatchIsInjective, UniqueEntryIds, MatchRefusal;
    match e
    case RegisterEvent(id, account) =>
      if id !in s.accounts {
        forall i | 0 <= i < |s.lines|
          ensures MatchIsSound(Step(s, e), i)
        {
          RegisteringKeepsSound(s, id, account, i);
        }
      }
    case PostEvent(entry) =>
      if FindEntry(s.ledger, entry.id).None? {
        PostingKeepsUnique(s.ledger, entry);
        forall i | 0 <= i < |s.lines|
          ensures MatchIsSound(Step(s, e), i)
        {
          PostingKeepsSound(s, entry, i);
        }
      }
    case CreateEvent(accountId, id, amount) => CreatingKeepsInvariant(s, e);
    case MatchEvent(accountId, id, entry) =>
      var line := LookUp(s, accountId, id);
      if line.Ok? && MatchRefusal(s, line.value, s.accounts[accountId], entry).None? {
        MatchingKeepsInvariant(s, line.value, entry);
      }
    case UnmatchEvent(accountId, id) =>
      var line := LookUp(s, accountId, id);
      if line.Ok? {
        UnmatchingKeepsInvariant(s, line.value);
      }
  }

  lemma RegisteringKeepsSound(s: State, id: Uuid, account: BankAccount, i: nat)
    requires id !in s.accounts && i < |s.lines| && MatchIsSound(s, i)
    ensures MatchIsSound(s.(accounts := s.accounts[id := account]), i)
  {
  }

  lemma PostingKeepsUnique(ledger: seq<Entry>, e: Entry)
    requires UniqueEntryIds(ledger) && FindEntry(ledger, e.id).None?
    ensures UniqueEntryIds(ledger + [e])
  {
  }

  lemma PostingKeepsSound(s: State, e: Entry, i: nat)
    requires FindEntry(s.ledger, e.id).None? && i < |s.lines| && MatchIsSound(s, i)
    ensures MatchIsSound(s.(ledger := s.ledger + [e]), i)
  {
    assert (s.ledger + [e])[..|s.ledger|] == s.ledger;
  }

  lemma CreatingKeepsInvariant(s: State, e: Event)
    requires Invariant(s) && e.CreateEvent?
    ensures Invariant(Step(s, e))
  {
    hide UniqueEntryIds, FindEntry;
    var t := Step(s, e);
    forall i | 0 <= i < |t.lines|
      ensures MatchIsSound(t, i)
    {
      assert i < |s.lines| ==> MatchIsSound(s, i);
    }
  }

  lemma MatchingKeepsInvariant(s: State, line: nat, entry: Uuid)
    requires Invariant(s) && line < |s.lines|
    requires MatchRefusal(s, line, s.accounts[AccountOf(s, line)], entry).None?
    ensures Invariant(SetMatch(s, line, Some(entry)))
  {
    hide UniqueEntryIds, FindEntry;
    var t := SetMatch(s, line, Some(entry));
    forall i | 0 <= i < |t.lines|
      ensures MatchIsSound(t, i)
    {
      assert MatchIsSound(s, i);
    }
  }

  /** The account of a sound line. */
  function AccountOf(s: State, line: nat): (id: Uuid)
    requires Invariant(s) && line < |s.lines|
    ensures id in s.accounts && id == s.lines[line].bankAccount
  {
    assert MatchIsSound(s, line);
    s.lines[line].bankAccount
  }

  lemma UnmatchingKeepsInvariant(s: State, line: nat)
    requires Invariant(s) && line < |s.lines|
    ensures Invariant(SetMatch(s, line, None))
  {
    hide UniqueEntryIds, FindEntry;
    var t := SetMatch(s, line, None);
    forall i | 0 <= i < |t.lines|
      ensures MatchIsSound(t, i)
    {
      assert MatchIsSound(s, i);
    }
  }

  lemma {:induction false} RunKeepsInvariant(events: seq<Event>)
    ensures Invariant(Run(EMPTY, events))
  {
    if events != [] {
      RunKeepsInvariant(events[..|events| - 1]);
      StepKeepsInvariant(Run(EMPTY, events[..|events| - 1]), events[|events| - 1]);
    }
  }

  // ----- The difference is the outstanding items -----

  /** The signed amount of the entry with this id, 0 if there is none. */
  function AmountOf(entries: seq<Entry>, id: Uuid): int {
    var e := FindEntry(entries, id);
    if e.None? then 0 else e.value.Signed()
  }

  lemma TotalAppend(entries: seq<Entry>, e: Entry)
    ensures TotalEntries(entries + [e]) == TotalEntries(entries) + e.Signed()
    ensures TotalEntries(entries + []) == TotalEntries(entries)
  {
    assert (entries + [e])[..|entries|] == entries;
    assert entries + [] == entries;
  }

  /** Setting aside one more entry lowers the outside total by its amount. */
  lemma {:induction false} OutsideOneMore(entries: seq<Entry>, ids: set<Uuid>, id: Uuid)
    requires UniqueEntryIds(entries) && id !in ids
    ensures TotalEntries(Outside(entries, ids + {id})) == TotalEntries(Outside(entries, ids)) - AmountOf(entries, id)
  {
    if entries != [] {
      var front, last := entries[..|entries| - 1], entries[|entries| - 1];
      assert entries == front + [last];
      OutsideOneMore(front, ids, id);
      OutsideAppend(front, last, ids);
      OutsideAppend(front, last, ids + {id});
      AmountOfAppend(front, last, id);
      hide TotalEntries, AmountOf, Outside, UniqueEntryIds;
    }
  }

  lemma OutsideAppend(front: seq<Entry>, last: Entry, ids: set<Uuid>)
    ensures TotalEntries(Outside(front + [last], ids))
            == TotalEntries(Outside(front, ids)) + if last.id in ids then 0 else last.Signed()
  {
    assert (front + [last])[..|front|] == front;
    TotalAppend(Outside(front, ids), last);
  }

  /** With unique ids, one more entry matters to its own id alone. */
  lemma AmountOfAppend(front: seq<Entry>, last: Entry, id: Uuid)
    requires UniqueEntryIds(front + [last])
    ensures AmountOf(front + [last], id) == if last.id == id then last.Signed() else AmountOf(front, id)
  {
    var all := front + [last];
    assert all[..|front|] == front && all[|front|] == last;
    assert forall k :: 0 <= k < |front| ==> all[k] == front[k] && all[k].id != last.id;
    assert last.id == id ==> FindEntry(front, id).None?;
  }

  lemma {:induction false} OutsideNothing(entries: seq<Entry>)
    ensures Outside(entries, {}) == entries
  {
    if entries != [] {
      OutsideNothing(entries[..|entries| - 1]);
    }
  }

  lemma {:induction false} EntriesOfKeepsIds(ledger: seq<Entry>, account: BankAccount)
    requires UniqueEntryIds(ledger)
    ensures UniqueEntryIds(EntriesOf(ledger, account))
    ensures forall e ::
              e in EntriesOf(ledger, account) <==> e in ledger && e.org == account.org && e.account == account.chartCode
  {
    if ledger != [] {
      var front, last := ledger[..|ledger| - 1], ledger[|ledger| - 1];
      assert ledger == front + [last];
      EntriesOfKeepsIds(front, account);
    }
  }

  /** A soundly matched entry is among its account's entries, at its amount. */
  lemma AmountOfMatched(s: State, i: nat)
    requires Invariant(s) && i < |s.lines| && MatchIsSound(s, i) && s.lines[i].matched.Some?
    ensures AmountOf(EntriesOf(s.ledger, s.accounts[s.lines[i].bankAccount]), s.lines[i].matched.value)
        == s.lines[i].amount
  {
    var account, id := s.accounts[s.lines[i].bankAccount], s.lines[i].matched.value;
    EntriesOfKeepsIds(s.ledger, account);
    var listed, own := FindEntry(s.ledger, id).value, EntriesOf(s.ledger, account);
    var k :| 0 <= k < |own| && own[k] == listed;
    assert FindEntry(own, id).Some?;
    var found := FindEntry(own, id).value;
    var m :| 0 <= m < |own| && own[m] == found;
    assert m == k;
  }

  lemma {:induction false} MatchedIdsMember(lines: seq<Line>, account: Uuid, id: Uuid)
    requires id in MatchedIds(LinesOf(lines, account))
    ensures exists i :: 0 <= i < |lines| && lines[i].matched == Some(id)
  {
    if lines != [] {
      var front, last := lines[..|lines| - 1], lines[|lines| - 1];
      AppendLine(LinesOf(front, account), last);
      assert LinesOf(front, account) + [] == LinesOf(front, account);
      if id in MatchedIds(LinesOf(front, account)) {
        MatchedIdsMember(front, account, id);
        var i :| 0 <= i < |front| && front[i].matched == Some(id);
        assert lines[i].matched == Some(id);
      } else {
        assert lines[|lines| - 1].matched == Some(id);
      }
    }
  }

  /** Line by line: what the matched lines carry, the matched entries carry. */
  lemma {:induction false} MatchedAmountsCancel(s: State, account: Uuid, n: nat)
    requires Invariant(s) && account in s.accounts && n <= |s.lines|
    ensures Cancels(EntriesOf(s.ledger, s.accounts[account]), LinesOf(s.lines[..n], account))
  {
    if n == 0 {
      OutsideNothing(EntriesOf(s.ledger, s.accounts[account]));
    } else {
      MatchedAmountsCancel(s, account, n - 1);
      assert s.lines[..n][..n - 1] == s.lines[..n - 1];
      assert MatchIsSound(s, n - 1);
      if s.lines[n - 1].bankAccount == account {
        OneMoreLine(s, account, n - 1);
      } else {
        assert LinesOf(s.lines[..n], account) == LinesOf(s.lines[..n - 1], account);
      }
    }
  }

  predicate Cancels(entries: seq<Entry>, own: seq<Line>) {
    TotalLines(own) - TotalLines(Unmatched(own))
        == TotalEntries(entries) - TotalEntries(Outside(entries, MatchedIds(own)))
  }

  lemma OneMoreLine(s: State, account: Uuid, i: nat)
    requires Invariant(s) && account in s.accounts && i < |s.lines| && MatchIsSound(s, i)
    requires s.lines[i].bankAccount == account
    requires Cancels(EntriesOf(s.ledger, s.accounts[account]), LinesOf(s.lines[..i], account))
    ensures Cancels(EntriesOf(s.ledger, s.accounts[account]), LinesOf(s.lines[..i], account) + [s.lines[i]])
  {
    hide MatchIsSound, EntriesOf, LinesOf, Outside, TotalEntries, TotalLines, Unmatched, MatchedIds;
    var entries, before, line := EntriesOf(s.ledger, s.accounts[account]), LinesOf(s.lines[..i], account), s.lines[i];
    AppendLine(before, line);
    if line.matched.Some? {
      NotMatchedEarlier(s, account, i);
      EntriesOfKeepsIds(s.ledger, s.accounts[account]);
      OutsideOneMore(entries, MatchedIds(before), line.matched.value);
      AmountOfMatched(s, i);
    } else {
      assert MatchedIds(before) + {} == MatchedIds(before);
    }
  }

  lemma NotMatchedEarlier(s: State, account: Uuid, i: nat)
    requires MatchIsInjective(s.lines) && i < |s.lines| && s.lines[i].matched.Some?
    ensures s.lines[i].matched.value !in MatchedIds(LinesOf(s.lines[..i], account))
  {
    var id := s.lines[i].matched.value;
    if id in MatchedIds(LinesOf(s.lines[..i], account)) {
      MatchedIdsMember(s.lines[..i], account, id);
    }
  }

  lemma AppendLine(lines: seq<Line>, line: Line)
    ensures TotalLines(lines + [line]) == TotalLines(lines) + line.amount
    ensures TotalLines(Unmatched(lines + [line]))
            == TotalLines(Unmatched(lines)) + if line.matched.None? then line.amount else 0
    ensures MatchedIds(lines + [line]) == MatchedIds(lines) + if line.matched.Some? then {line.matched.value} else {}
  {
    assert (lines + [line])[..|lines|] == lines;
    assert (Unmatched(lines) + [line])[..|Unmatched(lines)|] == Unmatched(lines);
    assert Unmatched(lines) + [] == Unmatched(lines);
  }

  /** After any run of requests, the reported difference is exactly what the
      outstanding items say: unmatched statement lines less unmatched entries. */
  lemma DifferenceIsExplained(events: seq<Event>, account: Uuid)
    requires account in Run(EMPTY, events).accounts
    ensures var s := Run(EMPTY, events);
            var own := LinesOf(s.lines, account);
            var entries := EntriesOf(s.ledger, s.accounts[account]);
            TotalLines(own) - TotalEntries(entries)
            == TotalLines(Unmatched(own)) - TotalEntries(Outside(entries, MatchedIds(own)))
  {
    var s := Run(EMPTY, events);
    RunKeepsInvariant(events);
    assert s.lines[..|s.lines|] == s.lines;
    MatchedAmountsCancel(s, account, |s.lines|);
  }

  /** Matching and unmatching move neither balance. */
  lemma MatchingMovesNoBalance(s: State, line: nat, matched: Option<Uuid>, account: Uuid)
    requires line < |s.lines| && account in s.accounts
    ensures var t := SetMatch(s, line, matched);
            && TotalLines(LinesOf(t.lines, account)) == TotalLines(LinesOf(s.lines, account))
            && EntriesOf(t.ledger, t.accounts[account]) == EntriesOf(s.ledger, s.accounts[account])
  {
    SameAmountsSameTotal(s.lines, SetMatch(s, line, matched).lines, account);
  }

  lemma {:induction false} SameAmountsSameTotal(a: seq<Line>, b: seq<Line>, account: Uuid)
    requires |a| == |b|
    requires forall i :: 0 <= i < |a| ==> a[i].amount == b[i].amount && a[i].bankAccount == b[i].bankAccount
    ensures TotalLines(LinesOf(a, account)) == TotalLines(LinesOf(b, account))
  {
    hide TotalLines, Unmatched, MatchedIds;
    if a != [] {
      SameAmountsSameTotal(a[..|a| - 1], b[..|b| - 1], account);
      AppendLine(LinesOf(a[..|a| - 1], account), a[|a| - 1]);
      AppendLine(LinesOf(b[..|b| - 1], account), b[|b| - 1]);
      assert LinesOf(a[..|a| - 1], account) + [] == LinesOf(a[..|a| - 1], account);
      assert LinesOf(b[..|b| - 1], account) + [] == LinesOf(b[..|b| - 1], account);
    }
  }

  // ----- The balances are what was put in -----

  /** A statement line is taken when its account exists, its row is new and it
      moves money. */
  predicate TakesLine(s: State, e: Event) {
    && e.CreateEvent? && e.accountId in s.accounts && e.amount != 0
    && forall i :: 0 <= i < |s.lines| ==> s.lines[i].id != e.lineId
  }

  /** The amounts of the lines taken for an account, over a run. */
  function MoneyMoved(events: seq<Event>, account: Uuid): int {
    if events == [] then 0
    else
      var front, e := events[..|events| - 1], events[|events| - 1];
      MoneyMoved(front, account)
      + if TakesLine(Run(EMPTY, front), e) && e.accountId == account then e.amount else 0
  }

  predicate TakesEntry(s: State, e: Event) {
    e.PostEvent? && forall i :: 0 <= i < |s.ledger| ==> s.ledger[i].id != e.entry.id
  }

  /** What was posted to an organisation's account, debit less credit. */
  function Posted(events: seq<Event>, org: Uuid, code: string): int {
    if events == [] then 0
    else
      var front, e := events[..|events| - 1], events[|events| - 1];
      Posted(front, org, code)
      + if TakesEntry(Run(EMPTY, front), e) && e.entry.org == org && e.entry.account == code
        then e.entry.debit - e.entry.credit else 0
  }

  /** After any run the reported bank balance is the sum of the amounts of the
      lines taken for the account, matched or not, in or out; and the reported
      ledger balance the sum of what was posted to its code. */
  lemma {:induction false} BalancesAreWhatWasPutIn(events: seq<Event>, id: Uuid, account: BankAccount)
    ensures TotalLines(LinesOf(Run(EMPTY, events).lines, id)) == MoneyMoved(events, id)
    ensures TotalEntries(EntriesOf(Run(EMPTY, events).ledger, account))
            == Posted(events, account.org, account.chartCode)
  {
    if events != [] {
      var front, e := events[..|events| - 1], events[|events| - 1];
      BalancesAreWhatWasPutIn(front, id, account);
      StepMovesBalances(Run(EMPTY, front), e, id, account);
    }
  }

  lemma StepMovesBalances(s: State, e: Event, id: Uuid, account: BankAccount)
    ensures var t := Step(s, e);
            && TotalLines(LinesOf(t.lines, id)) - TotalLines(LinesOf(s.lines, id))
               == (if TakesLine(s, e) && e.accountId == id then e.amount else 0)
            && TotalEntries(EntriesOf(t.ledger, account)) - TotalEntries(EntriesOf(s.ledger, account))
               == (if TakesEntry(s, e) && e.entry.org == account.org && e.entry.account == account.chartCode
                   then e.entry.debit - e.entry.credit else 0)
  {
    hide MatchRefusal, TotalLines, TotalEntries, LinesOf, EntriesOf;
    match e
    case RegisterEvent(_, _) =>
    case PostEvent(entry) => NewEntry(s.ledger, entry, account);
    case CreateEvent(accountId, lineId, amount) => NewLine(s.lines, Line(lineId, accountId, amount, None), id);
    case MatchEvent(accountId, lineId, entry) =>
      var line := LookUp(s, accountId, lineId);
      if line.Ok? {
        SameAmountsSameTotal(s.lines, SetMatch(s, line.value, Some(entry)).lines, id);
      }
    case UnmatchEvent(accountId, lineId) =>
      var line := LookUp(s, accountId, lineId);
      if line.Ok? {
        SameAmountsSameTotal(s.lines, SetMatch(s, line.value, None).lines, id);
      }
  }

  lemma NewEntry(ledger: seq<Entry>, e: Entry, account: BankAccount)
    ensures TotalEntries(EntriesOf(ledger + [e], account)) - TotalEntries(EntriesOf(ledger, account))
            == if e.org == account.org && e.account == account.chartCode then e.debit - e.credit else 0
  {
    hide TotalEntries;
    assert (ledger + [e])[..|ledger|] == ledger;
    TotalAppend(EntriesOf(ledger, account), e);
  }

  lemma NewLine(lines: seq<Line>, l: Line, account: Uuid)
    ensures TotalLines(LinesOf(lines + [l], account)) - TotalLines(LinesOf(lines, account))
            == if l.bankAccount == account then l.amount else 0
  {
    hide TotalLines, Unmatched, MatchedIds;
    assert (lines + [l])[..|lines|] == lines;
    AppendLine(LinesOf(lines, account), l);
    assert LinesOf(lines, account) + [] == LinesOf(lines, account);
  }

  /** Rows keep their identifiers apart, so each is listed exactly once. */
  lemma {:induction false} LineIdsAreUnique(events: seq<Event>)
    ensures UniqueLineIds(Run(EMPTY, events).lines)
  {
    if events != [] {
      LineIdsAreUnique(events[..|events| - 1]);
      StepKeepsLineIds(Run(EMPTY, events[..|events| - 1]), events[|events| - 1]);
    }
  }

  predicate UniqueLineIds(lines: seq<Line>) {
    forall i, j :: 0 <= i < j < |lines| ==> lines[i].id != lines[j].id
  }

  lemma StepKeepsLineIds(s: State, e: Event)
    requires UniqueLineIds(s.lines)
    ensures UniqueLineIds(Step(s, e).lines)
  {
    hide MatchRefusal;
  }

  /** A match asked for through an account is made exactly when the line is an
      unmatched row of it and the entry an unclaimed one of the same amount on
      its code. */
  predicate MayMatch(s: State, accountId: Uuid, lineId: Uuid, entryId: Uuid) {
    && accountId in s.accounts
    && (exists i :: 0 <= i < |s.lines| && s.lines[i].id == lineId && s.lines[i].bankAccount == accountId
          && s.lines[i].matched.None?
          && exists k :: 0 <= k < |s.ledger| && s.ledger[k].id == entryId
               && s.ledger[k].org == s.accounts[accountId].org && s.ledger[k].account == s.accounts[accountId].chartCode
               && s.ledger[k].debit - s.ledger[k].credit == s.lines[i].amount)
    && forall i :: 0 <= i < |s.lines| ==> s.lines[i].matched != Some(entryId)
  }

  lemma MatchIsMadeIff(events: seq<Event>, accountId: Uuid, lineId: Uuid, entryId: Uuid)
    ensures var s := Run(EMPTY, events);
            var t := Step(s, MatchEvent(accountId, lineId, entryId));
            && (t != s <==> MayMatch(s, accountId, lineId, entryId))
            && (t != s ==>
                  exists i :: 0 <= i < |t.lines| && t.lines[i].id == lineId && t.lines[i].matched == Some(entryId))
  {
    var s := Run(EMPTY, events);
    RunKeepsInvariant(events);
    LineIdsAreUnique(events);
    hide Run, MatchIsSound, MatchIsInjective;
    var found := LookUp(s, accountId, lineId);
    if MayMatch(s, accountId, lineId, entryId) {
      var i :| 0 <= i < |s.lines| && s.lines[i].id == lineId && s.lines[i].bankAccount == accountId
        && s.lines[i].matched.None?;
      assert FindLine(s.lines, lineId).Some? && FindLine(s.lines, lineId).value == i;
    }
    if found.Ok? {
      SameIdSameEntry(s, entryId);
      var t := SetMatch(s, found.value, Some(entryId));
      assert t.lines[found.value].id == lineId && t.lines[found.value].matched == Some(entryId);
    }
  }

  lemma SameIdSameEntry(s: State, id: Uuid)
    requires UniqueEntryIds(s.ledger)
    ensures forall k :: 0 <= k < |s.ledger| && s.ledger[k].id == id ==> FindEntry(s.ledger, id) == Some(s.ledger[k])
  {
    if FindEntry(s.ledger, id).Some? {
      var e := FindEntry(s.ledger, id).value;
      var m :| 0 <= m < |s.ledger| && s.ledger[m] == e;
    }
  }

  // ----- What match_line itself leaves to its caller -----

  /** A match made through match_line keeps the invariant exactly when the
      account passed has the organisation and chart code of the line's own. */
  lemma MatchLineNeedsItsOwnAccount(s: State, line: nat, account: BankAccount, entry: Uuid)
    requires Invariant(s) && line < |s.lines| && MatchIsSound(s, line) && MatchRefusal(s, line, account, entry).None?
    ensures Invariant(SetMatch(s, line, Some(entry))) <==> account == s.accounts[s.lines[line].bankAccount]
  {
    var t := SetMatch(s, line, Some(entry));
    if account == s.accounts[s.lines[line].bankAccount] {
      forall i | 0 <= i < |t.lines|
        ensures MatchIsSound(t, i)
      {
        assert MatchIsSound(s, i);
      }
    } else {
      assert !MatchIsSound(t, line);
    }
  }

  /** Passed another account of the same organisation, match_line accepts, and
      the line's own account then reports a difference no outstanding item
      explains. The route's lookup is what rules this out. */
  lemma MatchLineWithAnotherAccount(own: BankAccount, other: BankAccount)
    requires own.org == other.org && own.chartCode != other.chartCode
    ensures var entry := Entry(30, other.org, other.chartCode, 500, 0);
            var s := State(map[10 := own, 11 := other], [Line(20, 10, 500, None)], [entry]);
            var matched := [Line(20, 10, 500, Some(30))];
            && Invariant(s) && MatchRefusal(s, 0, other, 30).None? && SetMatch(s, 0, Some(30)).lines == matched
            && TotalLines(LinesOf(matched, 10)) - TotalEntries(EntriesOf([entry], own)) == 500
            && Unmatched(LinesOf(matched, 10)) == [] && EntriesOf([entry], own) == []
  {
    var entry, line := Entry(30, other.org, other.chartCode, 500, 0), Line(20, 10, 500, Some(30));
    assert FindEntry([entry], 30) == Some(entry);
    assert [line][..0] == [] && [entry][..0] == [];
    assert LinesOf([line], 10) == [line];
    assert EntriesOf([entry], own) == [];
  }
}
