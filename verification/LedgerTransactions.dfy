/** The double-entry guarantee of ledger_entries: append-only rows, checks on
    each row, and a balance check deferred to commit
    (alembic/versions/a9e0853f4b4b_payroll_core_employees_bank_accounts_.py),
    under concurrent transactions. */
module LedgerTransactions {
  import opened Base

  datatype Row = Row(org: Uuid, journal: Uuid, account: string, debit: int, credit: int)

  /** The two CHECK constraints. */
  predicate IsSingleSided(r: Row) {
    && r.debit >= 0 && r.credit >= 0
    && ((r.debit > 0 && r.credit == 0) || (r.credit > 0 && r.debit == 0))
  }

  /** Debits less credits of one journal, over the rows one organisation sees. */
  function Imbalance(rows: seq<Row>, org: Uuid, journal: Uuid): int {
    if rows == [] then 0
    else
      var last := rows[|rows| - 1];
      Imbalance(rows[..|rows| - 1], org, journal)
      + if last.org == org && last.journal == journal then last.debit - last.credit else 0
  }

  /** Where a transaction stands. Committing(n): the deferred trigger has fired,
      and passed, for the first n rows it inserted. */
  datatype Phase = Open | Committing(fired: nat) | Failed

  datatype Transaction = Transaction(org: Uuid, inserted: seq<Row>, phase: Phase)

  /** `history` holds each committed transaction's rows, in commit order, so a
      snapshot is a prefix of it. */
  datatype State = State(history: seq<seq<Row>>, transactions: map<Uuid, Transaction>)

  function Rows(history: seq<seq<Row>>): seq<Row> {
    if history == [] then [] else Rows(history[..|history| - 1]) + history[|history| - 1]
  }

  /** What the trigger's query sees: the rows of a snapshot, and the
      transaction's own. */
  function Visible(history: seq<seq<Row>>, snapshot: nat, t: Transaction): seq<Row>
    requires snapshot <= |history|
  {
    Rows(history[..snapshot]) + t.inserted
  }

  datatype Event =
    | Begin(tx: Uuid, org: Uuid)
    | Insert(tx: Uuid, row: Row)
    | Modify(tx: Uuid)
    | RequestCommit(tx: Uuid)
    | FireTrigger(tx: Uuid, snapshot: nat)
    | Commit(tx: Uuid)
    | Rollback(tx: Uuid)

  /** One event; one that the database would refuse changes nothing. */
  function Step(s: State, e: Event): State {
    if e.Begin? then
      if e.tx in s.transactions then s
      else s.(transactions := s.transactions[e.tx := Transaction(e.org, [], Open)])
    else if e.tx !in s.transactions then s
    else
      var t := s.transactions[e.tx];
      match e
      case Insert(tx, row) =>
        if !t.phase.Open? then s
        else if IsSingleSided(row) && row.org == t.org then
          s.(transactions := s.transactions[tx := t.(inserted := t.inserted + [row])])
        else s.(transactions := s.transactions[tx := t.(phase := Failed)])
      case Modify(tx) =>
        if !t.phase.Open? then s else s.(transactions := s.transactions[tx := t.(phase := Failed)])
      case RequestCommit(tx) =>
        if !t.phase.Open? then s else s.(transactions := s.transactions[tx := t.(phase := Committing(0))])
      case FireTrigger(tx, snapshot) =>
        if !t.phase.Committing? || t.phase.fired >= |t.inserted| || snapshot > |s.history| then s
        else if Imbalance(Visible(s.history, snapshot, t), t.org, t.inserted[t.phase.fired].journal) == 0 then
          s.(transactions := s.transactions[tx := t.(phase := Committing(t.phase.fired + 1))])
        else s.(transactions := s.transactions[tx := t.(phase := Failed)])
      case Commit(tx) =>
        if t.phase == Committing(|t.inserted|)
        then State(s.history + [t.inserted], s.transactions - {tx})
        else s
      case Rollback(tx) => s.(transactions := s.transactions - {tx})
  }

  function Run(s: State, events: seq<Event>): State {
    if events == [] then s else Step(Run(s, events[..|events| - 1]), events[|events| - 1])
  }

  const EMPTY: State := State([], map[])

  // ----- The database, updated in place -----

  class Database {
    var history: seq<seq<Row>>
    var transactions: map<Uuid, Transaction>

    function Now(): State
      reads this
    {
      State(history, transactions)
    }

    constructor ()
      ensures Now() == EMPTY
    {
      history, transactions := [], map[];
    }

    method BeginTransaction(tx: Uuid, org: Uuid)
      modifies this
      ensures Now() == Step(old(Now()), Begin(tx, org))
    {
      if tx !in transactions {
        transactions := transactions[tx := Transaction(org, [], Open)];
      }
    }

    method SetPhase(tx: Uuid, phase: Phase)
      requires tx in transactions
      modifies this`transactions
      ensures transactions == old(transactions)[tx := old(transactions)[tx].(phase := phase)]
    {
      transactions := transactions[tx := transactions[tx].(phase := phase)];
    }

    /** Row-level checks, and the tenant policy, which also governs new rows. */
    method InsertRow(tx: Uuid, row: Row)
      modifies this
      ensures Now() == Step(old(Now()), Insert(tx, row))
    {
      if tx in transactions && transactions[tx].phase.Open? {
        var t := transactions[tx];
        if IsSingleSided(row) && row.org == t.org {
          transactions := transactions[tx := t.(inserted := t.inserted + [row])];
        } else {
          SetPhase(tx, Failed);
        }
      }
    }

    /** forbid_update_delete: an UPDATE or DELETE that reaches a row raises. */
    method ModifyRow(tx: Uuid)
      modifies this
      ensures Now() == Step(old(Now()), Modify(tx))
    {
      if tx in transactions && transactions[tx].phase.Open? {
        SetPhase(tx, Failed);
      }
    }

    method BeginCommit(tx: Uuid)
      modifies this
      ensures Now() == Step(old(Now()), RequestCommit(tx))
    {
      if tx in transactions && transactions[tx].phase.Open? {
        SetPhase(tx, Committing(0));
      }
    }

    /** check_ledger_entry_balance, fired for the next inserted row. */
    method CheckLedgerEntryBalance(tx: Uuid, snapshot: nat)
      modifies this
      ensures Now() == Step(old(Now()), FireTrigger(tx, snapshot))
    {
      if tx in transactions && snapshot <= |history| {
        var t := transactions[tx];
        if t.phase.Committing? && t.phase.fired < |t.inserted| {
          var imbalance := SumOf(Visible(history, snapshot, t), t.org, t.inserted[t.phase.fired].journal);
          if imbalance != 0 {
            SetPhase(tx, Failed);
          } else {
            SetPhase(tx, Committing(t.phase.fired + 1));
          }
        }
      }
    }

    method SumOf(rows: seq<Row>, org: Uuid, journal: Uuid) returns (imbalance: int)
      ensures imbalance == Imbalance(rows, org, journal)
    {
      imbalance := 0;
      for i := 0 to |rows|
        invariant imbalance == Imbalance(rows[..i], org, journal)
      {
        assert rows[..i + 1][..i] == rows[..i];
        if rows[i].org == org && rows[i].journal == journal {
          imbalance := imbalance + rows[i].debit - rows[i].credit;
        }
      }
      assert rows[..|rows|] == rows;
    }

    method CommitTransaction(tx: Uuid)
      modifies this
      ensures Now() == Step(old(Now()), Commit(tx))
    {
      if tx in transactions && transactions[tx].phase == Committing(|transactions[tx].inserted|) {
        history := history + [transactions[tx].inserted];
        transactions := transactions - {tx};
      }
    }

    method RollbackTransaction(tx: Uuid)
      modifies this
      ensures Now() == Step(old(Now()), Rollback(tx))
    {
      transactions := transactions - {tx};
    }
  }

  // ----- Safety over every run -----

  /** The rows balance journal by journal, for every organisation. */
  ghost predicate IsBalanced(rows: seq<Row>) {
    forall org, journal :: Imbalance(rows, org, journal) == 0
  }

  predicate OwnRowsAreSound(t: Transaction) {
    forall i :: 0 <= i < |t.inserted| ==> IsSingleSided(t.inserted[i]) && t.inserted[i].org == t.org
  }

  /** Every row the trigger has passed belongs to a journal the transaction
      itself leaves balanced. */
  predicate CheckedJournalsBalance(t: Transaction) {
    t.phase.Committing? ==>
      && t.phase.fired <= |t.inserted|
      && forall i :: 0 <= i < t.phase.fired ==> Imbalance(t.inserted, t.org, t.inserted[i].journal) == 0
  }

  ghost predicate Invariant(s: State) {
    && (forall i :: 0 <= i < |s.history| ==> IsBalanced(s.history[i]))
    && (forall i, j :: 0 <= i < |s.history| && 0 <= j < |s.history[i]| ==> IsSingleSided(s.history[i][j]))
    && (forall tx :: tx in s.transactions ==>
          OwnRowsAreSound(s.transactions[tx]) && CheckedJournalsBalance(s.transactions[tx]))
  }

  lemma {:induction false} ImbalanceAppend(a: seq<Row>, b: seq<Row>, org: Uuid, journal: Uuid)
    ensures Imbalance(a + b, org, journal) == Imbalance(a, org, journal) + Imbalance(b, org, journal)
  {
    if b == [] {
      assert a + b == a;
    } else {
      assert (a + b)[..|a + b| - 1] == a + b[..|b| - 1];
      ImbalanceAppend(a, b[..|b| - 1], org, journal);
    }
  }

  /** Every snapshot of balanced commits is balanced. */
  lemma {:induction false} SnapshotIsBalanced(history: seq<seq<Row>>, snapshot: nat)
    requires snapshot <= |history|
    requires forall i :: 0 <= i < |history| ==> IsBalanced(history[i])
    ensures IsBalanced(Rows(history[..snapshot]))
  {
    if snapshot > 0 {
      SnapshotIsBalanced(history, snapshot - 1);
      var earlier, last := Rows(history[..snapshot - 1]), history[snapshot - 1];
      assert history[..snapshot][..snapshot - 1] == history[..snapshot - 1];
      forall org, journal
        ensures Imbalance(Rows(history[..snapshot]), org, journal) == 0
      {
        ImbalanceAppend(earlier, last, org, journal);
      }
    }
  }

  /** Whatever other transactions commit meanwhile, and however stale its
      snapshot, the check passes exactly when the transaction's own rows
      balance that journal. */
  lemma CheckMeansOwnDeltaIsZero(s: State, t: Transaction, snapshot: nat, journal: Uuid)
    requires Invariant(s) && snapshot <= |s.history|
    ensures Imbalance(Visible(s.history, snapshot, t), t.org, journal) == Imbalance(t.inserted, t.org, journal)
  {
    SnapshotIsBalanced(s.history, snapshot);
    ImbalanceAppend(Rows(s.history[..snapshot]), t.inserted, t.org, journal);
  }

  /** A transaction whose every row has been checked is balanced throughout. */
  lemma FullyCheckedIsBalanced(t: Transaction)
    requires OwnRowsAreSound(t)
    requires forall i :: 0 <= i < |t.inserted| ==> Imbalance(t.inserted, t.org, t.inserted[i].journal) == 0
    ensures IsBalanced(t.inserted)
  {
    forall org, journal
      ensures Imbalance(t.inserted, org, journal) == 0
    {
      if i :| 0 <= i < |t.inserted| && t.inserted[i].org == org && t.inserted[i].journal == journal {
      } else {
        NoRowsNoImbalance(t.inserted, org, journal);
      }
    }
  }

  lemma {:induction false} NoRowsNoImbalance(rows: seq<Row>, org: Uuid, journal: Uuid)
    requires forall i :: 0 <= i < |rows| ==> rows[i].org != org || rows[i].journal != journal
    ensures Imbalance(rows, org, journal) == 0
  {
    if rows != [] {
      NoRowsNoImbalance(rows[..|rows| - 1], org, journal);
    }
  }

  lemma StepKeepsInvariant(s: State, e: Event)
    requires Invariant(s)
    ensures Invariant(Step(s, e))
  {
    hide IsBalanced;
    if e.tx in s.transactions {
      var t := s.transactions[e.tx];
      match e {
        case FireTrigger(tx, snapshot) =>
          if t.phase.Committing? && t.phase.fired < |t.inserted| && snapshot <= |s.history| {
            CheckMeansOwnDeltaIsZero(s, t, snapshot, t.inserted[t.phase.fired].journal);
          }
        case Commit(tx) =>
          if t.phase == Committing(|t.inserted|) {
            FullyCheckedIsBalanced(t);
          }
        case _ =>
      }
    }
  }

  lemma {:induction false} RunKeepsInvariant(events: seq<Event>)
    ensures Invariant(Run(EMPTY, events))
  {
    if events != [] {
      RunKeepsInvariant(events[..|events| - 1]);
      StepKeepsInvariant(Run(EMPTY, events[..|events| - 1]), events[|events| - 1]);
    }
  }

  /** Debits less credits over a whole organisation. */
  function OrgImbalance(rows: seq<Row>, org: Uuid): int {
    if rows == [] then 0
    else
      var last := rows[|rows| - 1];
      OrgImbalance(rows[..|rows| - 1], org) + if last.org == org then last.debit - last.credit else 0
  }

  function WithoutJournal(rows: seq<Row>, journal: Uuid): (r: seq<Row>)
    ensures |r| <= |rows|
    ensures |rows| > 0 && rows[|rows| - 1].journal == journal ==> |r| < |rows|
  {
    if rows == [] then []
    else
      var front := WithoutJournal(rows[..|rows| - 1], journal);
      if rows[|rows| - 1].journal == journal then front else front + [rows[|rows| - 1]]
  }

  lemma {:induction false} SplitOffJournal(rows: seq<Row>, org: Uuid, journal: Uuid, other: Uuid)
    ensures OrgImbalance(rows, org) == Imbalance(rows, org, journal) + OrgImbalance(WithoutJournal(rows, journal), org)
    ensures Imbalance(WithoutJournal(rows, journal), org, other) == if other == journal then 0
        else Imbalance(rows, org, other)
  {
    if rows != [] {
      var front, last := rows[..|rows| - 1], rows[|rows| - 1];
      SplitOffJournal(front, org, journal, other);
      if last.journal != journal {
        assert (WithoutJournal(front, journal) + [last])[..|WithoutJournal(front, journal)|]
            == WithoutJournal(front, journal);
      }
    }
  }

  /** Balanced journal by journal, hence balanced as a whole. */
  lemma {:induction false} JournalsBalanceSoOrgBalances(rows: seq<Row>, org: Uuid)
    requires forall journal :: Imbalance(rows, org, journal) == 0
    ensures OrgImbalance(rows, org) == 0
    decreases |rows|
  {
    if rows != [] {
      var journal := rows[|rows| - 1].journal;
      var rest := WithoutJournal(rows, journal);
      forall other
        ensures Imbalance(rest, org, other) == 0
      {
        SplitOffJournal(rows, org, journal, other);
      }
      JournalsBalanceSoOrgBalances(rest, org);
      SplitOffJournal(rows, org, journal, journal);
    }
  }

  /** Under any interleaving of any transactions, every committed state there
      has ever been has debits equal to credits in each organisation's each
      journal, and so in each organisation. */
  lemma CommittedBooksAlwaysBalance(events: seq<Event>, commits: nat, org: Uuid, journal: Uuid)
    requires commits <= |Run(EMPTY, events).history|
    ensures var rows := Rows(Run(EMPTY, events).history[..commits]);
            Imbalance(rows, org, journal) == 0 && OrgImbalance(rows, org) == 0
  {
    RunKeepsInvariant(events);
    SnapshotIsBalanced(Run(EMPTY, events).history, commits);
    JournalsBalanceSoOrgBalances(Rows(Run(EMPTY, events).history[..commits]), org);
  }

  /** Committed rows are never altered or removed: history only grows. */
  lemma {:induction false} HistoryIsAppendOnly(s: State, events: seq<Event>)
    ensures s.history <= Run(s, events).history
  {
    if events != [] {
      HistoryIsAppendOnly(s, events[..|events| - 1]);
    }
  }

  /** While a commit's triggers fire, interleaved with anything other
      transactions do and on whatever snapshots, the commit fails only if the
      transaction left a journal of its own unbalanced, and passes every check
      only if it left none. */
  lemma {:induction false} CommitIsDecidedByOwnRows(s: State, tx: Uuid, events: seq<Event>)
    requires Invariant(s) && tx in s.transactions && s.transactions[tx].phase.Committing?
    requires forall i :: 0 <= i < |events| && events[i].tx == tx ==> events[i].FireTrigger?
    ensures var t := s.transactions[tx];
            var after := Run(s, events);
            && Invariant(after) && tx in after.transactions
            && after.transactions[tx].inserted == t.inserted && after.transactions[tx].org == t.org
            && !after.transactions[tx].phase.Open?
            && (after.transactions[tx].phase.Failed? ==> !IsBalanced(t.inserted))
            && (after.transactions[tx].phase == Committing(|t.inserted|) ==> IsBalanced(t.inserted))
  {
    hide IsBalanced;
    if events != [] {
      var front, e := events[..|events| - 1], events[|events| - 1];
      CommitIsDecidedByOwnRows(s, tx, front);
      hide Invariant;
      FiringIsDecidedByOwnRows(Run(s, front), tx, e);
      StepKeepsInvariant(Run(s, front), e);
    } else {
      CheckedMeansBalanced(s.transactions[tx]);
    }
  }

  lemma CheckedMeansBalanced(t: Transaction)
    requires OwnRowsAreSound(t) && CheckedJournalsBalance(t)
    ensures t.phase == Committing(|t.inserted|) ==> IsBalanced(t.inserted)
  {
    if t.phase == Committing(|t.inserted|) {
      FullyCheckedIsBalanced(t);
    }
  }

  /** The same over one event. */
  lemma FiringIsDecidedByOwnRows(s: State, tx: Uuid, e: Event)
    requires Invariant(s) && tx in s.transactions && !s.transactions[tx].phase.Open?
    requires e.tx == tx ==> e.FireTrigger?
    ensures var t, after := s.transactions[tx], Step(s, e);
            && tx in after.transactions
            && after.transactions[tx].inserted == t.inserted && after.transactions[tx].org == t.org
            && !after.transactions[tx].phase.Open?
            && (after.transactions[tx].phase.Failed? ==> t.phase.Failed? || !IsBalanced(t.inserted))
            && (after.transactions[tx].phase == Committing(|t.inserted|) ==> IsBalanced(t.inserted))
  {
    var t := s.transactions[tx];
    StepKeepsInvariant(s, e);
    CheckedMeansBalanced(Step(s, e).transactions[tx]);
    if e.tx == tx && t.phase.Committing? && t.phase.fired < |t.inserted| && e.snapshot <= |s.history| {
      CheckMeansOwnDeltaIsZero(s, t, e.snapshot, t.inserted[t.phase.fired].journal);
    }
  }

  // ----- What a commit puts into the ledger -----

  /** The events of one transaction, in order. */
  function Own(events: seq<Event>, tx: Uuid): seq<Event> {
    if events == [] then []
    else
      var last := events[|events| - 1];
      Own(events[..|events| - 1], tx) + if last.tx == tx then [last] else []
  }

  /** A row that org may write: debit or credit, not both, not neither. */
  predicate IsRowOf(row: Row, org: Uuid) {
    row.org == org && ((row.debit > 0 && row.credit == 0) || (row.credit > 0 && row.debit == 0))
  }

  /** `own` begins a life of: begin, an insert a row, commit requested, a trigger
      fired a row. */
  predicate FollowsScript(own: seq<Event>, tx: Uuid, org: Uuid, rows: seq<Row>) {
    && |own| <= 2 * |rows| + 2
    && (|own| > 0 ==> own[0] == Begin(tx, org))
    && (forall i :: 0 < i < |own| && i <= |rows| ==> own[i] == Insert(tx, rows[i - 1]))
    && (|own| > |rows| + 1 ==> own[|rows| + 1] == RequestCommit(tx))
    && (forall i :: |rows| + 2 <= i < |own| ==> own[i].FireTrigger? && own[i].tx == tx)
  }

  /** Each trigger of the transaction fires on a snapshot there has been. */
  predicate SnapshotsExist(s: State, events: seq<Event>, tx: Uuid) {
    forall k :: 0 <= k < |events| && events[k].FireTrigger? && events[k].tx == tx ==>
      events[k].snapshot <= |Run(s, events[..k]).history|
  }

  predicate AreRowsOf(rows: seq<Row>, org: Uuid) {
    forall i :: 0 <= i < |rows| ==> IsRowOf(rows[i], org)
  }

  /** The first n rows are of journals that the rows leave balanced. */
  predicate AreBalanced(rows: seq<Row>, org: Uuid, n: nat)
    requires n <= |rows|
  {
    forall i :: 0 <= i < n ==> Imbalance(rows, org, rows[i].journal) == 0
  }

  /** Where a transaction stands after n events of its script. */
  predicate IsAt(t: Transaction, org: Uuid, rows: seq<Row>, n: nat)
    requires 0 < n <= 2 * |rows| + 2
  {
    && t.org == org
    && if n <= |rows| + 1 then
         if AreRowsOf(rows[..n - 1], org) then t.phase.Open? && t.inserted == rows[..n - 1] else t.phase.Failed?
       else
         var fired := n - 2 - |rows|;
         if AreRowsOf(rows, org) && AreBalanced(rows, org, fired)
         then t.phase == Committing(fired) && t.inserted == rows
         else t.phase.Failed?
  }

  lemma OwnEventMovesOn(s: State, e: Event, org: Uuid, rows: seq<Row>, n: nat)
    requires Invariant(s) && e.tx in s.transactions
    requires 0 < n <= 2 * |rows| + 1 && IsAt(s.transactions[e.tx], org, rows, n)
    requires n <= |rows| ==> e == Insert(e.tx, rows[n - 1])
    requires n == |rows| + 1 ==> e == RequestCommit(e.tx)
    requires n > |rows| + 1 ==> e.FireTrigger? && e.snapshot <= |s.history|
    ensures e.tx in Step(s, e).transactions && IsAt(Step(s, e).transactions[e.tx], org, rows, n + 1)
  {
    hide IsBalanced, Imbalance, Visible, Invariant;
    var t := s.transactions[e.tx];
    if n <= |rows| {
      assert rows[..n] == rows[..n - 1] + [rows[n - 1]];
    } else if n == |rows| + 1 {
      assert rows[..n - 1] == rows;
    } else if t.phase.Committing? {
      CheckMeansOwnDeltaIsZero(s, t, e.snapshot, t.inserted[t.phase.fired].journal);
    }
  }

  lemma OtherEventsLeaveItAlone(s: State, e: Event, tx: Uuid)
    requires e.tx != tx
    ensures tx in Step(s, e).transactions <==> tx in s.transactions
    ensures tx in s.transactions ==> Step(s, e).transactions[tx] == s.transactions[tx]
  {
    hide Imbalance, Visible;
  }

  lemma {:induction false} RunKeepsInvariantFrom(s: State, events: seq<Event>)
    requires Invariant(s)
    ensures Invariant(Run(s, events))
  {
    if events != [] {
      RunKeepsInvariantFrom(s, events[..|events| - 1]);
      StepKeepsInvariant(Run(s, events[..|events| - 1]), events[|events| - 1]);
    }
  }

  lemma {:induction false} ScriptIsFollowed(s: State, tx: Uuid, org: Uuid, rows: seq<Row>, events: seq<Event>)
    requires Invariant(s) && tx !in s.transactions
    requires FollowsScript(Own(events, tx), tx, org, rows) && SnapshotsExist(s, events, tx)
    ensures var n, after := |Own(events, tx)|, Run(s, events);
            if n == 0 then tx !in after.transactions
            else tx in after.transactions && IsAt(after.transactions[tx], org, rows, n)
  {
    hide Invariant, Step, IsAt;
    if events != [] {
      var front, e := events[..|events| - 1], events[|events| - 1];
      assert forall k :: 0 <= k < |front| ==> front[..k] == events[..k] && front[k] == events[k];
      ShorterScript(events, tx, org, rows);
      ScriptIsFollowed(s, tx, org, rows, front);
      RunKeepsInvariantFrom(s, front);
      if e.tx != tx {
        OtherEventsLeaveItAlone(Run(s, front), e, tx);
      } else if Own(front, tx) == [] {
        BeginOpens(Run(s, front), tx, org, rows);
      } else {
        OwnEventMovesOn(Run(s, front), e, org, rows, |Own(front, tx)|);
      }
    }
  }

  lemma BeginOpens(s: State, tx: Uuid, org: Uuid, rows: seq<Row>)
    requires tx !in s.transactions
    ensures var t := Step(s, Begin(tx, org)); tx in t.transactions && IsAt(t.transactions[tx], org, rows, 1)
  {
  }

  lemma ShorterScript(events: seq<Event>, tx: Uuid, org: Uuid, rows: seq<Row>)
    requires events != [] && FollowsScript(Own(events, tx), tx, org, rows)
    ensures var front, e := events[..|events| - 1], events[|events| - 1];
            && FollowsScript(Own(front, tx), tx, org, rows)
            && Own(events, tx) == (if e.tx == tx then Own(front, tx) + [e] else Own(front, tx))
            && (e.tx == tx ==>
                  var n := |Own(front, tx)|;
                  && (n == 0 ==> e == Begin(tx, org))
                  && (0 < n <= |rows| ==> e == Insert(tx, rows[n - 1]))
                  && (n == |rows| + 1 ==> e == RequestCommit(tx))
                  && (n > |rows| + 1 ==> e.FireTrigger?)
                  && n <= 2 * |rows| + 1)
  {
    var front, e := events[..|events| - 1], events[|events| - 1];
    var own, before := Own(events, tx), Own(front, tx);
    if e.tx == tx {
      assert own[|before|] == e && forall i :: 0 <= i < |before| ==> own[i] == before[i];
    } else {
      assert own == before;
    }
  }

  /** A transaction that begins, inserts its rows, asks to commit and has each
      row's trigger fired, in between anything other transactions do, puts
      exactly those rows into the ledger, in order, as one batch, if each may be
      written and they balance journal by journal; and nothing otherwise. */
  lemma TransactionIsAllOrNothing(s: State, tx: Uuid, org: Uuid, rows: seq<Row>, events: seq<Event>)
    requires Invariant(s) && tx !in s.transactions
    requires FollowsScript(Own(events, tx), tx, org, rows) && |Own(events, tx)| == 2 * |rows| + 2
    requires SnapshotsExist(s, events, tx)
    ensures Run(s, events + [Commit(tx)]).history
            == Run(s, events).history + if AreRowsOf(rows, org) && IsBalancedFor(rows, org) then [rows] else []
  {
    hide Invariant;
    ScriptIsFollowed(s, tx, org, rows, events);
    assert (events + [Commit(tx)])[..|events|] == events;
    BalancedIsBalancedEverywhere(rows, org);
  }

  ghost predicate IsBalancedFor(rows: seq<Row>, org: Uuid) {
    forall journal :: Imbalance(rows, org, journal) == 0
  }

  lemma BalancedIsBalancedEverywhere(rows: seq<Row>, org: Uuid)
    ensures AreBalanced(rows, org, |rows|) <==> IsBalancedFor(rows, org)
  {
    if AreBalanced(rows, org, |rows|) {
      forall journal
        ensures Imbalance(rows, org, journal) == 0
      {
        BalancedAt(rows, org, journal);
      }
    }
  }

  lemma BalancedAt(rows: seq<Row>, org: Uuid, journal: Uuid)
    requires AreBalanced(rows, org, |rows|)
    ensures Imbalance(rows, org, journal) == 0
  {
    if forall i :: 0 <= i < |rows| ==> rows[i].journal != journal {
      NoRowsNoImbalance(rows, org, journal);
    }
  }

  // ----- What never gets into it -----

  /** The history moves by one batch, and only when a transaction commits. */
  lemma OnlyCommitsMoveHistory(s: State, e: Event)
    ensures Step(s, e).history != s.history ==>
              && e.Commit? && e.tx in s.transactions
              && Step(s, e).history == s.history + [s.transactions[e.tx].inserted]
  {
  }

  function Others(events: seq<Event>, tx: Uuid): seq<Event> {
    if events == [] then []
    else
      var last := events[|events| - 1];
      Others(events[..|events| - 1], tx) + if last.tx == tx then [] else [last]
  }

  /** The same ledger, and the same transactions but for one. */
  ghost predicate AgreeWithout(a: State, b: State, tx: Uuid) {
    && a.history == b.history
    && forall k :: k != tx ==> SameTransaction(a, b, k)
  }

  predicate SameTransaction(a: State, b: State, k: Uuid) {
    if k in a.transactions then k in b.transactions && a.transactions[k] == b.transactions[k] else k !in b.transactions
  }

  lemma OtherEventsKeepAgreement(a: State, b: State, e: Event, tx: Uuid)
    requires AgreeWithout(a, b, tx) && e.tx != tx
    ensures AgreeWithout(Step(a, e), Step(b, e), tx)
  {
    assert SameTransaction(a, b, e.tx);
    SameStep(a, b, e);
    forall k | k != tx
      ensures SameTransaction(Step(a, e), Step(b, e), k)
    {
      assert SameTransaction(a, b, k);
      if k != e.tx {
        OtherEventsLeaveItAlone(a, e, k);
        OtherEventsLeaveItAlone(b, e, k);
      }
    }
  }

  lemma SameStep(a: State, b: State, e: Event)
    requires a.history == b.history && SameTransaction(a, b, e.tx)
    ensures Step(a, e).history == Step(b, e).history && SameTransaction(Step(a, e), Step(b, e), e.tx)
  {
    hide Imbalance, Visible;
  }

  /** A transaction that is over or has failed, and is not begun again, or that
      never asks for the commit itself. */
  predicate NeverCommits(s: State, tx: Uuid, events: seq<Event>) {
    || (forall i :: 0 <= i < |events| ==> events[i] != Commit(tx))
    || (&& (tx in s.transactions ==> s.transactions[tx].phase.Failed?)
        && forall i :: 0 <= i < |events| ==> !events[i].Begin? || events[i].tx != tx)
  }

  /** Such a transaction leaves no trace: without its events, the ledger and every
      other transaction would be the same. */
  lemma {:induction false} UncommittedLeaveNoTrace(s: State, tx: Uuid, events: seq<Event>)
    requires NeverCommits(s, tx, events)
    ensures AgreeWithout(Run(s, events), Run(s, Others(events, tx)), tx)
    ensures (tx in s.transactions ==> s.transactions[tx].phase.Failed?)
            && (forall i :: 0 <= i < |events| ==> !events[i].Begin? || events[i].tx != tx)
            ==> tx in Run(s, events).transactions ==> Run(s, events).transactions[tx].phase.Failed?
  {
    hide Step, AgreeWithout;
    if events == [] {
      SameAgrees(s, tx);
    } else {
      var front, e := events[..|events| - 1], events[|events| - 1];
      assert NeverCommits(s, tx, front);
      UncommittedLeaveNoTrace(s, tx, front);
      var others := Others(front, tx);
      if e.tx == tx {
        assert Others(events, tx) == others;
        OwnEventKeepsAgreement(Run(s, front), Run(s, others), e);
      } else {
        assert (others + [e])[..|others|] == others;
        OtherEventsKeepAgreement(Run(s, front), Run(s, others), e, tx);
        OtherEventsLeaveItAlone(Run(s, front), e, tx);
      }
    }
  }

  lemma SameAgrees(s: State, tx: Uuid)
    ensures AgreeWithout(s, s, tx)
  {
  }

  lemma OwnEventKeepsAgreement(a: State, b: State, e: Event)
    requires AgreeWithout(a, b, e.tx)
    ensures !e.Commit? || (e.tx in a.transactions ==> a.transactions[e.tx].phase.Failed?) ==>
              AgreeWithout(Step(a, e), b, e.tx)
    ensures (e.tx in a.transactions ==> a.transactions[e.tx].phase.Failed?) && !e.Begin? ==>
              e.tx in Step(a, e).transactions ==> Step(a, e).transactions[e.tx].phase.Failed?
  {
    hide Imbalance, Visible;
    forall k | k != e.tx
      ensures SameTransaction(Step(a, e), b, k)
    {
      assert SameTransaction(a, b, k);
      OtherEventsLeaveItAlone(a, e, k);
    }
  }

  /** And an update, a delete, or a row it may not write fails a transaction. */
  lemma RefusalFails(s: State, tx: Uuid, e: Event)
    requires tx in s.transactions && s.transactions[tx].phase.Open?
    requires e == Modify(tx) || (e.Insert? && e.tx == tx && !IsRowOf(e.row, s.transactions[tx].org))
    ensures Step(s, e).history == s.history
    ensures tx in Step(s, e).transactions && Step(s, e).transactions[tx].phase.Failed?
  {
  }
}
