# Ledger, payroll and people: a Dafny model

A Dafny 4.11 model of the parts of a multi-tenant payroll and accounting
system whose correctness is not visible from any one function: the
double-entry ledger and the documents that post to it, bank reconciliation,
approval workflows, calendar recurrence, fixed-point rounding, gross-up
solvers, the org chart, document templates, the employee event log, chart
seeding and one data-moving migration.

`dafny verify dfyconfig.toml` checks everything.

Tables are `seq` or `map` fields of a class; each service function is a method
with the guards the code raises on; a raised exception is a failed `Result`
with the state unchanged, because the request's transaction rolls back. Where
a law is about runs, a `Step` function gives what one request does to the
tables, every method is proved to do exactly that, and the law is proved by
induction over arbitrary sequences of requests.

| file | what it models |
|---|---|
| `LedgerTransactions.dfy` | append-only ledger rows and the deferred balance trigger, under concurrent transactions |
| `Journals.dfy`, `Posting.dfy` | journals, bill legs, posting once per event, mirrored reversals |
| `Bills.dfy`, `CreditNotes.dfy` | the bill lifecycle; invoices and credit notes |
| `BankReconciliation.dfy` | matching statement lines to ledger entries |
| `Approvals.dfy` | the multi-step approval engine |
| `OrgChart.dfy` | the forest built from a possibly cyclic manager graph |
| `Recurrence.dfy`, `RecurringBills.dfy` | month arithmetic; templates that generate bills |
| `Money.dfy`, `Payslips.dfy` | rounding; PAYE and the payslip over it |
| `Bisection.dfy`, `GrossUp.dfy` | the search for the gross that nets a target; lump sums and packages |
| `DocumentTemplates.dfy` | the placeholder scanner |
| `EmployeeHistory.dfy` | the compensation event log |
| `AssetMigration.dfy` | the merge of company assets into fixed assets, and back |
| `Budgets.dfy`, `ChartAccounts.dfy` | budget against actual; idempotent seeding |

## Where the code and its documentation disagree

The model follows the code. Each of these has a lemma with a concrete input or
an exact condition.

- `app/domain/org_chart.py:23-25` says a cycle is handled by placing each
  employee at most once, under whichever branch reaches it first. No branch
  ever reaches a cycle: its members and everyone below them are absent
  (`UnrootedGroupIsAbsent`), as `tests/unit/test_org_chart.py` expects.
- `app/services/recurring_bills.py:52-55` says a second call with the same
  date generates nothing more for a template that just ran. It does when the
  template's next occurrence is not after that date either
  (`SecondCallIsIdle`, `SecondCallCanBillAgain`).
- `app/services/approvals.py:65-69` says the default gate stands for a
  workflow with no steps. It also decides when a replacement left the workflow
  shorter than the instance's position (`DefaultGateIffNoStepThere`).
- `app/domain/payroll/gross_up.py:8-14` says one more unit of gross never
  lowers the net, and `:143-149` that the solved package is the minimal one.
  The net falls where pension and housing fund both round up
  (`PackageNetFallsIff`). Over the packages of one shape, with the seed the
  code gives each, the answers are the least if and only if they do so at no
  total that nets something (`PackageIsLeastIff`; at the code's own iteration
  limit, `PackageIsLeastAtTheCodesLimit`). What always holds is that no
  smaller package nets more than the target (`PackageIsNearlyLeast`).
- `app/domain/payroll/gross_up.py:141` takes a loan deduction, but the search
  raises when its first probe short of the target does not cover the loan, or
  covers it exactly and a later one falls a unit short
  (`LoanStopsTheSolverIff`).
- `app/models/recurring_bill.py:13-19` says prefix and date make a unique bill
  number. They do for one template. Nothing makes a prefix unique, and two
  active templates with one prefix and one next date stop every run of the
  organisation from that date on (`TwinsBlockEveryRun`).
- The upgrade at
  `alembic/versions/de798b342bdb_merge_company_assets_into_fixed_assets.py:168`
  stamps every disposed fixed asset, not only the rows it inserted, and so
  overwrites the disposal date of earlier ones (`EarlierAssetsUntouchedIff`,
  `DisposalDateIsOverwritten`).
- `match_line` does not tie the line to the account it is given; the route
  does (`MatchLineNeedsItsOwnAccount`, `MatchLineWithAnotherAccount`).

## Model

| member | source | states |
|---|---|---|
| LedgerTransactions.Database.InsertRow | alembic/versions/a9e0853f4b4b_payroll_core_employees_bank_accounts_.py:101-102 | a row enters an open transaction only if it is one-sided, non-negative and of the transaction's organisation; otherwise the transaction fails and keeps its earlier rows unchanged |
| LedgerTransactions.Database.ModifyRow | alembic/versions/a9e0853f4b4b_payroll_core_employees_bank_accounts_.py:151-171 | an update or delete that reaches a row fails its transaction and touches no row |
| LedgerTransactions.Database.CheckLedgerEntryBalance | alembic/versions/a9e0853f4b4b_payroll_core_employees_bank_accounts_.py:173-202 | fired for one inserted row on any snapshot, the trigger passes exactly when the visible rows of that row's journal balance |
| LedgerTransactions.CheckMeansOwnDeltaIsZero | alembic/versions/a9e0853f4b4b_payroll_core_employees_bank_accounts_.py:178-196 | on every reachable state and every snapshot, however stale, what the trigger sums is what the transaction itself added |
| LedgerTransactions.RunKeepsInvariant | alembic/versions/a9e0853f4b4b_payroll_core_employees_bank_accounts_.py:151-202 | over every interleaving of every transaction's events, each committed batch balances journal by journal, and each checked row's journal balances within its transaction |
| LedgerTransactions.CommittedBooksAlwaysBalance | alembic/versions/a9e0853f4b4b_payroll_core_employees_bank_accounts_.py:151-202 | every committed state there has ever been has debits equal to credits per organisation and journal, and so per organisation |
| LedgerTransactions.HistoryIsAppendOnly | alembic/versions/a9e0853f4b4b_payroll_core_employees_bank_accounts_.py:151-171 | with updates and deletes refused no event reaches a committed row, so each committed state extends the earlier ones; what a commit adds is `TransactionIsAllOrNothing` |
| LedgerTransactions.CommitIsDecidedByOwnRows | alembic/versions/a9e0853f4b4b_payroll_core_employees_bank_accounts_.py:173-202 | while a commit's checks run, interleaved with anything others do, they fail only if the transaction left a journal of its own unbalanced and all pass only if it left none |
| LedgerTransactions.TransactionIsAllOrNothing | alembic/versions/a9e0853f4b4b_payroll_core_employees_bank_accounts_.py:101-202 | a transaction that begins, inserts rows, asks to commit and has each row's trigger fired on any snapshots, in between anything others do, adds to the ledger exactly its rows, in order, as one batch, if and only if each is its organisation's, a positive debit or a positive credit, and they balance in every journal; else nothing |
| LedgerTransactions.UncommittedLeaveNoTrace | alembic/versions/a9e0853f4b4b_payroll_core_employees_bank_accounts_.py:151-202 | without the events of a transaction that never commits, or that failed and is not begun again, the ledger and every other transaction would be the same |
| LedgerTransactions.OnlyCommitsMoveHistory | alembic/versions/a9e0853f4b4b_payroll_core_employees_bank_accounts_.py:151-202 | no event but a commit moves the ledger, and a commit by one batch |
| LedgerTransactions.RefusalFails | alembic/versions/a9e0853f4b4b_payroll_core_employees_bank_accounts_.py:101-171 | an update, a delete, a foreign row, a negative one, or one with both sides or neither fails an open transaction |
| LedgerTransactions.JournalsBalanceSoOrgBalances | alembic/versions/a9e0853f4b4b_payroll_core_employees_bank_accounts_.py:173-185 | rows that balance in each journal balance as a whole |
| Journals.PostManualJournalEntry | app/services/general_ledger.py:100-144 | accepts exactly the journals of at least two one-sided lines, in balance, on known accounts, in an open period |
| Journals.BillJournalIsPostable | app/domain/inventory/accounting.py:70-96 | whatever amounts a valid bill has, zero legs dropped, its journal is well formed: posting depends on the period and the chart alone |
| Journals.BillJournalEffect | app/domain/inventory/accounting.py:70-96 | what a bill's journal does to every account, including when the expense account coincides with one of the others |
| Bills.Payables.RegisterBill | app/services/bills.py:26-67 | registers exactly when amounts, dates, expense account, receipt and number allow, and then adds one draft without withholding; otherwise nothing changes |
| Bills.Payables.ApproveBill | app/services/bills.py:70-114 | approves exactly when the bill is a draft, its withholding and receipt resolve and the journal is accepted; one journal is added and only that bill changes |
| Bills.Payables.PayBill | app/services/bills.py:117-138 | pays exactly when the bill is approved and the payment journal is accepted; one journal is added and only that bill changes |
| Bills.Payables.VoidDraft | app/services/bills.py:141-147 | only a draft can be voided; no journal is posted |
| Bills.ApprovalKeepsPayables | app/services/bills.py:85-111 | an approval keeps payables equal to what is owed if and only if the bill does not expense to accounts payable or expenses nothing |
| Bills.PaymentKeepsPayables | app/services/bills.py:117-134 | a payment keeps payables equal to what is owed if and only if the cash account is not accounts payable |
| Bills.PayableIffSomethingIsOwed | app/services/bills.py:117-133 | an approved bill can be paid if and only if the period and accounts allow it and its net is positive, so one withheld in full never can |
| Bills.LowWithholdingLeavesANet | app/domain/payroll/wht.py:5-10 | below a 50% withholding rate something is always left to pay |
| Bills.StepKeepsPayablesIff | app/services/bills.py:70-147 | any request keeps payables equal to what is owed if and only if it does not post the expense or the money itself into accounts payable |
| Bills.AccountsPayableIsWhatIsOwed | app/services/bills.py:70-147 | after every run of register, approve, pay and void without such a posting, the accounts payable balance the journals leave is the sum of the nets of the approved bills |
| Bills.ReceiptIsClearedOnce | app/models/bill.py:45-50 | over every run at all, two approvals are never of bills that hold the same goods receipt |
| Bills.ApprovalWithholdsAndClears | app/services/bills.py:70-114 | approval withholds the nearest integer to the category's rate on the amount before VAT, nothing without a category, and clears exactly what a posted receipt of that vendor, held by no other live bill, accrued |
| Bills.BillsStaySound | app/services/bills.py:41-46 | over every run bills have positive amounts, no negative VAT, due dates no sooner than their dates, and numbers of their own |
| Bills.StatusMovesForward | app/services/bills.py:70-147 | a request only moves a draft to approved or void and an approved bill to paid; a registered one is a draft on an expense account |
| Bills.JournalsNeedOpenBooks | app/services/general_ledger.py:100-144 | no bill posts in a locked period or to an account the chart lacks |
| Bills.PlainBillGoesThrough | app/services/bills.py:70-138 | with open books a plain draft can be approved and then paid, and leaves accounts payable as it was |
| CreditNotes.Receivables.SendInvoice | app/services/invoices.py:55-77 | sends exactly when the invoice is a draft and its journal is accepted; one journal is added and only that invoice changes |
| CreditNotes.Receivables.RecordInvoicePayment | app/services/invoices.py:80-105 | records a payment exactly when the invoice is sent and the full-amount journal is accepted |
| CreditNotes.Receivables.IssueCreditNote | app/services/credit_notes.py:24-65 | issues exactly when the amount is positive, the invoice sent or paid, the remaining balance suffices, the journal is accepted and the number is new; otherwise nothing changes |
| CreditNotes.CreditsStayWithinTheInvoice | app/services/credit_notes.py:13-65 | over every run, with no condition, each invoice's credited total stays within its amount, and its credit journals debit its revenue account and credit the receivable by exactly that total and touch no other account |
| CreditNotes.StepKeepsReceivableIff | app/services/credit_notes.py:44-54 | a request keeps the invoice's receivable at what is unpaid less what is credited if and only if it does not post with the receivable on both sides |
| CreditNotes.ReceivableIsWhatIsLeft | app/services/invoices.py:55-105 | after every run without such a posting, an invoice leaves its amount receivable while sent, nothing otherwise, less its credited total |
| CreditNotes.CreditedNeverFalls | alembic/versions/4e7853be4383_credit_notes.py:47-54 | an invoice's credited total never falls, because notes are append-only |
| CreditNotes.RowsStaySound | app/services/credit_notes.py:33-38 | over every run no note is of a draft or void invoice, amounts are positive, due dates no sooner than issue dates, and invoices and notes have numbers of their own |
| CreditNotes.StatusMovesForward | app/services/invoices.py:22-116 | a request only moves a draft to sent or void and a sent invoice to paid; a registered one is a draft on a revenue account |
| CreditNotes.CreditIsAcceptedUpToTheRest | app/services/credit_notes.py:33-42 | with open books a sent or paid invoice can be credited by any positive amount up to what is left of it, and by no other |
| CreditNotes.DraftCanBeSentAndPaid | app/services/invoices.py:55-105 | with open books a draft can be sent and then paid, without any note |
| CreditNotes.JournalsNeedOpenBooks | app/services/general_ledger.py:100-144 | no invoice or note posts in a locked period or to an account the chart lacks |
| CreditNotes.PaidAndCreditedLeavesACredit | app/services/invoices.py:80-105 | a paid invoice leaves the customer in credit by its whole credited total, hence a zero receivable if and only if it was never credited |
| Posting.Ledger.PostJournal | app/services/posting.py:81-141 | posts exactly when the lines balance, the period is open, the accounts are active where checked, and the event was not posted before |
| Posting.Ledger.ReverseJournal | app/services/posting.py:183-254 | reverses exactly when there is a reason, an open period and a journal neither reversed nor a reversal; the original's lines stay as they are |
| Posting.MirrorUndoes | app/domain/accounting/posting_rules.py:72-92 | mirroring is its own inverse, keeps a journal well formed, and nets every account to zero against the original |
| Posting.StepKeepsInvariant | app/services/posting.py:133-254 | every step keeps: all journals balance, a reversal mirrors an earlier plain journal, nothing is reversed twice and no event posted twice |
| Posting.ReversedJournalsNetOut | app/services/posting.py:183-254 | after every run of postings and reversals the ledger reads, on every account, as if only the never-reversed journals had been posted |
| Posting.PostIsAcceptedIff | app/services/posting.py:115-134 | a journal becomes the last one if and only if it has two or more one-sided lines in balance, in an open period, on active accounts where checked, for an event not posted before |
| Posting.PostingNeedsOpenPeriod | app/services/posting.py:115-134 | whatever is posted or reversed is one well-formed journal in an open period, to active accounts where checked, for a new event, and a reversal with a reason |
| Posting.ReversedOnceOnly | app/services/posting.py:195-216 | a plain journal can be reversed with a reason in an open period, then not again, and its reversal not at all |
| BankReconciliation.Tables.CreateStatementLine | app/services/bank_reconciliation.py:18-33 | adds one unmatched line unless the amount is zero |
| BankReconciliation.Tables.MatchLine | app/services/bank_reconciliation.py:46-81 | refuses with the first failing guard's error and no change, or changes that one line's match |
| BankReconciliation.Tables.Match | app/api/v1/company_bank_accounts.py:120-138 | a line is matched only through its own account; the error is that of the first lookup or guard that fails, and any refusal leaves the tables alone |
| BankReconciliation.Tables.Unmatch | app/api/v1/company_bank_accounts.py:144-152 | a line is unmatched only through its own account; a failed lookup leaves the tables alone |
| BankReconciliation.Tables.ReconciliationSummary | app/services/bank_reconciliation.py:91-149 | the balances are those of the account's lines and of the entries on its code; listed are, each as often as it is there, the account's rows without a match and the entries on its code that none of its rows holds |
| BankReconciliation.BalancesAreWhatWasPutIn | app/services/bank_reconciliation.py:94-110 | after every run the reported bank balance is the sum of the amounts of the lines taken for the account, in or out, and the ledger balance the sum of what was posted to its code |
| BankReconciliation.LinesOfCounts | app/services/bank_reconciliation.py:36-43 | an account's lines are every row of it, whatever its sign, each as often as it is there |
| BankReconciliation.LineIdsAreUnique | app/services/bank_reconciliation.py:18-33 | over every run rows have identifiers of their own, so each is there once |
| BankReconciliation.MatchIsMadeIff | app/services/bank_reconciliation.py:46-81 | over every run a match asked for through an account is made if and only if the line is an unmatched row of it and the entry an unclaimed one of the same amount on its organisation and code |
| BankReconciliation.RunKeepsInvariant | app/services/bank_reconciliation.py:46-88 | over every run the match is injective across all bank accounts, with equal amounts, on the line's own account code |
| BankReconciliation.DifferenceIsExplained | app/services/bank_reconciliation.py:91-149 | after every run the reported difference is the unmatched statement lines less the unmatched signed entries |
| BankReconciliation.MatchingMovesNoBalance | app/services/bank_reconciliation.py:78-88 | neither match nor unmatch moves either balance of any account |
| BankReconciliation.MatchLineNeedsItsOwnAccount | app/services/bank_reconciliation.py:46-81 | a match accepted by `match_line` alone keeps the invariant if and only if the account passed agrees with the line's own on organisation and code |
| BankReconciliation.MatchLineWithAnotherAccount | app/api/v1/company_bank_accounts.py:44-52 | without the route's lookup a match on a sibling account is accepted and leaves a difference of 500 with no outstanding item |
| Approvals.Engine.GetOrCreateInstance | app/services/approvals.py:114-142 | idempotent: an existing instance is returned untouched, a new one is pending at step 1 |
| Approvals.Engine.Decide | app/services/approvals.py:145-218 | refused exactly when not pending or not eligible, and then nothing changes; otherwise one decision is appended, and the flag tells whether it was final |
| Approvals.Engine.ReplaceWorkflowSteps | app/services/approvals.py:221-265 | all steps of one request type become 1..N in list order, exactly when every step is valid for the type; instances and trails are untouched |
| Approvals.TrailIsStepsInOrder | app/services/approvals.py:168-218 | over every run, replacements included, a trail carries steps 1..k, only the last may be a reject, and k follows the current step and status |
| Approvals.TerminalIsFinal | app/services/approvals.py:175-176 | a decided instance never changes again and gains no decision |
| Approvals.TrailOnlyGrows | app/services/approvals.py:188-198 | every earlier trail is a prefix of every later one |
| Approvals.DefaultGateIffNoStepThere | app/services/approvals.py:178-181 | for a pending instance the default gate decides if and only if no step is configured or its position is past the last; else the step at that position does |
| Approvals.FixedConfigurationIsFollowed | app/services/approvals.py:178-218 | with its N steps left alone, a fresh instance ends within max(N, 1) accepted decisions, decision i is by someone eligible for step i, and approval means all N approved in order |
| Approvals.DecisionIsAcceptedIff | app/services/approvals.py:58-111 | on every reachable pending instance a decision joins the trail if and only if it is by the configured role, the configured account, the requester's own manager or the head of the requester's department, as the step at that position says; where none is there, by one of three roles or the requester's own manager with the manager role |
| Approvals.DecisionsWereByWhoeverTheyAreFor | app/services/approvals.py:58-111 | over every run under a fixed configuration, decision number i of the trail was by someone of whom that holds for step i |
| Approvals.ConfigurationStaysSensible | app/services/approvals.py:231-244 | over every run no step is for the employee role, and none of a type without requesters for a manager or department head |
| OrgChart.Builder.Group | app/domain/org_chart.py:27-29 | each manager's entry holds every employee that names them, as often as listed, and of two the one listed first comes first |
| OrgChart.Builder.Build | app/domain/org_chart.py:33-40 | terminates on any graph; places exactly the ids it newly visits, each once, with all their reports; with unique ids the guard skips nobody |
| OrgChart.BuildOrgChart | app/domain/org_chart.py:20-42 | for every list no id is placed twice, and an id is placed if and only if a manager chain from it ends at someone without manager; with unique ids the forest is the guard-free unfolding, and of two placed employees with one manager the one listed first stands first, among the roots or among that manager's reports |
| OrgChart.UnrootedGroupIsAbsent | app/domain/org_chart.py:23-25 | cycle members, people under a missing manager and everyone below either are never placed |
| OrgChart.UnfoldingIsUnique | app/domain/org_chart.py:33-42 | a list has one guard-free unfolding, so the build is determined |
| OrgChart.PreorderIsPermutationIffAllRooted | app/domain/org_chart.py:20-42 | with unique ids the flattened forest is a permutation of the input if and only if there is no cycle and no dangling manager |
| Recurrence.AddMonthsLands | app/domain/recurrence.py:19-26 | lands in the month that many months on, at the start day or that month's last, and fails exactly outside years 1 to 9999 |
| Recurrence.AddMonthsIsMonotone | app/domain/recurrence.py:19-26 | a later start never lands earlier |
| Recurrence.OccurrenceAdvances | app/domain/recurrence.py:12-30 | by a real day count a month advances 28-31 days, a quarter 89-92, a year 365-366, so the date strictly increases |
| Recurrence.OrdinalIsTheDateOrder | app/domain/recurrence.py:19-26 | the day count orders dates as year, month and day do |
| Recurrence.IterateLands | app/domain/recurrence.py:29-30 | n occurrences land exactly n strides on, on the least of the start day and every month length met, failing exactly past year 9999 |
| Recurrence.IterateVersusJump | app/domain/recurrence.py:19-30 | stepping never passes the single jump, and agrees if and only if no month met is shorter than the jump's day; always for start days up to 28 |
| Recurrence.ClampIsPermanent | app/domain/recurrence.py:19-30 | 31 January stepped twice is 28 March, jumped it is 31 March |
| Recurrence.IterateStrictlyIncreases | app/domain/recurrence.py:29-30 | later occurrences are at least 28 days apart each, so none repeats |
| RecurringBills.RecurringBillTable.GenerateDueBills | app/services/recurring_bills.py:51-82 | bills every due active template once, on its due date, and moves exactly those on; or, when a due template fails a guard of `register_bill`, repeats a bill number or leaves the calendar, changes nothing |
| RecurringBills.RunsFollowTheSchedule | app/services/recurring_bills.py:51-82 | after any requests, failed runs and switching on and off included, each template has billed the next n dates of its schedule, once each and in order, n being the accepted runs it was due in |
| RecurringBills.RunIsAcceptedIff | app/services/recurring_bills.py:56-80 | a run is accepted if and only if every active template up to the date has a positive amount, no negative VAT or due days, an expense account, a number that fits, dates on the calendar, and a number that is new and no other's |
| RecurringBills.RunBillsWhatIsUp | app/services/recurring_bills.py:56-80 | an accepted run bills each active template up to the date once, on the date it waited on, and no other |
| RecurringBills.SwitchedOffIsNeverBilled | app/models/recurring_bill.py:16-19 | over every run a template that stays switched off is not billed and does not move |
| RecurringBills.NoDateIsBilledTwice | app/models/recurring_bill.py:13-19 | the dates of one template's bills strictly increase, so it never repeats a number of its own |
| RecurringBills.SecondCallIsIdle | app/services/recurring_bills.py:52-55 | of two accepted calls for one date the second bills nothing for a template the first billed, if and only if its next occurrence is after that date |
| RecurringBills.SecondCallCanBillAgain | app/services/recurring_bills.py:52-55 | two calls for 1 April bill a monthly template due on 1 January for 1 January and then 1 February |
| RecurringBills.CallsBillWhatIsDue | app/services/recurring_bills.py:51-82 | k accepted calls for one date bill exactly the first min(k, m) dates of a template's schedule, m being those up to that date |
| RecurringBills.DueCountMeans | app/services/recurring_bills.py:56-62 | that m counts exactly the occurrences that exist and are not after the date |
| RecurringBills.CatchUpIsBounded | app/services/recurring_bills.py:64-80 | once there were more accepted calls for a date than 28-day stretches of backlog, the template is no longer due |
| RecurringBills.NumberTellsPrefixAndDate | app/services/recurring_bills.py:69 | two bill numbers are the same if and only if prefix and date both are, whatever the prefixes hold |
| RecurringBills.RunCollidesIff | app/models/bill.py:44 | a run's numbers collide if and only if two due templates share prefix and next date or a due number was used before |
| RecurringBills.TwinsBlockEveryRun | app/services/recurring_bills.py:64-82 | two active templates with one prefix and next date stop every run from that date on, whatever else happens, until one is switched off |
| RecurringBills.DistinctPrefixesNeverCollide | app/models/recurring_bill.py:13-19 | with prefixes that differ and are left to their templates, no run ever collides |
| Money.RoundedIsTheNearest | app/domain/money.py:24-35 | the rounded value is the one integer within half a unit, ties up |
| Money.ApplyRateIsMonotone | app/domain/money.py:24-35 | order in both arguments is kept, and a rate up to 100% never exceeds the amount |
| Money.SumOfRoundedVersusRoundedSum | app/domain/money.py:24-35 | n parts rounded apart differ from the rounded total by at most n/2 |
| Money.SumOfRoundedBoundIsTight | app/domain/money.py:24-35 | for every n there are n amounts that attain that bound, rounded down |
| Payslips.ComputePayeAnnual | app/domain/payroll/paye.py:28-50 | the band loop, early exits included, takes each band's rate, rounded half up, on the part of the income between that band's ceilings; it rejects only negative income |
| Payslips.TaxIsBandByBand | app/domain/payroll/paye.py:39-50 | tax is the sum over the bands of each rate, rounded half up, on Max(0, Min(income, ceiling) - previous ceiling), bands past an open one taking nothing |
| Payslips.SlicesSplitIncome | app/domain/payroll/paye.py:39-45 | those parts are a split of the income: up to a band they add up to all of it below that band's ceiling |
| Payslips.TaxNearExact | app/domain/payroll/paye.py:39-50 | tax is within half a unit a band of the unrounded tax, on either side |
| Payslips.WorkedExample | tests/golden/test_paye.py:25-27 | 359,160 naira on 3,162,000 under the Nigerian bands of 2026 |
| Payslips.WithheldIsTheHighestTax | app/domain/payroll/paye.py:53-65 | after any periods what was withheld is the highest tax to date there has been, or what was withheld before |
| Payslips.PayslipAddsUp | app/domain/payroll/payslip.py:68-108 | gross is its components and goes to pension, housing fund, PAYE, loan and net, nothing over; each contribution is the nearest integer to its rate on its own base; PAYE brings what was withheld up to the tax on income to date less contributions and relief |
| Payslips.PayslipIsMadeIff | app/domain/payroll/payslip.py:59-101 | a payslip is made if and only if no input is negative and the net covers the loan |
| Payslips.RentReliefIsCapped | app/domain/payroll/frequency.py:21-33 | relief to date is within the cap, nothing at the start of the year and the capped share of the rent at its end |
| Payslips.TaxStep | app/domain/payroll/paye.py:28-50 | one more unit of income costs nothing or one unit, across band boundaries and per-band rounding |
| Payslips.TaxNeverExceedsIncome | app/domain/payroll/paye.py:28-50 | tax is between nothing and the income |
| Payslips.TaxGrowth | app/domain/payroll/paye.py:28-50 | extra income is taxed at the top rate at most, once the lower bands are paid for in full, give or take one unit |
| Bisection.Bisect | app/domain/payroll/gross_up.py:19-41 | both loops, limits and errors included, refine the recursive bracket-then-narrow search and evaluate exactly its probes; any answer reaches the target |
| Bisection.SolutionReaches | app/domain/payroll/gross_up.py:19-41 | whatever the output does, raising included, an answer to a positive target reaches it |
| Bisection.SolutionIsACrossing | app/domain/payroll/gross_up.py:19-41 | for any output, an answer whose bracket fits 128 halvings reaches the target and is one unit, or one unit less misses it |
| Bisection.FindsTheLeastIff | app/domain/payroll/gross_up.py:19-41 | for an output that once worth something never raises again, the search, wherever no probe raises, finds the least input for every target, seed and iteration limit that spans it, if and only if one more unit never lowers an output worth something |
| Bisection.FallDefeatsTheSearch | app/domain/payroll/gross_up.py:25-41 | for any output that falls at t, asking for what t gives from any seed that halves down to t + 1 fails or answers more than t + 1, and raises nothing if nothing past t does |
| Bisection.RaisesIffFirstMissDoes | app/domain/payroll/gross_up.py:25-41 | if nothing past the first probe short of the target raises, among the seed and its successive halves, the search raises if and only if that probe does |
| Bisection.RaisesIffAProbeDoes | app/domain/payroll/gross_up.py:25-41 | the search raises if and only if an input it evaluates does, and then that error |
| GrossUp.SolveLumpSum | app/domain/payroll/gross_up.py:44-95 | a raising baseline is passed on; for a positive target an answer is positive and its own net is at least the target |
| GrossUp.LumpClimbs | app/domain/payroll/gross_up.py:60-66 | the net of a lump sum starts at zero, never falls and never fails |
| GrossUp.LumpSumIsLeastAndExact | app/domain/payroll/gross_up.py:60-95 | the solved lump sum is the least that reaches the target and nets it exactly |
| GrossUp.EveryTargetIsReachableIff | app/domain/payroll/gross_up.py:60-66 | some lump sum reaches every target if and only if the open top band takes less than 100% |
| GrossUp.LumpSumIsAlwaysBracketed | app/domain/payroll/gross_up.py:25-31 | and then the search brackets every target up to about 2^127 millionths, whatever the lower bands take |
| GrossUp.ScaleConserves | app/domain/payroll/gross_up.py:98-115 | scaled parts add up to the total, none is negative, and each stays within two units of its share |
| GrossUp.SolvePackage | app/domain/payroll/gross_up.py:126-194 | an empty package is refused; otherwise the parts returned add up to the solved total, and for a positive target that total is positive and its payslip, after the loan, nets at least the target |
| GrossUp.PackageNetFallsIff | app/domain/payroll/gross_up.py:8-14 | one more unit of total lowers the net, by one unit, if and only if pension and housing fund both round up and PAYE stands still |
| GrossUp.OneContributionNeverFalls | app/domain/payroll/gross_up.py:8-14 | without a pension rate or without a housing fund rate the net never falls |
| GrossUp.NetFallsByAUnitAtMost | app/domain/payroll/gross_up.py:8-14 | where contributions together take at most 100%, no total nets less than any smaller one by more than a unit |
| GrossUp.PackageIsNearlyLeast | app/domain/payroll/gross_up.py:143-149 | on every such rule set, loan or not, the solved package nets at least the target and no smaller one nets more than the target |
| GrossUp.PackageIsLeastIff | app/domain/payroll/gross_up.py:177-181 | over every package of one shape, every target and every iteration limit, with the seed the code gives the call: the answer is the least within the limit's reach, or a payslip raised, if and only if pension and housing fund never both round up, PAYE standing still, at a positive total that nets something |
| GrossUp.PackageIsLeastAtTheCodesLimit | app/domain/payroll/gross_up.py:15-41 | at 128 iterations: no such total below 2^128 makes every call right, and such a total with twice (current total + its net) times (t + 2) within 2^128 makes one of them wrong |
| GrossUp.RoundingUpDefeatsTheSolver | app/domain/payroll/gross_up.py:177-181 | for every such total t some package of the shape, asked for what t nets and seeded as the code seeds it, gets no answer or more than t + 1, at any iteration limit |
| GrossUp.FallNeedNotSpoilEveryCall | app/domain/payroll/gross_up.py:177-181 | but not every one: a 5:3:0 package nets 492 at 543 and 491 at 544, and asked for 492 is solved at 543 |
| GrossUp.PackageIsLeast | app/domain/payroll/gross_up.py:143-149 | where they never do, every package smaller than the solved one raises or nets less than the target, loan or not |
| GrossUp.PackageSolverCanMissTheLeast | app/domain/payroll/gross_up.py:143-149 | a 5:3:0 package asked to net 29 is solved at 33, though 31 nets 29 |
| GrossUp.LoanStopsTheSolverIff | app/domain/payroll/payslip.py:97-101 | where contributions together take at most 100%, the solver raises a payslip error if and only if its first probe short of the target, among the seed and its successive halves, nets less than the loan before deduction, or nets just the loan and a later probe one unit less |
| GrossUp.LoanCanStopTheSolver | app/domain/payroll/payslip.py:97-101 | with a loan of 60, asking a package of 100 for the 40 it already nets raises |
| GrossUp.EveryNetIsReachableIff | app/domain/payroll/gross_up.py:143-149 | some total of the shape nets every target if and only if the pension rate and the housing fund rate on the basic share take less than the whole, and so does the open top band |
| GrossUp.PackageIsAlwaysBracketed | app/domain/payroll/gross_up.py:25-31 | and then the search never runs out of doublings, up to a stated bound on the target |
| DocumentTemplates.MatchPrefixDecidesGrammar | app/domain/document_templates.py:3 | the greedy scanner finds a placeholder if and only if the grammar has one there, with that extent and name |
| DocumentTemplates.TokenizeSplits | app/domain/document_templates.py:3-10 | a template splits into literals and placeholders whose source concatenates back, no placeholder starting in a literal |
| DocumentTemplates.SplitIsTokenize | app/domain/document_templates.py:3-10 | that split is the only one |
| DocumentTemplates.RenderIsTokenwise | app/domain/document_templates.py:6-10 | rendering replaces each placeholder once and never rescans what it inserted |
| DocumentTemplates.RenderOfPlaceholder | app/domain/document_templates.py:6-10 | a placeholder gives its value, or nothing for a name the context lacks |
| DocumentTemplates.RenderInTwoStages | app/domain/document_templates.py:6-10 | rendering names to their own placeholders and then with a context equals rendering with the context |
| EmployeeHistory.Records.RecordStatusChange | app/services/employee_history.py:19-40 | appends one event exactly when the state changed |
| EmployeeHistory.Records.RecordCompensationChange | app/services/employee_history.py:43-80 | appends one event holding exactly the tracked fields that differ, or nothing |
| EmployeeHistory.EarliestInPeriod | app/services/employee_history.py:83-104 | the least effective date in (start, end], and none if and only if there is none |
| EmployeeHistory.Records.UpdateEmployee | app/api/v1/employees.py:253-273 | the update and its event share one full before-snapshot |
| EmployeeHistory.UpdateIsItsEvent | app/services/employee_history.py:53-80 | an event exists if and only if a tracked figure changed, and it takes the figures forward and back |
| EmployeeHistory.ReplayGivesCurrent | app/services/employee_history.py:57-80 | after any updates, folding the "to" maps over the initial figures gives the current ones |
| EmployeeHistory.UndoRestoresInitial | app/services/employee_history.py:57-80 | folding the "from" maps backwards restores the initial figures |
| EmployeeHistory.UndoNeedsAFullSnapshot | app/services/employee_history.py:62-67 | an event undoes its update if and only if the snapshot handed over is right for every tracked field updated |
| EmployeeHistory.LookupFindsTheUpdate | app/services/employee_history.py:83-104 | the split lookup finds an update of tracked figures at its own date, with exactly the fields it changed, in every period that holds the date and no change as early; other periods read as before |
| AssetMigration.Tables.RunUpgrade | alembic/versions/de798b342bdb_merge_company_assets_into_fixed_assets.py:119-171 | succeeds exactly when no id and no (organisation, tag) collides, and otherwise changes nothing |
| AssetMigration.Tables.RunDowngrade | alembic/versions/de798b342bdb_merge_company_assets_into_fixed_assets.py:240-284 | the ordered statements leave categorised rows as company assets, the rest as fixed assets, and the assignments of the former |
| AssetMigration.RoundTripRestores | alembic/versions/de798b342bdb_merge_company_assets_into_fixed_assets.py:240-277 | downgrade after upgrade restores every company asset, up to defaults for a missing date or a missing or zero value, and every assignment |
| AssetMigration.UpgradeShowsTheHolder | alembic/versions/de798b342bdb_merge_company_assets_into_fixed_assets.py:137-168 | a moved asset has a holder if and only if one of its assignments was open, and then that of an open one; it is disposed, as of its creation, if and only if it was retired |
| AssetMigration.RowRoundTrip | alembic/versions/de798b342bdb_merge_company_assets_into_fixed_assets.py:119-168 | one asset comes back unchanged if and only if it had a date and a non-zero value |
| AssetMigration.EarlierAssetsUntouchedIff | alembic/versions/de798b342bdb_merge_company_assets_into_fixed_assets.py:168 | earlier fixed assets come through untouched if and only if each disposed one was disposed of at its creation time |
| AssetMigration.DisposalDateIsOverwritten | alembic/versions/de798b342bdb_merge_company_assets_into_fixed_assets.py:168 | any asset disposed of later than it was bought loses that date |
| AssetMigration.SecondRoundTripIsIdle | alembic/versions/de798b342bdb_merge_company_assets_into_fixed_assets.py:119-277 | a second round trip is always possible and changes nothing |
| Budgets.ValidateLines | app/services/budgets.py:27-41 | accepts exactly non-empty lists of distinct revenue or expense accounts with positive amounts |
| Budgets.Budget.UpdateBudget | app/services/budgets.py:111-143 | replaces period and all lines, or on a refusal nothing |
| Budgets.Budget.BudgetVsActual | app/services/budgets.py:163-219 | the one-pass accumulator gives each line the filtered signed sum of its account, and the total variance is the sum of line variances |
| Budgets.AdjacentPeriodsAddUp | app/services/budgets.py:182-185 | actuals of two adjacent periods add up to the actual of their union |
| Budgets.ActualIgnoresOrder | app/services/budgets.py:182-189 | the actual depends on which entries there are, not on the order they come in |
| Budgets.ActualOfOne | app/services/budgets.py:164-196 | an entry on the account and on a day of the period counts its credit less its debit for revenue and the other way round for the rest; any other counts nothing |
| Budgets.ActualAddsUp | app/services/budgets.py:186-189 | and each entry counts by itself |
| ChartAccounts.ChartTable.Seed | app/services/chart_accounts.py:142-157 | fails, changing nothing, exactly when a code is both new and repeated; otherwise inserts what was missing |
| ChartAccounts.ChartTable.SeedDefaultChartOfAccounts | app/services/chart_accounts.py:90-96 | never fails, with or without the Nigerian accounts |
| ChartAccounts.DefaultsAbroad | app/services/chart_accounts.py:90-96 | outside Nigeria the defaults are the same but for its three statutory accounts |
| ChartAccounts.RuleSetAccounts | app/services/chart_accounts.py:115-131 | the collected dictionary is the first mention of each code, in order of mention |
| ChartAccounts.ChartTable.SeedRuleSetAccounts | app/services/chart_accounts.py:108-132 | never fails, whatever codes the rule set repeats, and returns exactly the rows it created |
| ChartAccounts.RuleSetIsCovered | app/services/chart_accounts.py:108-132 | afterwards every default, deduction and named account exists, earlier rows are unaltered, and a new one has the name and type of its first mention |
| ChartAccounts.SeededKeepsAndAdds | app/services/chart_accounts.py:90-157 | seeding adds exactly the missing codes and alters no existing row |
| ChartAccounts.SeedingTwiceIsIdle | app/services/chart_accounts.py:90-157 | repeated seeding creates nothing and cannot fail |
| ChartAccounts.SeedOrderDoesNotMatter | app/services/chart_accounts.py:90-157 | the resulting codes do not depend on the order of two seeds, and neither blocks the other |
| ChartAccounts.OneListWouldFail | app/services/chart_accounts.py:115-132 | defaults and deductions share a code, so in one list they would break the unique key; the flush between is what makes it work |

## Left out

- Row-level security itself: each transaction belongs to one organisation, and the migration runs with a role that sees every organisation.
- LedgerTransactions: an UPDATE or DELETE that matches no row, savepoints and early firing of deferred constraints are not modelled.
- Concurrency for credit notes and approvals: those services take no lock and are modelled as sequential runs of one organisation.
- Fields no branch reads (names, descriptions, currencies, most timestamps) and the database's 64-bit range, beyond which it raises.
- Account codes are numbers in the journal modules; only their equality is used.
- Rows of other services that a call only reads (chart, receipts, rules, locked periods, directory) are parameters of that call.
- RecurringBills: due templates are taken in row order, and which accounts are expense accounts is a parameter of each call.
- AssetMigration: which open assignment LIMIT 1 picks is a parameter; columns that neither direction reads or writes are not carried.
- DocumentTemplates: what counts as whitespace or a word character is a parameter, assumed only to keep the two classes and the braces apart.
- GrossUp.PackageIsLeast: compares the answer with smaller positive totals; a total of zero is never probed, and nets the target on its own where other earnings cover it.
- GrossUp.PackageIsLeastIff: takes pension and housing fund rates that add up to at most 100%, the premise of the source's own argument (`app/domain/payroll/gross_up.py:12-13`), and quantifies over iteration limits, since at a fixed one no call reaches every total.
- GrossUp: benefit and union-dues deductions, which neither solver passes, and the employer's side of the payslip.
- Budgets: creating, listing and deleting a budget, and the order lines are reported in.
- Posting: the header fields of a journal, and the pay-run, employee and department dimensions of its lines.
- ChartAccounts: registering an account by hand and the inventory accounts, which seed in the same way as the defaults.
- Listing and detail queries, the remaining payroll engine, stock posting, depreciation, tax filings and reports.
- HTTP, authentication, PDF rendering, e-mail, storage and logging.
