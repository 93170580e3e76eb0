# Verified model of the Hadoum back office

The Hadoum API is a NestJS and Prisma back office for a children's home. Most of it is record keeping, but several
services hold state machines, ledgers and paired computations whose correctness spans many methods. This project
models those and proves what they are for:

- **Expenses and budgets.** Reserved and consumed amounts are never stored; they are summed from the transaction rows
  each time. `Budget` defines the sums, `Finance` every operation on its own, `FinanceEffects` what each accepts and
  leaves, told without those functions, `FinanceLaws` what any run of operations keeps. `ExpenseRaces` splits the same
  operations into reads and writes (an approval into read, line lock, three sums, guarded write and commit);
  `ExpenseRaceLaws` and `DonationRaceLaws` prove what survives every interleaving, `ExpenseRaceLimits` gives the
  interleavings in which it does not, and `ExpenseRaceAlone` shows the serial runs to be among them.
- **The validation engine** (`Validations`), shared by expenses, stock, the visitor register and procedures;
  `ValidationRaces` splits its calls into their read and their write, as callers without a transaction run them.
- **The stock ledger** (`Stock`, `StockLaws`, `StockSerial`, `StockPolicy`, `StockRaces`): conservation under stale reads,
  held stock and licensed movements in serial runs, and exactly when stock is not held otherwise.
- **Periods and series** (`Calendar`, `DashboardPeriod`, `Trends`, `MonthlyTrends`, `DashboardTrends`, `Presence`,
  `Metrics`): windows that tile time, buckets that conserve, batched forms that agree with their simple ones.
- **The contact import** (`ContactMatching`, `ContactPhones`, `ContactSheets`, `ContactImport`, `ContactImportLaws`,
  `ContactImportEffects`): a plan made against placeholders, and an execution that resolves every one.
- **Greedy text wrapping** (`WrapText`), **donations with idempotency keys** (`Donations`, `DonationLaws`), **the visitor
  register** (`EntryLogs`, `EntryLogLaws`, `EntryLogPolicy`) and **administrative procedures** (`Procedures`,
  `ProcedureLaws`, `ProcedurePolicy`).

Tables are sequences of optional rows (a row's id is its index, a deleted row leaves its slot empty), so ids are fresh
and never reused. Each operation is a function from the state read to the state written or a refusal; the `*Service`
classes are the objects of the source, whose methods overwrite fields step by step and are proved to do exactly what the
function says, refusals and rollbacks included. Each class has an invariant, `Valid()` (`InOrder()` for the requests),
that holds of a new service and that every public method keeps; it is the invariant the laws prove over whole runs. Where
a service reads before it writes without a lock, the value read is
a parameter of its own and may be stale.

Run the verifier on the whole project with `dafny verify dfyconfig.toml`.

## What the proofs found

- A completion writes without looking again. If the expense was cancelled after the completion read it, the amount comes
  back and the line can be passed (`ResurrectionOverspends`, `BlindCompletionEffect`).
- An expense edited between an approval's read and its write is approved for the amount that was read
  (`EditRaceOverspends`).
- Spending recorded outside the workflow takes no lock: recorded between an approval's sums and its commit, within what
  is left, it and the approval together pass the line (`LegacyRaceOverspends`).
- The comment that availability is always consistent under the line lock (`budget.service.ts:42-52`) therefore holds
  between approvals, and against every quiet step (`BudgetInEveryTrace`), but not against these. Two more edits pass the
  line: one whose lock check came before an approval and whose write lands after its commit, and one that raises a row
  outside the workflow between an approval's sums and its commit. `RaceTraceIff` gives the exact condition for all of
  them, over every interleaving.
- Submissions and reviews outside a transaction check and write apart: two submissions can both be pending and a late
  review can overrule one that came first (`TwoPending`, `ReviewOverruled`). At most one request is pending throughout
  exactly when no submission inserts while one is (`OnePendingIff`), and a review is final exactly when every other
  review of the same request still in flight agrees with it (`ReviewIsFinalIff`).
- Under stale reads a parked removal can come to no longer fit, exactly when an exit or adjustment decided earlier takes
  from it or parks too much (`FitsThroughoutIff`). Its approval is then recorded but not applied, and the item waits for
  ever: it is refused every exit, adjustment, count and archiving from then on (`ApprovalComesTooLate`,
  `WaitsForEverIff`).
- Income is meant never to carry a supplier (`finances.service.ts:117-123`), but an update that turns an expense into
  income without mentioning its supplier leaves it there (`NoSupplierOnIncomeIff`, `SupplierStranded`).
- An empty idempotency key is no key to the checks but is stored as one: a second donation with it is refused with an
  error instead of returning the first (`RetryReturnsIff`, `RetryFails`).
- Donation buckets show a whole day, week or month, but for a quarter or a year drop exactly what is dated after the
  first month of the period (`DonationsConserve`, `QuarterDropsDonation`).
- The date checks keep a renewal date at or before the expiry, and approving a renewal replaces the expiry by it: an
  approved renewal moves an expiry forward exactly when no renewal date was recorded (`RenewalExtendsIff`, `RenewalShortens`).
- Approving a procedure's submission records it now, and a renewal ends where its own date says: either can leave the
  dates in an order the date checks refuse, and only such approvals do (`OrderedThroughoutIff`, `SubmittedAfterItsResponse`).
- While a departure awaits its review the arrival can still be corrected to after it, and the approval does not look
  again: that is the one way to a departure before its arrival (`InTimeThroughoutIff`, `ExitBeforeArrival`).
- `Date.UTC` reads years 0 to 99 as 1900 to 1999, so a transaction dated in such a year is in no month of its own
  (`OwnMonthIff`, `YearFiftyIsUncounted`) and a period resolved in one does not contain its instant
  (`AroundItsInstantIff`).
- No operation of the register sets EN_ATTENTE_VALIDATION, and none of the procedures service sets REFUSE or EXPIRE
  (`StepKeeps`, through `Sane`).

## Model

| member | source | states |
|---|---|---|
| Calendar.MonthIndexUnique | hadoum_api/src/finances/budget.service.ts:35-40 | a day lies in exactly one calendar month |
| Calendar.DateUTCSteps | hadoum_api/src/dashboard/dashboard.service.ts:720-732 | stepping the date field by n days gives the midnight n days on, across months, years and leap days, unless the year is one Date.UTC reinterprets |
| Calendar.MonthsAreGregorian | hadoum_api/src/finances/budget.service.ts:35-40 | January 1970 starts at day 0 and each month has its Gregorian length, leap Februaries included, which leaves one calendar |
| Calendar.WeekGoesRound | hadoum_api/src/dashboard/dashboard-period.util.ts:69-117 | day 0 was a Thursday and the weekday returns after seven days of 24 hours |
| Calendar.CenturyIsRead | hadoum_api/src/finances/budget.service.ts:35-40 | Date.UTC reads the years 0 to 99, and no others, as 1900 to 1999 |
| DashboardPeriod.WindowsAre | hadoum_api/src/dashboard/dashboard-period.util.ts:69-117 | every window holds its day and is one day, the seven days from a Monday, or whole months from a month whose number the period divides |
| DashboardPeriod.ResolvedWindow | hadoum_api/src/dashboard/dashboard-period.util.ts:69-117 | the resolved window is the day, Monday-based week or block of whole months around the instant if and only if no year it is computed from lies in 0 to 99 |
| DashboardPeriod.WindowTiles | hadoum_api/src/dashboard/dashboard-period.util.ts:69-117 | the windows of one kind partition the days, each starting where the one before ends |
| DashboardPeriod.PeriodsTileTime | hadoum_api/src/dashboard/dashboard-period.util.ts:69-117 | for every instant: the window contains it if and only if its year is outside 0 to 99; where the window is computed from such years, an instant of such a year resolves to it if and only if it lies in it, and resolving the end gives the window starting there if and only if the end is in such a year |
| DashboardPeriod.AroundItsInstantIff | hadoum_api/src/dashboard/dashboard-period.util.ts:69-117 | a resolved period contains its instant if and only if the year is outside 0 to 99 |
| DashboardPeriod.PeriodsFrom1970 | hadoum_api/src/dashboard/dashboard-period.util.ts:69-117 | for every instant from 1970 on the windows contain their instants and tile time, without condition |
| DashboardPeriod.DefaultAndFinanceMonth | hadoum_api/src/dashboard/dashboard-period.util.ts:69-143 | no request means the month, and the finance month of a period is the one its first day lies in |
| DashboardPeriod.EnumerateDayStrings | hadoum_api/src/dashboard/dashboard.service.ts:720-732 | the loop ends and lists the label of every day of the range once, in order |
| DashboardPeriod.DayLabelInjective | hadoum_api/src/dashboard/dashboard.service.ts:726-730 | distinct days print distinct labels |
| DashboardPeriod.DayLabelReads | hadoum_api/src/dashboard/dashboard.service.ts:726-730 | the label of a day reads back, digit by digit between its dashes, to that day's UTC year, month and date |
| DashboardPeriod.PeriodLabels | hadoum_api/src/dashboard/dashboard.service.ts:720-732 | over a resolved period there are as many labels as days, all different |
| Budget.InMonthIff | hadoum_api/src/finances/budget.service.ts:35-40 | the half-open range of a month holds exactly the instants of that UTC month |
| Budget.OwnMonthIff | hadoum_api/src/finances/budget.service.ts:35-40 | a transaction falls in the range computed from its own year and month if and only if its year is outside 0 to 99 |
| Budget.YearFiftyIsUncounted | hadoum_api/src/finances/budget.service.ts:35-116 | a paid expense dated 0050-01-01 is in no sum of its own category and month |
| Budget.CountedInOwnBucket | hadoum_api/src/finances/budget.service.ts:74-116 | whatever the three aggregates of a bucket count belongs to that category and month |
| Budget.GroupsGiveSums | hadoum_api/src/finances/budget.service.ts:123-178 | reading a groupBy result at any category, absent meaning zero, gives that category's own sum |
| Budget.GetAllCategoriesAvailability | hadoum_api/src/finances/budget.service.ts:123-178 | for every category the grouped map agrees with the single-category read used under the lock |
| Validations.ValidationsService.Create | hadoum_api/src/validations/validations.service.ts:40-66 | appends one pending request, or refuses and changes nothing when one is pending; history only grows |
| Validations.ValidationsService.ReviewPending | hadoum_api/src/validations/validations.service.ts:77-109 | reviews the latest pending request, refusing its own author, and touches no other; history only grows |
| Validations.CreateEffect | hadoum_api/src/validations/validations.service.ts:40-66 | creating succeeds if and only if nothing is pending for the resource, and adds one pending request for that resource alone |
| Validations.ReviewEffect | hadoum_api/src/validations/validations.service.ts:65-109 | a review consumes one pending request of that resource alone, and which refusal it gives otherwise |
| Validations.HistoryIsFinal | hadoum_api/src/validations/validations.service.ts:40-121 | in every run at most one pending request per resource, no self-review, and reviewed requests never change again |
| Validations.CreateWrites | hadoum_api/src/validations/validations.service.ts:40-66 | a creation appends one pending, unreviewed request in its author's name and changes no other, or is a conflict |
| Validations.ReviewWrites | hadoum_api/src/validations/validations.service.ts:77-109 | a review gives the latest pending request of the resource its verdict, reviewer and comment and changes no other; it is a conflict exactly with nothing pending and otherwise forbidden to an author |
| ValidationRaces.AloneIsSerial | hadoum_api/src/validations/validations.service.ts:40-109 | with nothing in between, read and write together are the serial operation |
| ValidationRaces.OnePendingStepIff | hadoum_api/src/validations/validations.service.ts:40-63 | a step leaves at most one request pending for a resource if and only if it does not insert while one is |
| ValidationRaces.OnePendingIff | hadoum_api/src/validations/validations.service.ts:40-63 | over every interleaving at most one request is pending throughout if and only if no submission inserts while one is |
| ValidationRaces.ReviewStandsIff | hadoum_api/src/validations/validations.service.ts:77-109 | one step: a reviewed request keeps its verdict and reviewer if and only if no late review overrules it; its authorship never changes |
| ValidationRaces.ReviewIsFinalIff | hadoum_api/src/validations/validations.service.ts:77-109 | a reviewed request keeps its verdict and reviewer whatever calls follow and however they interleave, if and only if every review of it still in flight carries the same ones |
| ValidationRaces.RowIsFinal | hadoum_api/src/validations/validations.service.ts:77-109 | with no review of it in flight, a reviewed request never changes again in any column |
| ValidationRaces.NoSelfReview | hadoum_api/src/validations/validations.service.ts:93-97 | in every interleaving no request is ever reviewed by its own author |
| ValidationRaces.TwoPending | hadoum_api/src/validations/validations.service.ts:42-62 | a run of two submissions that leaves two requests pending |
| ValidationRaces.ReviewOverruled | hadoum_api/src/validations/validations.service.ts:83-108 | a run in which an approval is overruled by a rejection read before it |
| FinanceService.FinancesService.UpdateMany | hadoum_api/src/finances/expense-workflow.service.ts:95-112 | the compare-and-set writes only a row still in the expected state |
| FinanceService.FinancesService.Submit | hadoum_api/src/finances/expense-workflow.service.ts:152-178 | status and new request are written together or not at all |
| FinanceService.FinancesService.Approve | hadoum_api/src/finances/expense-workflow.service.ts:199-267 | the checks in their order, then status and review written together or not at all; on valid books it succeeds if and only if the row awaits approval, its line has room and someone other than the submitter reviews it |
| FinanceService.FinancesService.Reject | hadoum_api/src/finances/expense-workflow.service.ts:285-309 | a reason is required; status and review are written together or not at all |
| FinanceService.FinancesService.Resubmit | hadoum_api/src/finances/expense-workflow.service.ts:334-356 | only a rejected row goes back to approval, with a new request |
| FinanceService.FinancesService.PerformTransition | hadoum_api/src/finances/expense-workflow.service.ts:114-126 | complete and cancel move a row along the table, and touch no request |
| FinanceService.FinancesService.CreateTransaction | hadoum_api/src/finances/finances.service.ts:102-173 | appends a row outside the workflow; a supplier only on an expense, and only one that can be assigned |
| FinanceService.FinancesService.UpdateTransaction | hadoum_api/src/finances/finances.service.ts:211-338 | the supplier and both field locks are checked before anything is written |
| FinanceService.FinancesService.DeleteTransaction | hadoum_api/src/finances/finances.service.ts:370-395 | a row linked to a donation is kept |
| FinanceService.FinancesService.UpsertBudgetLine | hadoum_api/src/finances/finances.service.ts:552-564 | one line per category, month and year is set |
| FinanceService.FinancesService.DeleteBudgetLine | hadoum_api/src/finances/finances.service.ts:566-570 | the line goes, nothing else does |
| FinanceService.FinancesService.RecordDonation | hadoum_api/src/donors/donations.service.ts:129-162 | transaction and donation are both stored, or neither |
| FinanceLaws.FollowsTable | hadoum_api/src/finances/expense-workflow.service.ts:31-38 | whatever the operation, a status change is an arrow of the table and new rows start outside the workflow |
| FinanceLaws.LockHolds | hadoum_api/src/finances/finances.service.ts:30-34 | from approval on every operation keeps amount, category, date and type |
| FinanceLaws.LockedForTheRun | hadoum_api/src/finances/finances.service.ts:211-238 | the same over the rest of any run, as long as the row exists |
| FinanceLaws.NoSupplierOnIncomeIff | hadoum_api/src/finances/finances.service.ts:124-133 | after an operation income carries no supplier if and only if the operation did not turn a supplied expense into income without mentioning its supplier |
| FinanceLaws.SupplierStranded | hadoum_api/src/finances/finances.service.ts:289-338 | a run that ends with income carrying a supplier |
| FinanceLaws.AgreeInEveryRun | hadoum_api/src/finances/expense-workflow.service.ts:152-356 | in every run a row has one pending request if it awaits approval and none otherwise |
| FinanceLaws.ApprovalGrantedIff | hadoum_api/src/finances/expense-workflow.service.ts:199-267 | an approval is granted if and only if the row awaits one, its line has room and someone other than the submitter reviews it |
| FinanceLaws.SubmissionAcceptedIff | hadoum_api/src/finances/expense-workflow.service.ts:152-178 | a submission is accepted if and only if the row is an expense outside the workflow; no stray request blocks it |
| FinanceEffects.TransitionTable | hadoum_api/src/finances/expense-workflow.service.ts:31-38 | the six arrows of the workflow are the only transitions |
| FinanceEffects.GuardedWriteIff | hadoum_api/src/finances/expense-workflow.service.ts:95-112 | the guarded write goes through exactly for an existing row still in the expected status, and moves that row alone |
| FinanceEffects.SubmissionEffect | hadoum_api/src/finances/expense-workflow.service.ts:152-178 | an accepted submission takes the row from no status to PENDING_APPROVAL, all else of it kept, and files one request |
| FinanceEffects.ResubmissionEffect | hadoum_api/src/finances/expense-workflow.service.ts:334-356 | an accepted resubmission takes the row from REJECTED to PENDING_APPROVAL and files one request |
| FinanceEffects.ApprovalEffect | hadoum_api/src/finances/expense-workflow.service.ts:199-267 | a granted approval leaves exactly the row in question APPROVED, all else of it kept, and its pending request approved by this reviewer |
| FinanceEffects.RejectionEffect | hadoum_api/src/finances/expense-workflow.service.ts:285-309 | an accepted rejection leaves exactly the row in question REJECTED and its pending request rejected by this reviewer with the reason |
| FinanceEffects.SettlementEffect | hadoum_api/src/finances/expense-workflow.service.ts:374-399 | a completion or cancellation is accepted exactly out of APPROVED and moves that row alone, no request touched |
| FinanceEffects.ApprovalRefusal | hadoum_api/src/finances/expense-workflow.service.ts:199-267 | which error a refused approval gives: missing row, wrong status, no line, not enough budget, own submission |
| FinanceEffects.RejectionGrantedIff | hadoum_api/src/finances/expense-workflow.service.ts:285-309 | a rejection is accepted exactly with a non-blank reason, a pending row and a reviewer other than the submitter, with each refusal's error |
| FinanceEffects.ResubmissionAcceptedIff | hadoum_api/src/finances/expense-workflow.service.ts:334-356 | a resubmission is accepted exactly for a rejected row |
| FinanceEffects.ApprovalReserves | hadoum_api/src/finances/expense-workflow.service.ts:199-267 | an approval adds exactly the amount to what its own bucket reserves; what any bucket has consumed, and every other bucket, stays |
| FinanceEffects.SettlementShifts | hadoum_api/src/finances/expense-workflow.service.ts:374-399 | a cancellation frees exactly the amount; a completion moves it from reserved to consumed |
| FinanceEffects.RejectionShiftsNothing | hadoum_api/src/finances/expense-workflow.service.ts:285-309 | a rejection changes no sum of any bucket |
| FinanceEffects.CreationEffect | hadoum_api/src/finances/finances.service.ts:102-173 | a creation is accepted exactly with an assignable supplier on an expense or none, and appends a row with just the given fields, outside the workflow |
| FinanceEffects.UpdateAcceptedIff | hadoum_api/src/finances/finances.service.ts:211-299 | an update is accepted exactly when it keeps the four financial fields of a row approved, completed or cancelled, those and the donor of a row behind a donation, and the supplier rules |
| FinanceEffects.UpdateError | hadoum_api/src/finances/finances.service.ts:211-299 | a refused update gives the error of the first thing wrong with it |
| FinanceEffects.UpdateEffect | hadoum_api/src/finances/finances.service.ts:300-338 | an accepted update sets the fields it mentions, keeps the others and the workflow status, and touches no other row |
| FinanceEffects.DeletionEffect | hadoum_api/src/finances/finances.service.ts:370-395 | a row is deleted exactly when no donation stands on it, and it alone |
| FinanceEffects.LineEffect | hadoum_api/src/finances/finances.service.ts:552-570 | setting or deleting a budget line changes that line and no other |
| FinanceEffects.DonationEffect | hadoum_api/src/donors/donations.service.ts:129-162 | a donation and its income row are both appended, or, with the key taken, neither |
| FinanceEffects.DonorKept | hadoum_api/src/finances/finances.service.ts:246-299 | no operation changes the donor on a row behind a donation |
| FinanceLaws.BudgetStep | hadoum_api/src/finances/expense-workflow.service.ts:199-267 | an operation keeps a bucket within its line if and only if it is not legacy spending beyond what is available or a line set below what is committed |
| FinanceLaws.BudgetInEveryRun | hadoum_api/src/finances/budget.service.ts:53-116 | over a run of all finance operations without such steps, committed spending stays within the line |
| FinanceLaws.CompletionConserves | hadoum_api/src/finances/expense-workflow.service.ts:374-386 | completing moves the amount from reserved to consumed in the row's own bucket and changes no total |
| FinanceLaws.PairedKept | hadoum_api/src/finances/finances.service.ts:246-299 | no finance operation changes or removes a donation's transaction, and keys stay distinct |
| FinanceLaws.PairedInEveryRun | hadoum_api/src/donors/donations.service.ts:83-181 | in every run each donation keeps its own transaction, alike in type, category, amount and date |
| FinanceLaws.InOrderStep | hadoum_api/src/finances/finances.service.ts:147-395 | every finance operation keeps requests matching rows and donations matching transactions |
| FinanceLaws.EmptyBooks | hadoum_api/src/finances/finances.service.ts:147-173 | empty books are in order and within every line |
| ExpenseRaceLaws.ConsistentNext | hadoum_api/src/finances/expense-workflow.service.ts:95-126 | no single step, on however stale a read, breaks the agreement of status and requests |
| ExpenseRaceLaws.AgreeInEveryTrace | hadoum_api/src/finances/expense-workflow.service.ts:95-356 | in every interleaving a row has one pending request if it awaits approval and none otherwise |
| ExpenseRaceLaws.LockedInEveryTrace | hadoum_api/src/finances/expense-workflow.service.ts:114-126 | in every interleaving an approved row never leaves approved, completed or cancelled, although two writes are blind |
| ExpenseRaceLaws.GuardedNext | hadoum_api/src/finances/budget.service.ts:53-116 | the sums an approval has read so far, in their order, never fall below the true ones while it holds the line |
| ExpenseRaceLaws.BudgetInEveryTrace | hadoum_api/src/finances/expense-workflow.service.ts:199-267 | any number of approvals, each in six steps, interleaved with every other action, never take a bucket past its line, provided every step is quiet |
| ExpenseRaceLaws.RaceStepIff | hadoum_api/src/finances/expense-workflow.service.ts:95-267 | from any consistent world within the line, a step, whatever it read and whatever happened since, takes the bucket past its line if and only if it is a completion bringing back a cancelled amount, an edit, a legacy row or an approval committed for more than is left then, or a line set too low |
| ExpenseRaceLaws.RaceTraceIff | hadoum_api/src/finances/expense-workflow.service.ts:95-399 | over any interleaving, the bucket is within its line throughout if and only if no step overspends where it is made |
| ExpenseRaceLaws.IdleWorld | hadoum_api/src/finances/expense-workflow.service.ts:152-267 | with no request in flight, books in order and within the line are all these theorems start from |
| ExpenseRaceAlone.ApprovalAlone | hadoum_api/src/finances/expense-workflow.service.ts:199-267 | the six phases of an approval with nothing in between, in a world where nobody holds a lock, do exactly what the serial approval does, granted or refused |
| ExpenseRaceAlone.ActionAlone | hadoum_api/src/finances/expense-workflow.service.ts:95-126 | read and write of any other action with nothing in between are the serial operation |
| ExpenseRaceAlone.RowGone | hadoum_api/src/finances/expense-workflow.service.ts:114-126 | when the row has gone since it was read nothing is written |
| ExpenseRaceAlone.SerialIsTrace | hadoum_api/src/finances/expense-workflow.service.ts:95-399 | every serial run is a trace of one process, whatever requests have only read so far, so the laws of all traces hold of all serial runs |
| DonationRaceLaws.AnchoredNext | hadoum_api/src/finances/finances.service.ts:246-338 | no single step, on however stale a read of the row and of its donation link, pulls a donation and its transaction apart |
| DonationRaceLaws.PairedInEveryTrace | hadoum_api/src/finances/finances.service.ts:246-395 | in every interleaving each donation keeps its own transaction, alike in type, category, amount and date |
| DonationRaceLaws.IdleWorld | hadoum_api/src/finances/finances.service.ts:246-248 | with no action in flight, paired donations are all that theorem starts from |
| ExpenseRaceLimits.ResurrectionOverspends | hadoum_api/src/finances/expense-workflow.service.ts:114-126 | a run in which a completion lands on a row cancelled since, and a line of 5 ends with 10 committed |
| ExpenseRaceLimits.EditRaceOverspends | hadoum_api/src/finances/finances.service.ts:289-338 | a run in which an edit lands between an approval's read and write, and a line of 5 ends with 50 committed |
| ExpenseRaceLimits.LegacyRaceOverspends | hadoum_api/src/finances/finances.service.ts:147-173 | a run in which a legacy row within what is left lands between an approval's sums and its commit, and a line of 5 ends with 10 committed |
| ExpenseRaceLimits.BlindCompletionEffect | hadoum_api/src/finances/expense-workflow.service.ts:114-126 | a blind completion changes no committed total unless the row was cancelled meanwhile, and then by exactly its amount |
| StockService.StockItemsService.Record | hadoum_api/src/stock-movements/stock-movements.service.ts:42-69 | the log grows by one row and nothing else in it changes |
| StockService.StockItemsService.Create | hadoum_api/src/stock-items/stock-items.service.ts:224-278 | an item starts empty, and an initial quantity arrives as a recorded entry |
| StockService.StockItemsService.CreateEntry | hadoum_api/src/stock-items/stock-items.service.ts:486-523 | increment and movement together |
| StockService.StockItemsService.CreateExit | hadoum_api/src/stock-items/stock-items.service.ts:525-580 | refused, parked or applied with its movement, by the thresholds |
| StockService.StockItemsService.CreateAdjustment | hadoum_api/src/stock-items/stock-items.service.ts:582-691 | refused, parked or applied with its movement, by sign, loss and size |
| StockService.StockItemsService.CreateTransfer | hadoum_api/src/stock-items/stock-items.service.ts:693-727 | the place and the space change as asked, the quantity does not |
| StockService.StockItemsService.CreateInventoryCount | hadoum_api/src/stock-items/stock-items.service.ts:738-768 | the difference to the count becomes a correction |
| StockService.StockItemsService.ArchiveItem | hadoum_api/src/stock-items/stock-items.service.ts:437-482 | an empty item is archived at once, a stocked one after review |
| StockService.StockItemsService.ApproveOperation | hadoum_api/src/stock-items/stock-items.service.ts:829-916 | the parked operation is applied after its review; on a valid store a refusal changes nothing, so no review is left without its operation |
| StockService.StockItemsService.DeclineOperation | hadoum_api/src/stock-items/stock-items.service.ts:918-970 | only the request and the validation status move |
| StockLaws.StaleStepConserves | hadoum_api/src/stock-items/stock-items.service.ts:486-727 | every write, decided on items read at any earlier time, leaves quantities non-negative and equal to the sum of the recorded movements' effects |
| StockLaws.StockConserved | hadoum_api/src/stock-items/stock-items.service.ts:224-904 | the same over every interleaving of such writes |
| StockLaws.SerialConserves | hadoum_api/src/stock-items/stock-items.service.ts:224-970 | serial operations conserve too, being the case where the read is current |
| StockSerial.LogChains | hadoum_api/src/stock-movements/stock-movements.service.ts:42-69 | serially each quantityBefore is the item's previous quantityAfter, and the last is the current quantity |
| StockSerial.StockReserved | hadoum_api/src/stock-items/stock-items.service.ts:770-803 | serially an item awaits review exactly while one request is pending, stays active, and still holds what is parked |
| StockSerial.ApprovalNeverShort | hadoum_api/src/stock-items/stock-items.service.ts:829-881 | serially the conflict for stock no longer sufficient is unreachable |
| StockSerial.StockInEveryRun | hadoum_api/src/stock-items/stock-items.service.ts:224-970 | conservation, chaining and held stock all hold in every serial run |
| StockSerial.EmptyStore | hadoum_api/src/stock-items/stock-items.service.ts:224-278 | and they hold of an empty store |
| StockSerial.OnlyEntriesWhileParked | hadoum_api/src/stock-items/stock-items.service.ts:486-523 | while an operation is parked, entries alone change the quantity |
| StockSerial.CountOutcome | hadoum_api/src/stock-items/stock-items.service.ts:738-768 | an accepted count sets the quantity to the counted amount, or parks exactly the difference |
| StockSerial.PhysicalCountHonoured | hadoum_api/src/stock-items/stock-items.service.ts:738-882 | a parked count approved after any run gives the counted amount plus what was entered in between, for surplus and shortfall alike |
| StockPolicy.ExitDecides | hadoum_api/src/stock-items/stock-items.service.ts:525-580 | an exit within both thresholds is taken at once, a larger one put off without moving stock, and one of a busy or too small item refused |
| StockPolicy.AdjustmentDecides | hadoum_api/src/stock-items/stock-items.service.ts:582-691 | every loss, and every correction or removal over the percentage of the current quantity, is put off; the rest is done at once; refusals in their order |
| StockPolicy.EntryDecides | hadoum_api/src/stock-items/stock-items.service.ts:486-523 | an entry is taken exactly for an active item, and adds its quantity |
| StockPolicy.TransferDecides | hadoum_api/src/stock-items/stock-items.service.ts:693-727 | a transfer sets the given parts of the place, keeps the quantity and logs it unchanged |
| StockPolicy.CountDecides | hadoum_api/src/stock-items/stock-items.service.ts:738-768 | a matching count changes nothing; another is applied or put off by the size of its difference |
| StockPolicy.ArchiveDecides | hadoum_api/src/stock-items/stock-items.service.ts:437-482 | an empty item is archived at once, one with stock put off |
| StockPolicy.OpeningDecides | hadoum_api/src/stock-items/stock-items.service.ts:224-278 | a new item is empty or has its initial quantity with an entry to show for it |
| StockPolicy.WriteFailsIff | hadoum_api/src/stock-items/stock-items.service.ts:553-691 | whatever was read before, a write fails exactly for a removal of more than there is or, where asked, on an archived item |
| StockPolicy.ApprovalDecides | hadoum_api/src/stock-items/stock-items.service.ts:829-916 | in a store in order, an approval by another than the author does what was parked, for its submitter and in the approver's name, and nothing else can happen |
| StockPolicy.DeclineDecides | hadoum_api/src/stock-items/stock-items.service.ts:918-970 | a refusal by another than the author frees the item and moves no stock |
| StockPolicy.StepLicensed | hadoum_api/src/stock-items/stock-items.service.ts:525-916 | one operation logs at most one row, licensed by the thresholds at that moment or by an approved request |
| StockPolicy.EveryMovementLicensed | hadoum_api/src/stock-items/stock-items.service.ts:224-970 | in every serial run each new row without an approver is within both exit thresholds at the price of its moment, no loss, and no sizeable removal or correction; every other has an approved request behind it by two different persons |
| StockRaces.FitsStepIff | hadoum_api/src/stock-items/stock-items.service.ts:525-691 | whatever was read when, a step leaves less than is parked if and only if it takes from what is parked or parks more than there is |
| StockRaces.FitsThroughoutIff | hadoum_api/src/stock-items/stock-items.service.ts:486-970 | over any steps on any reads, a parked removal fits throughout if and only if no step does that |
| StockRaces.ApprovalShortIff | hadoum_api/src/stock-items/stock-items.service.ts:860-881 | an approval that passes its review comes too late if and only if what it should remove no longer fits |
| StockRaces.WaitsForEverIff | hadoum_api/src/stock-items/stock-items.service.ts:829-970 | an item awaiting review does so for ever, in every serial run, if and only if no request for it is pending |
| StockRaces.ApprovalComesTooLate | hadoum_api/src/stock-items/stock-items.service.ts:553-577 | a run from a sound store in which an exit decided earlier makes an approved loss too late, after which the item waits for ever |
| WrapText.GreedyStaysAhead | hadoum_api/src/donors/pdf-report.service.ts:238-258 | each greedy line ends no earlier than the same line of any breaking that fits |
| WrapText.GreedyIsShortest | hadoum_api/src/donors/pdf-report.service.ts:238-258 | no order-preserving breaking whose multi-word lines fit has fewer lines |
| WrapText.WordsKeepText | hadoum_api/src/donors/pdf-report.service.ts:244-244 | the words are the text without its white space, in order |
| WrapText.WordsSplit | hadoum_api/src/donors/pdf-report.service.ts:244-244 | words are separated by white space and by nothing else |
| WrapText.WordsOfJoin | hadoum_api/src/donors/pdf-report.service.ts:244-244 | joining words and splitting again gives them back |
| WrapText.Wrap | hadoum_api/src/donors/pdf-report.service.ts:238-258 | for any text the loop keeps all words in order, its multi-word lines fit, and it is optimal for any width monotone on runs of words |
| Metrics.MetricsService.RecordAuthenticatedUser | hadoum_api/src/metrics/metrics.service.ts:142-144 | the user's last request is now |
| Metrics.MetricsService.Prune | hadoum_api/src/metrics/metrics.service.ts:129-134 | exactly the users outside the window go |
| Metrics.MetricsService.CollectActiveUsers | hadoum_api/src/metrics/metrics.service.ts:54-66 | the gauge is the size of what is left after eviction |
| Metrics.MapTracksHistory | hadoum_api/src/metrics/metrics.service.ts:54-66 | the evicting map holds true last requests and misses only users outside every later window |
| Metrics.GaugeIsExact | hadoum_api/src/metrics/metrics.service.ts:54-144 | for every interleaving under a non-decreasing clock the gauge counts exactly the users whose last request in the full history is in the window |
| Metrics.CountedIffRecent | hadoum_api/src/metrics/metrics.service.ts:54-144 | a scrape counts exactly the users with some request in the last fifteen minutes, whatever was evicted before |
| Presence.CountsAddUp | hadoum_api/src/staff/staff.service.ts:292-346 | present, absent, non-confirmed and unconfirmed-on-leave add up to the staff |
| Presence.SameDaySameMap | hadoum_api/src/staff/staff.service.ts:364-415 | a ranged query gives the same confirmations for a day as a query for that day |
| Presence.SameDaySameLeaves | hadoum_api/src/staff/staff.service.ts:364-415 | a ranged query gives the same people on leave for a day as a query for that day |
| Presence.OrderIsIrrelevant | hadoum_api/src/staff/staff.service.ts:292-346 | the counts do not depend on the order the staff are listed in |
| Presence.DailyReadsTables | hadoum_api/src/staff/staff.service.ts:292-346 | each entry of the daily list is PRESENT or ABSENT exactly when a row of that person and day says so, and on leave exactly when an absence or congé spans the day |
| Presence.DailyCountsTables | hadoum_api/src/staff/staff.service.ts:385-413 | the counts of a day are the numbers of staff whose rows say present, say absent, or say nothing while not away |
| Presence.ConfirmedShows | hadoum_api/src/staff/staff.service.ts:417-437 | after a confirmation that person's entry of that day shows it, and every other entry what it showed before |
| Presence.ErasedShows | hadoum_api/src/staff/staff.service.ts:439-444 | after a reset that person's entry of that day is NON_CONFIRMED, and every other as before |
| Presence.TrendFor | hadoum_api/src/staff/staff.service.ts:385-413 | the counters of one pass equal the counts of that day's presence list |
| Presence.ListPresenceTrend | hadoum_api/src/staff/staff.service.ts:364-415 | for every ascending list of days, each entry equals the counts derived from the per-day list |
| Presence.PresenceBook.ConfirmPresence | hadoum_api/src/staff/staff.service.ts:417-437 | one person's answer for one day is set and every other answer stays |
| Presence.PresenceBook.ResetPresence | hadoum_api/src/staff/staff.service.ts:439-444 | one person's answer for one day is erased and every other answer stays |
| Trends.LandsInOne | hadoum_api/src/finances/finances.service.ts:783-791 | an in-range transaction lands in the bucket of its day and in no other |
| Trends.RangeSumCounts | hadoum_api/src/finances/finances.service.ts:708-747 | a range sum is the sum of the validated rows of its type dated in the range |
| Trends.GetDailyTrend | hadoum_api/src/finances/finances.service.ts:758-797 | one bucket per day of the range, each equal to the plain sums over that day's part of the range |
| Trends.DailyTrendConserves | hadoum_api/src/finances/finances.service.ts:758-797 | bucket totals equal the range sums, for income and expenses, aligned to midnight or not |
| Trends.BucketsConserve | hadoum_api/src/finances/finances.service.ts:708-747 | consecutive windows together hold exactly what lies between the first edge and the last |
| Trends.TallyCounts | hadoum_api/src/dashboard/dashboard.service.ts:759-801 | a tally adds the amount and one for each item dated in its range |
| MonthlyTrends.GetMonthlyTrend | hadoum_api/src/finances/finances.service.ts:708-747 | six consecutive calendar months ending with the one asked for, each with the plain sums of its month |
| MonthlyTrends.MonthlyTrendConserves | hadoum_api/src/finances/finances.service.ts:708-747 | the six windows tile their span, so the columns add up to one plain sum |
| MonthlyTrends.TitleParses | hadoum_api/src/dashboard/dashboard.service.ts:745-772 | reading a month label back gives the year and month it was printed from |
| MonthlyTrends.GetMonthlyFinanceBuckets | hadoum_api/src/dashboard/dashboard.service.ts:737-750 | six labelled months ending with the one the period starts in |
| MonthlyTrends.TitleIffBucket | hadoum_api/src/dashboard/dashboard.service.ts:783-793 | a date in the queried range carries a bucket's label if and only if it lies between that bucket's edges |
| MonthlyTrends.GetDonationsTrend | hadoum_api/src/dashboard/dashboard.service.ts:759-801 | each bucket counts exactly the donations of its own day or month |
| MonthlyTrends.ShownPlusDropped | hadoum_api/src/dashboard/dashboard.service.ts:759-801 | what is shown plus what is dated after the last bucket is what was fetched |
| MonthlyTrends.DonationsConserve | hadoum_api/src/dashboard/dashboard.service.ts:759-801 | the chart accounts for every fetched donation if and only if none is dated after its last bucket, and always for a day, week or month |
| DashboardTrends.ResolvedIsCharted | hadoum_api/src/dashboard/dashboard-period.util.ts:69-117 | every period resolved in the years 1003 to 9997 is one the charts cover |
| DashboardTrends.GetTrends | hadoum_api/src/dashboard/dashboard.service.ts:659-711 | end to end, for any requested period: both series stand on the same labelled windows, and the donations shown are all those fetched if and only if none is dated after the last bucket |
| DashboardTrends.QuarterDropsDonation | hadoum_api/src/dashboard/dashboard.service.ts:759-801 | a quarter with one donation, in its second month: fetched, and shown by no bucket |
| ContactMatching.EnrichableFields | hadoum_api/src/contacts/besoin-import.util.ts:296-306 | exactly the fields blank on the contact and filled on the row |
| ContactMatching.NormalizePhones | hadoum_api/src/contacts/besoin-import.util.ts:115-136 | every comparable number of a cell, once |
| ContactPhones.SplitJoins | hadoum_api/src/contacts/besoin-import.util.ts:121-127 | the entries of a cell are what stands between its slashes |
| ContactPhones.PhonesAreWritten | hadoum_api/src/contacts/besoin-import.util.ts:102-136 | the phones of a cell are exactly the numbers its entries spell, after 221 when seven digits or more follow it |
| ContactPhones.CountryCodeIsIgnored | hadoum_api/src/contacts/besoin-import.util.ts:107-112 | a local number of nine digits is the one phone of any cell that spells it, with or without 221 |
| ContactPhones.SlashUnites | hadoum_api/src/contacts/besoin-import.util.ts:121-136 | a cell with a slash has the phones of both sides |
| ContactPhones.SharesWhatIsWritten | hadoum_api/src/contacts/besoin-import.util.ts:321-329 | two cards share a phone exactly when both write the same number |
| ContactPhones.SameSubscriber | hadoum_api/src/contacts/besoin-import.util.ts:321-329 | the same subscriber with and without the country code is a shared phone |
| ContactPhones.SpellingIsIrrelevant | hadoum_api/src/contacts/besoin-import.util.ts:318-400 | setting a row's numbers out differently changes nothing of its match |
| ContactMatching.ReuseSameName | hadoum_api/src/contacts/besoin-import.util.ts:318-400 | a reused contact bears the row's own normalised name |
| ContactMatching.MatchDecides | hadoum_api/src/contacts/besoin-import.util.ts:318-400 | exactly one comparable twin is reused, none means a new contact, several are left to a person |
| ContactSheets.RowsAreSound | hadoum_api/src/contacts/besoin-import.util.ts:197-258 | rows of the two sheets have distinct keys, and only named rows of a known category are included |
| ContactSheets.UtilesRowSays | hadoum_api/src/contacts/besoin-import.util.ts:197-232 | what a row of the first sheet is taken to say, field by field, and exactly which rows are left out |
| ContactSheets.ParentsRowSays | hadoum_api/src/contacts/besoin-import.util.ts:234-258 | what a row of the second sheet is taken to say, the children first in its notes |
| ContactSheets.ImportCommits | hadoum_api/scripts/import-besoin-contacts.ts:384-487 | whatever the sheets hold, the import commits once the five service categories exist |
| ContactImport.BuildPlan | hadoum_api/scripts/import-besoin-contacts.ts:232-291 | the loop plans each row against the kept contacts and those earlier rows will create |
| ContactImport.ContactImporter.Execute | hadoum_api/scripts/import-besoin-contacts.ts:384-487 | the whole transaction happens, or none of it |
| ContactImportLaws.StepAgrees | hadoum_api/scripts/import-besoin-contacts.ts:252-288 | planning a row and executing its item keeps every candidate backed by a live contact that has all the plan knows of it |
| ContactImportLaws.DeletedExactly | hadoum_api/scripts/import-besoin-contacts.ts:399-403 | the deletable contacts go and no other does |
| ContactImportLaws.PlanAndExecutionAgree | hadoum_api/scripts/import-besoin-contacts.ts:384-487 | execution aborts if and only if a used category is missing, never on a placeholder; every used row lives in a live contact of its own normalised name; kept contacts lose nothing; contacts after = before - deleted + created |
| ContactImportLaws.FilledWasPlanned | hadoum_api/scripts/import-besoin-contacts.ts:468-479 | at every row, the fields filled are among those planned |
| ContactImportEffects.PoolIsWhatStays | hadoum_api/scripts/import-besoin-contacts.ts:232-250 | the first candidates are exactly the contacts that stay, each once |
| ContactImportEffects.CandidatesArePlanned | hadoum_api/scripts/import-besoin-contacts.ts:252-288 | a row is matched against the pool and everything earlier rows are planned to create, and nothing else |
| ContactImportEffects.PlanDecides | hadoum_api/scripts/import-besoin-contacts.ts:252-288 | an excluded row is skipped and any other planned as the match on the candidates so far decides |
| ContactImportEffects.SamePersonOnce | hadoum_api/src/contacts/besoin-import.util.ts:318-400 | two rows of one normalised name and a common number never both create a contact |
| ContactImportEffects.ImportLeaves | hadoum_api/scripts/import-besoin-contacts.ts:421-487 | every used row ends in a contact that says at least as much, created ones in contacts of their own with all of the row; every field was there before or is told by a row that ended there; enrichments are counted exactly |
| ContactImportEffects.DeletionNeedsAll | hadoum_api/scripts/import-besoin-contacts.ts:399-403 | the deletion goes through exactly for existing contacts listed once |
| ContactImportEffects.ImportStopsIff | hadoum_api/scripts/import-besoin-contacts.ts:384-420 | an import stops exactly on a contact that cannot be deleted or a category that is missing, and adds the parents' category exactly when a used row needs it |
| ContactImportEffects.ItemStopsIff | hadoum_api/scripts/import-besoin-contacts.ts:442-479 | one item stops the import exactly when it is a reuse of an unresolved reference or of a missing contact |
| Donations.DonationsService.Check | hadoum_api/src/donors/donations.service.ts:87-123 | a known key returns its donation before any other check; then the donor, the contact and the campaign are checked |
| Donations.DonationsService.WritePair | hadoum_api/src/donors/donations.service.ts:129-163 | the pair is written, or the state is as it was; valid books stay valid |
| Donations.DonationsService.Recover | hadoum_api/src/donors/donations.service.ts:164-180 | the winner's donation is returned |
| Donations.SoundNext | hadoum_api/src/donors/donations.service.ts:83-181 | every step of every call, and every finance operation in between, keeps donations paired and results honest |
| Donations.OneDonationPerKey | hadoum_api/src/donors/donations.service.ts:83-181 | in every interleaving, once a call with a non-empty key returns, its donation is the only one with that key, has its own transaction, and is what every other successful call with the key returns |
| Donations.NoStrayTransaction | hadoum_api/src/donors/donations.service.ts:129-181 | the rows calls append are exactly those backing the donations they make: losing and refused calls leave none |
| Donations.RetryReturnsIff | hadoum_api/src/donors/donations.service.ts:87-92 | a retry returns the recorded donation and changes nothing if and only if the key is non-empty |
| Donations.RetryFails | hadoum_api/src/donors/donations.service.ts:87-180 | a second donation alike is an error with an empty key, and a second gift with none |
| DonationLaws.EveryGiftIsAccounted | hadoum_api/src/donors/donations.service.ts:83-181 | over every interleaving each new donation is what some returned call asked for, with an active donor and contact and an open campaign or none, and its donor on its row; without a key no two calls share one |
| DonationLaws.AloneDecides | hadoum_api/src/donors/donations.service.ts:83-181 | what one call alone comes to: the donation of its key, the first thing wrong with its donor or campaign, or its own donation and row |
| EntryLogService.EntryLogsService.CreateEntry | hadoum_api/src/entry-logs/entry-logs.service.ts:269-310 | immediate kinds start present with an arrival, others planned |
| EntryLogService.EntryLogsService.UpdateEntry | hadoum_api/src/entry-logs/entry-logs.service.ts:474-562 | a correction of a recorded departure is parked, anything else is written, and a first departure is ignored |
| EntryLogService.EntryLogsService.CheckInEntry | hadoum_api/src/entry-logs/entry-logs.service.ts:566-613 | refused, parked or admitted |
| EntryLogService.EntryLogsService.CheckOutEntry | hadoum_api/src/entry-logs/entry-logs.service.ts:615-652 | refused, parked or let out |
| EntryLogService.EntryLogsService.CancelEntry | hadoum_api/src/entry-logs/entry-logs.service.ts:654-673 | only a planned visit is cancelled |
| EntryLogService.EntryLogsService.RefuseEntry | hadoum_api/src/entry-logs/entry-logs.service.ts:675-694 | an admitted person is not refused |
| EntryLogService.EntryLogsService.ArchiveEntry | hadoum_api/src/entry-logs/entry-logs.service.ts:698-713 | ended visits are archived at once, others after review |
| EntryLogService.EntryLogsService.SubmitPendingOperation | hadoum_api/src/entry-logs/entry-logs.service.ts:715-748 | request and parked action are recorded |
| EntryLogService.EntryLogsService.ApproveEntry | hadoum_api/src/entry-logs/entry-logs.service.ts:765-829 | the parked action is applied after its review |
| EntryLogService.EntryLogsService.TurnDown | hadoum_api/src/entry-logs/entry-logs.service.ts:831-883 | reject and requestChanges: only the request and the validation status move |
| EntryLogLaws.EntryStep | hadoum_api/src/entry-logs/entry-logs.service.ts:566-713 | status moves only along the register's arrows; a refused visitor enters, a recorded departure changes and a pending entry moves only by an approval from someone other than the submitter; archived entries never change |
| EntryLogLaws.StepKeeps | hadoum_api/src/entry-logs/entry-logs.service.ts:715-829 | present means arrived and not left, left means a departure is recorded, a parked action still fits its entry, and requests match pending entries |
| EntryLogLaws.RegisterInEveryRun | hadoum_api/src/entry-logs/entry-logs.service.ts:105-829 | all of this in every serial run, other services' requests included; isCurrentlyPresent is exactly status PRESENT |
| EntryLogLaws.RulesAtEveryStep | hadoum_api/src/entry-logs/entry-logs.service.ts:566-829 | at every position of a run: nobody expected comes in at a closed hour, nobody refused comes in, nobody leaves exceptionally and no recorded departure changes without the approval of another person |
| EntryLogPolicy.CreationDecides | hadoum_api/src/entry-logs/entry-logs.service.ts:269-310 | a creation is refused exactly for a departure expected before the arrival; the immediate kinds start present, now unless told otherwise |
| EntryLogPolicy.UpdateDecides | hadoum_api/src/entry-logs/entry-logs.service.ts:474-562 | an update with dates out of order is refused, a correction of a recorded departure put off, and anything else set |
| EntryLogPolicy.CheckInDecides | hadoum_api/src/entry-logs/entry-logs.service.ts:566-613 | an arrival is refused after the fact, put off for a refused visitor or a closed hour, and otherwise taken at its time |
| EntryLogPolicy.CheckOutDecides | hadoum_api/src/entry-logs/entry-logs.service.ts:615-652 | a departure is only of someone present, not before the arrival, put off when exceptional and otherwise taken at its time |
| EntryLogPolicy.EndingDecides | hadoum_api/src/entry-logs/entry-logs.service.ts:654-713 | exactly which entries are cancelled, refused, archived at once and put off for archiving |
| EntryLogPolicy.ApprovalDecides | hadoum_api/src/entry-logs/entry-logs.service.ts:765-829 | an approval by another than the author does what was parked, at the time asked for, and leaves nothing waiting |
| EntryLogPolicy.TurnDownDecides | hadoum_api/src/entry-logs/entry-logs.service.ts:831-883 | a rejection or request for changes by another than the author changes only the validation status |
| EntryLogPolicy.InTimeStepIff | hadoum_api/src/entry-logs/entry-logs.service.ts:474-829 | one operation puts a departure before its arrival exactly when it approves a departure asked for earlier than the arrival as it has become |
| EntryLogPolicy.InTimeThroughoutIff | hadoum_api/src/entry-logs/entry-logs.service.ts:474-829 | no departure precedes its arrival at any point of a run exactly when no approval does that where it is made |
| EntryLogPolicy.ExitBeforeArrival | hadoum_api/src/entry-logs/entry-logs.service.ts:507-517 | a concrete run: an exit at 5 is asked for, the arrival corrected to 10, the exit approved |
| EntryLogLaws.EmptyRegister | hadoum_api/src/entry-logs/entry-logs.service.ts:269-310 | and of an empty register |
| ProcedureService.AdministrativeProceduresService.CreateProcedure | hadoum_api/src/administrative-procedures/administrative-procedures.service.ts:231-287 | only a manual status and only an active contact can be set |
| ProcedureService.AdministrativeProceduresService.UpdateProcedure | hadoum_api/src/administrative-procedures/administrative-procedures.service.ts:414-506 | status changes only between manual statuses, dates only coherently; the contact is left, cleared or replaced with its name |
| ProcedureService.AdministrativeProceduresService.ArchiveProcedure | hadoum_api/src/administrative-procedures/administrative-procedures.service.ts:508-521 | refused while a validation is pending |
| ProcedureService.AdministrativeProceduresService.SubmitValidation | hadoum_api/src/administrative-procedures/administrative-procedures.service.ts:525-570 | parks a submission or a finalisation, by status |
| ProcedureService.AdministrativeProceduresService.AskRenewal | hadoum_api/src/administrative-procedures/administrative-procedures.service.ts:572-607 | parks a renewal |
| ProcedureService.AdministrativeProceduresService.AskArchive | hadoum_api/src/administrative-procedures/administrative-procedures.service.ts:609-642 | parks an archiving |
| ProcedureService.AdministrativeProceduresService.ApproveProcedure | hadoum_api/src/administrative-procedures/administrative-procedures.service.ts:644-703 | the parked action is applied after its review |
| ProcedureService.AdministrativeProceduresService.TurnDown | hadoum_api/src/administrative-procedures/administrative-procedures.service.ts:705-759 | reject and requestChanges: only the request and the validation status move |
| ProcedureLaws.ProcedureStep | hadoum_api/src/administrative-procedures/administrative-procedures.service.ts:414-703 | a status changes only between manual ones, by archiving, or by another person's approval; archived stays archived |
| ProcedureLaws.StepKeeps | hadoum_api/src/administrative-procedures/administrative-procedures.service.ts:525-703 | every submitted or approved procedure has an approved request behind it, reviewed by someone other than its author, and requests match pending procedures |
| ProcedureLaws.ProceduresInEveryRun | hadoum_api/src/administrative-procedures/administrative-procedures.service.ts:231-703 | all of this in every serial run, other services' requests included |
| ProcedureLaws.NoProcedures | hadoum_api/src/administrative-procedures/administrative-procedures.service.ts:231-287 | and of an empty table |
| ProcedureLaws.RenewalExtendsIff | hadoum_api/src/administrative-procedures/administrative-procedures.service.ts:668-678 | an approved renewal gives a later expiry if and only if no renewal date was recorded |
| ProcedureLaws.RenewalShortens | hadoum_api/src/administrative-procedures/administrative-procedures.service.ts:668-678 | a run in which an approved renewal turns an expiry of 10 into 5 |
| ProcedurePolicy.CreationDecides | hadoum_api/src/administrative-procedures/administrative-procedures.service.ts:231-287 | a creation is refused exactly for dates out of order, a status not set by hand or an inactive contact, and starts as asked |
| ProcedurePolicy.UpdateDecides | hadoum_api/src/administrative-procedures/administrative-procedures.service.ts:414-506 | exactly which updates are refused, and the dates, status and assignment of the others |
| ProcedurePolicy.RequestsDecide | hadoum_api/src/administrative-procedures/administrative-procedures.service.ts:508-642 | which procedures are archived, and which submissions, renewals and archivings are put off with a request |
| ProcedurePolicy.ApprovalDecides | hadoum_api/src/administrative-procedures/administrative-procedures.service.ts:644-703 | an approval by another than the author does what was asked; a renewal runs to its recorded date or 365 days on |
| ProcedurePolicy.TurnDownDecides | hadoum_api/src/administrative-procedures/administrative-procedures.service.ts:705-759 | a rejection or request for changes by another than the author changes only the validation status |
| ProcedurePolicy.OrderedStepIff | hadoum_api/src/administrative-procedures/administrative-procedures.service.ts:414-703 | one operation takes a procedure's dates out of order exactly when it approves a submission after its planned response or expiry, or a renewal to before the submission |
| ProcedurePolicy.OrderedThroughoutIff | hadoum_api/src/administrative-procedures/administrative-procedures.service.ts:414-703 | dates stay in order throughout a run exactly when no approval disorders them where it is made |
| ProcedurePolicy.SubmittedAfterItsResponse | hadoum_api/src/administrative-procedures/administrative-procedures.service.ts:662-667 | a concrete run records a submission after the response expected to it |

## Left out

- Prisma, SQL and PostgreSQL: transactions are taken as atomic, row locks as held to commit, unique constraints as
  enforced, ids as fresh, and the three availability sums as executed in the order written.
- Steps that the source runs outside a transaction (the review and the write of a stock, register or procedure approval)
  are one step in the serial runs; for stock the interleaved model splits what each write had read.
- EnumerateDayStrings: covers ranges whose days lie in years 100 to 9999; toISOString prints other years with a sign and
  six digits, whose first ten characters are not a day, and Date.UTC moves years 0 to 99.
- PeriodsTileTime: time values past ECMA-262's limit of 8.64e15 ms are not treated as invalid.
- GetDailyTrend: covers the years of EnumerateDayStrings.
- GetMonthlyTrend: the years whose window Date.UTC would move, 0 to 99 and the first months of 100, are excluded.
- GetMonthlyFinanceBuckets: covers resolved periods in years printed with four digits.
- GetDonationsTrend: covers resolved periods in years printed with four digits.
- GetTrends: covers instants of the years 1003 to 9997; the attendance series of the same response is proved by itself
  (ListPresenceTrend, PeriodLabels).
- PeriodLabels: excludes the years 0 to 99, whose windows do not contain their instants.
- BudgetInEveryTrace: stated for runs of quiet steps; RaceTraceIff gives the exact condition for all runs.
- HistoryIsFinal: serial, as inside a transaction; ValidationRaces covers the callers that run outside one.
- StaleStepConserves: the sign of an inventory correction is not stored in its movement row, so the effect of each
  movement is kept beside the log; every other type determines its effect.
- EveryMovementLicensed: serial only; under stale reads a movement is judged on the item as it was read.
- LogChains: serial only; under races the stored quantityBefore of entries and adjustments can be stale.
- ListPresenceTrend: a day's last instant depends on the server's time zone and is any non-decreasing function of its
  first; the staff table and both queries are read at one moment.
- The contact a request names is the one looked up for it; deleting contacts, which clears the columns, is left out.
- DailyReadsTables: of a leave only whether there is one is shown, not its kind or who confirmed what and when.
- RulesAtEveryStep: the closing hours are any set of instants.
- EveryGiftIsAccounted: donations written without a call, which the source has no way to do, are excluded from its runs.
- Check: the donor profile and the campaign are those read with the call; nothing in the model changes them.
- CreateTransfer: the source and destination texts of the movement row are left out.
- PlanAndExecutionAgree: assumes contacts do not change between planning and executing, and takes the test-contact
  classification and its reference checks as the given set of deletable contacts; stored contact ids never start with
  the placeholder prefix.
- NormalizePhones: trimming an entry is not modelled, as blanks hold no digit; name normalisation, trimming and upper
  casing are parameters.
- Wrap: widths are exact reals.
- Amounts are natural numbers and stock quantities exact reals; floating-point rounding, percentages and euros are not
  modelled, and the sensitivity thresholds are parameters.
- The seeding of default budget lines is a line being set; ranges with an explicit list of months are not modelled.
- Descriptive fields (labels, notes, badges, references) are not modelled.
- Derived fields of entries and procedures other than isCurrentlyPresent (durations, overdue flags, urgency ranks).
- Uploads, documents, mail, notifications, authentication, validators, search, sorting, pagination and the frontend.
- Small status tables (campaigns, fund requests, activities, incidents, spaces, assets, child attendance): each is a
  check on one row, with no property beyond it.
