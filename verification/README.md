# Verified model of the commerce panel's accounting, statistics, caching, login and audit rules

This project models the parts of the panel where state, arithmetic and ordering interact, and proves what they
promise. Database tables are sequences or maps of records, money is in whole kuruş (hundredths of a lira), time in
milliseconds. One module per area:

- `Invoices`, `Overdue`, `Lifecycle`: the invoice table as a class, its actions and bulk actions, the overdue sweep,
  and what every run of them keeps.
- `Ledger`, `Customers`: statements, balances, and the two ways of deciding which invoices belong to a customer.
- `Tax`, `Pricing`: line and invoice totals, and the lines sent to an ERP.
- `Csv`: the printer of the two admin exports and a reader written from section 2 of RFC 4180.
- `Calendar`, `MonthKeys`, `Cohorts`: `Date.UTC` and the `getUTC*` fields as in section 21.4.1 of ECMA-262, the month
  helpers, month keys, and cohort retention.
- `ServiceWorker`: the two caching strategies as a state machine over all interleavings.
- `Login`, `Passwords`: the failure counter and the lock with their two expiry times; the password history.
- `Sanitize`, `AdminAudit`: the rewriting of values before they are logged; administrative changes and their audit
  rows.
- `Analytics`, `Insights`: sales grouped by product, customer, city and category.
- `Text`, `Division`, `Sequences`, `OrderedMap`: what the others share, among them a stable sort and JavaScript's
  `Map`.

Code that updates state is modelled by classes and loops. Each method's contract ties the new state to a function of
the old one, and the lemmas about that function are the results.
A lemma whose name ends in `OnFields` reads one operation off the fields of its records, with the constants written
out and none of the model's own helper functions in the way.

## Where the code falls short of what it seems to promise

Each of these comes with the exact condition under which the promise holds, for all inputs, and with inputs for which
it fails.

- The database clauses compare stored customer texts as they are, the in-memory filter trims the name. A customer gets
  every invoice the filter would give exactly when the invoice was stored with a trimmed, non-blank name and trimmed
  e-mail and phone (`Ledger.QueryCoversFilter`, `Ledger.MissedCustomer`).
- The grand total over customers counts an invoice once per customer it belongs to. With non-negative amounts it is
  the balance of the invoices exactly when no invoice of non-zero amount is shared
  (`Customers.GrandTotalIsUnionBalance`, `Customers.SharedInvoiceCountsTwice`).
- The route that sets an invoice's status checks nothing and leaves the dates alone, and invoices for subscriptions
  are stored as paid without a payment date. Dates and statuses agree throughout a run exactly when every use of the
  route is harmless and no subscription is billed (`Lifecycle.RunKeepsWellFormed`); statuses only move forward exactly
  when the route sets the same or a higher one each time (`Lifecycle.RunMovesForward`). The route can mark an issued
  invoice paid without a payment date and take a paid one back to draft (`Lifecycle.StatusRouteBreaksDates`). Money is
  conserved all the same (`Lifecycle.RunConservesMoney`).
- `Date.UTC` reads the years 0 to 99 as 1900 to 1999: the month helpers are right exactly outside those years
  (`Calendar.MonthsTileTime`, `Calendar.AddThenDiff`, `Calendar.ShortYearsFail`).
- A month key parses back exactly when the year is not negative (`MonthKeys.ParseMonthKeyInverts`,
  `MonthKeys.NegativeYearDoesNotParse`). The key of an earlier month sorts first exactly when the years are equal or
  sort so as texts (`MonthKeys.EarlierKeySortsFirst`); throughout a span of years from 0 on, string order is time
  order exactly when the first and the last year have equally many digits (`MonthKeys.KeysSortInYears`,
  `MonthKeys.KeyOrderBreaks`).
- `cacheFirst` and `networkFirstApi` write to the cache inside the `try`: a failed write counts as a failed fetch. So
  an answer of `cacheFirst` that is not the network's reply is an expired copy exactly when the fetch or the write
  failed, and then the network failed exactly when the write did not (`ServiceWorker.ExpiredExactlyOnFailure`,
  `ServiceWorker.FailedWriteServesCopy`, `ServiceWorker.ExpiredCopyDespiteReply`).
- The cache service ignores failed commands. The counter and the lock stay in step throughout a run exactly when
  neither the EXPIRE of a first failure nor the DEL of a second-factor login that finds five failures is lost
  (`Login.RunKeepsInv`, `Login.LostDeleteUnlocks`); after a lost EXPIRE failures never lock the account again
  (`Login.LostExpireStays`, `Login.NeverLocksAgain`). A wrong password is counted exactly when its INCR goes through
  (`Login.FailureCounts`). At most five per 900 seconds are answered in every run without those two losses exactly
  when no INCR can be lost either (`Login.RateNeedsIncr`); without INCR there is no bound at all
  (`Login.LostIncrCountsNothing`).
- The password rule speaks of the last five passwords; five remembered rows and the current password make seven
  consecutive passwords differ in runs of changes, and no more (`Passwords.SevenInARowDiffer`,
  `Passwords.EighthMayRepeat`). A reset records nothing: a change is refused as a reuse exactly when it picks the
  current password or one of the latest five that changes replaced (`Passwords.ReuseIsRefused`), so after a reset it
  may return to the password before it (`Passwords.ResetMayRepeat`).
- A stored line total is rounded twice, the ERP fallback once. They agree exactly when no half-kuruş point lies
  between the exact price and the rounded subtotal, both with tax (`Pricing.FallbackAgrees`,
  `Pricing.FallbackMayDiffer`), and never differ by more than one kuruş (`Pricing.FallbackWithinOne`).

## Model

| member | source | states |
|---|---|---|
| Csv.ReadPrint | apps/backend/src/admin/admin-users-csv.ts:25-67 | reading a printed table with an RFC 4180 reader never fails and returns its visible records, for arbitrary cell text |
| Csv.ReadBack | apps/backend/src/admin/admin-users-csv.ts:25-67 | the round trip is exact if and only if no record is without cells and the table does not end in a lone empty cell |
| Csv.UsersCsvReadsBack | apps/backend/src/admin/admin-users-csv.ts:44-67 | after the byte order mark the reader finds exactly the header and every user's nine cells |
| Csv.ActivityCsvReadsBack | apps/backend/src/admin/admin-platform-activity-csv.ts:19-64 | the same for the activity export with seven columns |
| Csv.UsersCsvColumns | apps/backend/src/admin/admin-users-csv.ts:3-57 | under each heading a reader of the exported text finds that user's value: e-mail, dates, trimmed name or a dash, relabelled role, suspension, and the organisation's trimmed texts or empty cells |
| Csv.ActivityCsvColumns | apps/backend/src/admin/admin-platform-activity-csv.ts:7-54 | the same for the activity export, where a blank or missing organisation name falls back to the id |
| Csv.UsersCsvIsInjective | apps/backend/src/admin/admin-users-csv.ts:44-67 | two user exports are the same text if and only if they show the same cells |
| Csv.ActivityCsvIsInjective | apps/backend/src/admin/admin-platform-activity-csv.ts:35-64 | two activity exports are the same text if and only if they show the same cells |
| Csv.RoleLabels | apps/backend/src/admin/admin-users-csv.ts:17-23 | the label of each of the five roles, and no others |
| Text.WhiteSpace | apps/backend/src/admin/admin-users-csv.ts:47-53 | the code points that trimming takes away |
| Text.TrimTakesEnds | apps/backend/src/admin/admin-users-csv.ts:47-53 | trimming takes away nothing but white space at the two ends |
| Text.OnlyTrim | apps/backend/src/admin/admin-users-csv.ts:47-53 | it is the only way to do so that leaves a text without white space at its ends |
| Text.LessMeaning | apps/backend/src/admin/admin-stats.service.ts:298-300 | the first difference decides the order of two texts, or the end of the shorter |
| Text.SplitMeaning | apps/backend/src/admin/admin-stats.service.ts:499-502 | the parts hold no separator and joined by it give the text back |
| Ledger.EntriesOnFields | apps/backend/src/accounting/accounting-ledger.service.ts:19-70 | kind, date, debit, credit, ids and description of the entries of an invoice; the payment is dated when it was made, or at the creation without a payment date |
| Ledger.PaymentLabels | apps/backend/src/accounting/accounting-payment-labels.ts:12-26 | the label of each payment method; others are shown as they are |
| Ledger.ComputeBalanceFromInvoices | apps/backend/src/accounting/accounting-ledger.service.ts:79-102 | the loop returns the sum over open invoices, the sum over paid ones, and their difference |
| Ledger.LedgerAgreesWithBalance | apps/backend/src/accounting/accounting-ledger.service.ts:19-102 | total credit is what was collected, total debit what is owed plus collected; the statement holds every entry of the live invoices, newest first, those of one date in the order of their invoices |
| Ledger.LedgerMembers | apps/backend/src/accounting/accounting-ledger.service.ts:72-77 | an entry is in the statement if and only if it is an entry of an invoice that is not cancelled |
| Ledger.BuildInvoiceMatchOrClauses | apps/backend/src/accounting/accounting-ledger.service.ts:104-125 | the pushed clauses are those for the non-blank trimmed name, e-mail and phone, in that order |
| Ledger.FetchedOnFields | apps/backend/src/accounting/accounting-ledger.service.ts:104-140 | an invoice is found by the non-blank trimmed name or e-mail, without case, or by the trimmed phone, and in no other way |
| Ledger.BelongsOnFields | apps/backend/src/accounting/accounting-ledger.service.ts:142-167 | an invoice belongs to a customer of the same trimmed name or the same non-blank e-mail, both without case, or the same non-blank phone, and in no other way |
| Ledger.QueryCoversFilter | apps/backend/src/accounting/accounting-ledger.service.ts:104-167 | the clauses find an invoice for every customer the filter gives it to, if and only if the invoice was stored trimmed with a non-blank name |
| Ledger.MissedCustomer | apps/backend/src/accounting/accounting-ledger.service.ts:104-167 | for any invoice not stored so, a customer who is given it by the filter and missed by the clauses |
| Ledger.FetchOnceFilterEach | apps/backend/src/accounting/accounting-customer.service.ts:70-127 | one query for all customers, then filtering, gives each a newest-first prefix of what filtering every live invoice would give, and all of it when the query was not cut |
| Ledger.FetchedAreNewest | apps/backend/src/accounting/accounting-customer.service.ts:113-127 | the query returns min(take, matches) of the matching live invoices, the newest first by creation, and leaves out none newer than one returned |
| Ledger.CustomerInvoicesAreNewestFirst | apps/backend/src/accounting/accounting-customer.service.ts:31-32 | the customer's share of the result is newest first and holds exactly the fetched invoices that belong to the customer |
| Customers.GetStatement | apps/backend/src/accounting/accounting-customer.service.ts:23-49 | a statement exists if and only if the customer does, and its balance is the sums of its own entry columns |
| Customers.StatementOnFields | apps/backend/src/accounting/accounting-customer.service.ts:31-36 | a statement holds exactly the fetched invoices of its customer, newest first, and has the currency of the newest, or lira |
| Customers.GetLedgerSummaries | apps/backend/src/accounting/accounting-customer.service.ts:70-87 | the filled map has one entry per customer, in order, with that customer's totals |
| Customers.SummaryOnFields | apps/backend/src/accounting/accounting-customer.service.ts:78-85 | the debit sums the customer's drafts, issued and overdue invoices, the credit the paid ones, the balance is their difference |
| Customers.GetBalanceSummary | apps/backend/src/accounting/accounting-customer.service.ts:51-87 | the accumulated debit and credit are the per-customer sums over one fetch |
| Customers.GrandTotalCountsOwners | apps/backend/src/accounting/accounting-customer.service.ts:51-87 | that sum equals the sum over fetched invoices of amount times number of customers owning the invoice |
| Customers.GrandTotalIsUnionBalance | apps/backend/src/accounting/accounting-customer.service.ts:51-87 | for non-negative amounts it is at least the balance of the union, and equal if and only if no invoice of non-zero amount is shared |
| Customers.SharedInvoiceCountsTwice | apps/backend/src/accounting/accounting-customer.service.ts:51-87 | any open invoice of two customers with its customer name is counted twice |
| Invoices.InvoiceTable.Create | apps/backend/src/invoice/invoice.service.ts:284-334 | a draft with a new id is appended; one with a known id changes nothing |
| Invoices.InvoiceTable.CreateFromSubscriptionPayment | apps/backend/src/invoice/invoice.service.ts:230-282 | an invoice for a paid subscription with a new id is appended; one with a known id changes nothing |
| Invoices.InvoiceTable.RequireInvoice | apps/backend/src/accounting/accounting-invoice.service.ts:427-438 | finds the organisation's live row with the id, if there is one |
| Invoices.InvoiceTable.IssueInvoice | apps/backend/src/accounting/accounting-invoice.service.ts:231-249 | the table and the answer after issuing, as the action function gives them |
| Invoices.InvoiceTable.MarkInvoicePaid | apps/backend/src/accounting/accounting-invoice.service.ts:281-308 | the table and the answer after marking paid |
| Invoices.InvoiceTable.UpdateStatus | apps/backend/src/invoice/invoice.service.ts:420-436 | the table and the answer after setting a status without a check |
| Invoices.InvoiceTable.CancelInvoice | apps/backend/src/accounting/accounting-invoice.service.ts:269-278 | the table and the answer after cancelling, whatever the time |
| Invoices.InvoiceTable.RunBulkInvoiceAction | apps/backend/src/accounting/accounting-invoice.service.ts:401-425 | the loop runs the actions one after another and records every failure |
| Invoices.InvoiceTable.BulkIssue | apps/backend/src/accounting/accounting-invoice.service.ts:251-258 | the bulk loop with the issue action |
| Invoices.InvoiceTable.BulkMarkPaid | apps/backend/src/accounting/accounting-invoice.service.ts:260-267 | the bulk loop with the mark-paid action and no payment details |
| Invoices.ActMeaning | apps/backend/src/accounting/accounting-invoice.service.ts:231-308 | an action succeeds if and only if a live invoice of the organisation with that id allows it; a failure changes nothing and names the reason |
| Invoices.ActOnRow | apps/backend/src/accounting/accounting-invoice.service.ts:231-308 | an action touches only the invoice it names |
| Invoices.IssueOnFields | apps/backend/src/accounting/accounting-invoice.service.ts:231-249 | only drafts are issued; a due date there was is kept, otherwise it is seven days from now; no other field or invoice changes |
| Invoices.MarkPaidOnFields | apps/backend/src/accounting/accounting-invoice.service.ts:281-308 | only issued and overdue invoices are paid, on the given date or now and by the given method or none; each other status has its reason; no other field or invoice changes |
| Invoices.CancelOnFields | apps/backend/src/accounting/accounting-invoice.service.ts:269-278 | whatever is neither paid nor cancelled is cancelled, and only its status changes |
| Invoices.UpdateStatusOnFields | apps/backend/src/invoice/invoice.service.ts:420-436 | the status given is set on the invoice named and nothing else changes |
| Invoices.MissingOnFields | apps/backend/src/accounting/accounting-invoice.service.ts:427-438 | without a live invoice of the organisation with the id nothing changes and that is the reason |
| Invoices.BulkMeaning | apps/backend/src/accounting/accounting-invoice.service.ts:401-425 | for any id list with repeats and unknown ids: success plus failed is its length, success counts the distinct eligible invoices, and each of them is acted on once, at its first appearance |
| Invoices.BulkErrorsInOrder | apps/backend/src/accounting/accounting-invoice.service.ts:401-425 | the errors are, in list order, the ids that fail, each with the reason: no live invoice, the status it had, or the status an earlier mention left |
| Invoices.BulkIgnoresOrder | apps/backend/src/accounting/accounting-invoice.service.ts:401-425 | lists with the same ids give the same statuses and successes, whatever order and repeats |
| Invoices.BulkTwice | apps/backend/src/accounting/accounting-invoice.service.ts:401-425 | repeating the call changes nothing and has no success |
| Overdue.MarkOverdueSentInvoices | apps/backend/src/accounting/accounting-overdue.service.ts:21-57 | the loop over organisations has the effect of one global pass and counts exactly the rows it changed |
| Overdue.SweepOnFields | apps/backend/src/accounting/accounting-overdue.service.ts:34-45 | exactly the sent, live invoices whose due date is before now become overdue, and only their status changes |
| Overdue.OrganizationsOwing | apps/backend/src/accounting/accounting-overdue.service.ts:22-35 | the organisations processed are, each once, those owning an invoice past due |
| Overdue.OneMoreOrganization | apps/backend/src/accounting/accounting-overdue.service.ts:34-45 | sweeping one more organisation after others is sweeping them all at once, in effect and in count |
| Overdue.SweepTwice | apps/backend/src/accounting/accounting-overdue.service.ts:21-57 | after a sweep no live sent invoice is past due, and a second sweep at the same time updates nothing |
| Lifecycle.OverviewAddsUp | apps/backend/src/accounting/accounting-invoice.service.ts:77-114 | open plus collected is the total of the invoices not cancelled, in amount and in number |
| Lifecycle.OverviewOnFields | apps/backend/src/accounting/accounting-invoice.service.ts:71-114 | counts and totals of the overview, read off the organisation's live invoices by status |
| Lifecycle.StepMovesMoney | apps/backend/src/accounting/accounting-invoice.service.ts:231-308 | a new draft is owed, a paid subscription is collected, a payment moves exactly its amount to collected, a cancellation removes exactly it, the status route may undo either, issuing and the sweep move nothing |
| Lifecycle.RunConservesMoney | apps/backend/src/accounting/accounting-invoice.service.ts:77-308 | over every run, the unchecked status route and subscription invoices included, and for every organisation the overview changes by exactly the amounts created, paid and cancelled |
| Lifecycle.StepKeepsWellFormed | apps/backend/src/invoice/invoice.service.ts:230-436 | a step keeps all dates and statuses in agreement if and only if it is harmless: no new subscription invoice, and the route sets paid for exactly the paid invoices, and sent or overdue only with a due date |
| Lifecycle.RunKeepsWellFormed | apps/backend/src/accounting/accounting-invoice.service.ts:231-308 | throughout a run issued, overdue and paid invoices have a due date and exactly the paid ones a payment date, if and only if every use of the status route is harmless and no subscription is billed |
| Lifecycle.StatusRouteBreaksDates | apps/backend/src/invoice/invoice.service.ts:420-436 | for every issued invoice the route can mark it paid without a payment date, for every paid one take it back to draft |
| Lifecycle.StepMovesForward | apps/backend/src/invoice/invoice.service.ts:420-436 | every invoice is left alone or rises in rank, if and only if the route sets the same status or one of higher rank |
| Lifecycle.RunMovesForward | apps/backend/src/invoice/invoice.service.ts:420-436 | every step of a run leaves each invoice alone or raises its rank, if and only if every use of the status route goes forward |
| Lifecycle.ChangesAreBounded | apps/backend/src/accounting/accounting-invoice.service.ts:231-308 | in every run in which the status route goes forward, an invoice changes at most three times, its rank rises with each change, and paid or cancelled invoices never change |
| Lifecycle.CheckedRunsAreSafe | apps/backend/src/accounting/accounting-invoice.service.ts:231-308 | every run without the status route is forward, and harmless when no subscription is billed |
| Pricing.BuildLineItems | apps/backend/src/invoice/invoice.service.ts:88-116 | every line is priced, and the invoice total is both subtotal plus tax and the sum of the line totals |
| Pricing.PricedOnFields | apps/backend/src/invoice/invoice.service.ts:94-109 | a line keeps name, quantity and price and takes its rate or the default; subtotal and tax are each the nearest whole kuruş |
| Pricing.TotalNearExact | apps/backend/src/invoice/invoice.service.ts:88-116 | the error of the invoice total against the exact price with tax is bounded line by line |
| Pricing.FallbackWithinOne | apps/backend/src/accounting/accounting-invoice.service.ts:479-483 | the total an ERP line recomputes never differs from the stored one by more than one kuruş |
| Pricing.FallbackAgrees | apps/backend/src/accounting/accounting-invoice.service.ts:479-483 | it equals the stored one if and only if no half-kuruş point lies between the exact price and the rounded subtotal, both with tax |
| Pricing.WholePricesAgree | apps/backend/src/invoice/invoice.service.ts:94-109 | for prices of whole kuruş both agree, and the line is the one the seed data computes |
| Pricing.FallbackMayDiffer | apps/backend/src/accounting/accounting-invoice.service.ts:479-483 | a price of 0.45 kuruş for which they differ |
| Tax.TotalsAddUp | apps/backend/prisma/seed.ts:385-395 | total is subtotal plus tax to the kuruş, and the tax is within half a kuruş per line of the exact tax |
| Tax.LineOnFields | apps/backend/prisma/seed.ts:385-395 | a stored line keeps what it is built from, and its tax is the nearest whole kuruş |
| Tax.InvoiceItemsToErpLines | apps/backend/src/accounting/accounting-invoice.service.ts:459-493 | the loop keeps exactly the rows that are lines, in order, with the default rate and the fallback total |
| Tax.ErpLineOnFields | apps/backend/src/accounting/accounting-invoice.service.ts:467-491 | a row is kept exactly with name, quantity and price; rate and total have their fallbacks, the total to the nearest kuruş |
| Tax.FallbackIsStoredTotal | apps/backend/src/accounting/accounting-invoice.service.ts:479-483 | for a stored line without its total the fallback computes the total that was stored |
| Tax.ErpAsksForInvoiceTotal | apps/backend/prisma/seed.ts:522-538 | the ERP lines of an invoice together ask for exactly the invoice total |
| Calendar.YearOfDay | apps/backend/src/admin/admin-stats.service.ts:35-49 | the year found by walking is the one whose days contain the given day |
| Calendar.MonthsTileTime | apps/backend/src/admin/admin-stats.service.ts:35-49 | the end of a month plus 1 ms is the next month's start; an instant lies in its own month if and only if its year is not one of 0 to 99 |
| Calendar.MonthLengths | apps/backend/src/admin/admin-stats.service.ts:35-43 | from start to end a month lasts 31 or 30 days, February 29 in years divisible by 4 but not 100, or by 400, else 28, outside the years 0 to 99 |
| Calendar.EpochIsJanuary1970 | apps/backend/src/admin/admin-stats.service.ts:35-37 | time zero is the start of January 1970 |
| Calendar.FieldsAdvance | apps/backend/src/admin/admin-stats.service.ts:39-43 | after the end of December comes January of the next year, after any other month the next one of its year |
| Calendar.OnlyOneMonth | apps/backend/src/admin/admin-stats.service.ts:35-43 | every instant lies in exactly one month, the one its fields name |
| Calendar.AddThenDiff | apps/backend/src/admin/admin-stats.service.ts:45-49 | the month difference to a date k months on is k, if and only if the year is not one of 0 to 99 |
| Calendar.AddedMonthsAreStarts | apps/backend/src/admin/admin-stats.service.ts:45-49 | adding months gives the first instant of a month; one more gives the first instant after that month, none the start of the month itself |
| Calendar.ShortYearsFail | apps/backend/src/admin/admin-stats.service.ts:35-49 | the first instant of the year 50 is outside its own month, and adding a month to it is not one month of difference |
| Calendar.MonthDiffIsDistance | apps/backend/src/admin/admin-stats.service.ts:504-509 | in all years the difference is zero exactly within the same month and positive exactly from the next month on |
| MonthKeys.ParseMonthKeyInverts | apps/backend/src/admin/admin-stats.service.ts:499-502 | parsing a printed key gives the start of the month if and only if the year is not negative |
| MonthKeys.NegativeYearDoesNotParse | apps/backend/src/admin/admin-stats.service.ts:499-502 | the key of the first month of the year -1 does not parse back |
| MonthKeys.SameKeyIsSameMonth | apps/backend/src/admin/admin-stats.service.ts:51-55 | in all years two instants have the same key if and only if they lie in the same month |
| MonthKeys.KeyText | apps/backend/src/admin/admin-stats.service.ts:51-55 | from 1000 to 9999 a key is the year in four digits, a hyphen and the month from 01 to 12 |
| MonthKeys.KeyOrderIsTimeOrder | apps/backend/src/admin/admin-stats.service.ts:51-55 | among years of equally many digits string order of keys is time order |
| MonthKeys.EarlierKeySortsFirst | apps/backend/src/admin/admin-stats.service.ts:51-55 | in all years the key of an earlier month sorts first if and only if the years are equal or their texts sort so |
| MonthKeys.KeysOfFourDigitYears | apps/backend/src/admin/admin-stats.service.ts:35-55 | the same from 1000 to 9999, against the order of month starts |
| MonthKeys.KeysSortInYears | apps/backend/src/admin/admin-stats.service.ts:51-55 | throughout a span of years from 0 on string order of keys is time order, if and only if its first and last year have equally many digits |
| MonthKeys.KeyOrderBreaks | apps/backend/src/admin/admin-stats.service.ts:51-55 | for every year after which a digit is added, its December does not sort before the next January |
| Cohorts.CollectActivity | apps/backend/src/admin/admin-stats.service.ts:265-285 | the filled map holds an organisation and a month exactly when a login or an order of that month is in the rows |
| Cohorts.GroupByMonth | apps/backend/src/admin/admin-stats.service.ts:287-293 | each month key maps to its organisations, in order, and only months with members are present |
| Cohorts.BuildRetention | apps/backend/src/admin/admin-stats.service.ts:301-325 | offsets run from 0 to the current month without gaps, each with the share counted from the rows |
| Cohorts.LoadCohortRetention | apps/backend/src/admin/admin-stats.service.ts:229-335 | the result lists exactly the months with members in key order, and every cell is the share counted from the whole tables |
| Cohorts.CohortsOnFields | apps/backend/src/admin/admin-stats.service.ts:229-335 | the cohort of a month counts the organisations created in it; cell k is the key k months on and the nearest tenth of a percent to the share of members with a login or order k months on, all of them in the first month |
| Cohorts.WindowOnFields | apps/backend/src/admin/admin-stats.service.ts:230-239 | the organisations are those created in the current month or the eleven before it |
| Cohorts.RowsDecideActivity | apps/backend/src/admin/admin-stats.service.ts:244-261 | restricting the queries to recent rows of the organisations loses no activity a cell can ask about |
| Cohorts.CohortsPartition | apps/backend/src/admin/admin-stats.service.ts:287-332 | every organisation is in exactly one cohort and the sizes add up to their number |
| Cohorts.RatesAreShares | apps/backend/src/admin/admin-stats.service.ts:301-325 | all rates lie between 0 and 100 percent and the joining month is always 100 |
| ServiceWorker.StepKeepsInv | apps/panel/public/sw.js:48-83 | every step of every handler keeps the provenance of all stored and held responses |
| ServiceWorker.ApiAnswersAreFresh | apps/panel/public/sw.js:68-83 | in every interleaving the answer is the network's reply to this request, or, after a failed fetch or write, an ok reply to the same request that arrived less than five minutes ago |
| ServiceWorker.ApiFallsBack | apps/panel/public/sw.js:68-83 | when the fetch or the write fails, networkFirstApi answers with the stored copy if it is less than five minutes old, and throws otherwise |
| ServiceWorker.ApiAsksNetwork | apps/panel/public/sw.js:68-71 | networkFirstApi asks the network first, whatever is stored |
| ServiceWorker.FreshnessOnFields | apps/panel/public/sw.js:29-36 | the age limits are five minutes for the API and seven days for the rest, and a copy without a time is never fresh |
| ServiceWorker.AssetAnswersAreGenuine | apps/panel/public/sw.js:48-66 | in every interleaving the answer is the network's reply or a copy of an ok reply to the same request, expired only after a failed fetch or write |
| ServiceWorker.FreshCopyAnswers | apps/panel/public/sw.js:48-55 | cacheFirst answers with a stored copy less than seven days old without asking the network, and asks it otherwise |
| ServiceWorker.AssetFallsBack | apps/panel/public/sw.js:54-65 | when the fetch fails, cacheFirst answers with the copy it found, and throws without one |
| ServiceWorker.ReplyIsAnsweredAndStored | apps/panel/public/sw.js:38-83 | an ok reply is answered and stored in the handler's cache with the time it arrived; any other is answered and not stored |
| ServiceWorker.InstallStores | apps/panel/public/sw.js:101-106 | installing stores ok replies in the shell cache and changes nothing else |
| ServiceWorker.FinishedHandlersRest | apps/panel/public/sw.js:48-83 | a handler that has answered or thrown does nothing more |
| ServiceWorker.ExpiredExactlyOnFailure | apps/panel/public/sw.js:48-66 | an answer of cacheFirst that is not the reply to its request is expired if and only if its fetch or write failed, and the network failed if and only if the write did not |
| ServiceWorker.FailedWriteServesCopy | apps/panel/public/sw.js:54-66 | in every run a cacheFirst handler whose write fails answers with the expired copy it holds, its network never having failed, and throws without one |
| ServiceWorker.OnlyOkIsStored | apps/panel/public/sw.js:38-83 | no handler ever stores a reply that was not ok, and outside the shell cache every copy carries a time not in the future |
| ServiceWorker.ThrowsOnlyOnFailure | apps/panel/public/sw.js:48-83 | a handler throws only if opening or reading the cache, its fetch or its write failed, fetch and write never both; for cacheFirst it is exactly one of the three |
| ServiceWorker.CacheFailureThrows | apps/panel/public/sw.js:49-83 | a handler whose access to the cache failed always throws and never answers |
| ServiceWorker.ExpiredCopyDespiteReply | apps/panel/public/sw.js:54-66 | a run in which the network answers every request and an expired copy is returned all the same |
| Login.AuthService.Incr | apps/backend/src/common/cache/cache.service.ts:72-87 | the counter and the count after INCR and a possible EXPIRE, either of which may be lost |
| Login.AuthService.HandleFailedLogin | apps/backend/src/auth/auth.service.ts:248-271 | the fifth failure sets the lock, every other one leaves it |
| Login.AuthService.HandleSuccessfulLogin | apps/backend/src/auth/auth.service.ts:244-246 | the counter is deleted if the command goes through |
| Login.AuthService.Login | apps/backend/src/auth/auth.service.ts:356-438 | counter, lock and answer after a login, over all its branches |
| Login.LoginOutcomes | apps/backend/src/auth/auth.service.ts:356-446 | for each of the seven answers, the exact condition on account, user, password and subscription |
| Login.LoginEffects | apps/backend/src/auth/auth.service.ts:413-429 | the right password deletes the failures; a completed login also takes the lock away, a request for the second factor keeps it; other refusals change nothing |
| Login.WrongPasswordEffects | apps/backend/src/auth/auth.service.ts:248-271 | count, expiry and lock after a wrong password: expiry 900 seconds after the first, lock for 15 minutes at the fifth |
| Login.AuthService.CompleteTwoFactorLogin | apps/backend/src/auth/auth.service.ts:448-500 | counter, lock and answer after the second factor |
| Login.TwoFactorOnFields | apps/backend/src/auth/auth.service.ts:448-500 | for each answer to a second factor, the exact condition and the effect |
| Login.CountryLockOnFields | apps/backend/src/security/anomaly-detection.service.ts:239-245 | logins from many countries lock for an hour and leave the counter |
| Login.StepKeepsInv | apps/backend/src/auth/auth.service.ts:244-500 | an operation keeps the counter within five, running out in time and covered by the lock at five, if and only if neither a first EXPIRE nor the DEL of a second-factor login at five failures is lost |
| Login.RunKeepsInv | apps/backend/src/auth/auth.service.ts:244-500 | the same holds before and after every operation of a run, if and only if none of them suffers one of these losses |
| Login.FullCounterMeansLocked | apps/backend/src/auth/auth.service.ts:248-397 | in every such run a live counter never passes five, and at five the account is locked as long as the counter lives |
| Login.FailureCounts | apps/backend/src/auth/auth.service.ts:248-271 | a failure counts one more, never past five, if and only if its INCR goes through; the lock is set exactly by the fifth; an uncounted failure changes nothing |
| Login.GuessRate | apps/backend/src/auth/auth.service.ts:244-397 | while nobody logs in, at most five attempts are answered with wrong credentials per window of 900 seconds, plus as many as lost their INCR, however they are spread |
| Login.LostIncrCountsNothing | apps/backend/src/common/cache/cache.service.ts:72-87 | without INCR any number of wrong passwords can be tried at one instant, leaving no counter and no lock |
| Login.RateNeedsIncr | apps/backend/src/common/cache/cache.service.ts:72-87 | five per window holds in every otherwise unharmed run if and only if the cache can never lose an INCR, or the user is suspended |
| Login.LostDeleteUnlocks | apps/backend/src/common/cache/cache.service.ts:59-69 | for every harmed second-factor login: the lock is gone and the next failure makes six without a lock |
| Login.LostExpireStays | apps/backend/src/common/cache/cache.service.ts:72-87 | five failures of which the first loses its EXPIRE leave a counter without an end |
| Login.NeverLocksAgain | apps/backend/src/auth/auth.service.ts:248-271 | from then on no run of failures locks the account, and each counted one makes the counter one more |
| Passwords.PasswordService.AssertNotReusedPassword | apps/backend/src/auth/password-policy.service.ts:146-168 | refuses exactly the current password and the remembered ones |
| Passwords.PasswordService.RecordPasswordChange | apps/backend/src/auth/password-policy.service.ts:170-191 | the replaced hash is remembered first and all but the five newest rows are deleted |
| Passwords.PasswordService.ChangePassword | apps/backend/src/auth/auth.service.ts:644-691 | the current hash, the remembered ones and the answer after a change |
| Passwords.PasswordService.ResetPassword | apps/backend/src/auth/auth.service.ts:608-642 | a reset replaces the current hash and leaves the history alone |
| Passwords.ChangeOutcomes | apps/backend/src/auth/auth.service.ts:644-691 | for each refusal of a change and for its success, the exact condition and the effect |
| Passwords.ResetOutcomes | apps/backend/src/auth/auth.service.ts:608-642 | a reset needs the policy alone, replaces the password and leaves the history |
| Passwords.HistoryIsLatestReplaced | apps/backend/src/auth/auth.service.ts:632-691 | with changes and resets in any order the history is the latest at most five hashes that changes replaced, newest first |
| Passwords.SevenInARowDiffer | apps/backend/src/auth/auth.service.ts:665-691 | in every run of changes any seven consecutive passwords are pairwise different |
| Passwords.ReuseIsRefused | apps/backend/src/auth/auth.service.ts:665-691 | with resets in between, a change is refused as a reuse if and only if it picks the current password or one of the latest five that changes replaced |
| Passwords.ResetMayRepeat | apps/backend/src/auth/auth.service.ts:608-642 | for any two passwords, a run of a reset and a change that returns to the first |
| Passwords.EighthMayRepeat | apps/backend/src/auth/password-policy.service.ts:146-191 | for any seven different passwords, a run in which the eighth is the first again |
| Sanitize.SecretsDoNotShow | apps/backend/src/audit/audit.service.ts:30-81 | values of any depth that differ only below redacted keys are logged alike |
| Sanitize.PathsSurvive | apps/backend/src/audit/audit.service.ts:53-81 | along every path through no secret key and no item past the twentieth the log holds what the value holds: scalars, texts of dates and others, the first twenty items, all keys in order; one level too deep, the truncation mark |
| Sanitize.SecretsAreMarked | apps/backend/src/audit/audit.service.ts:69-76 | a secret property on such a path is logged under its key as the redaction mark |
| Sanitize.SecretNames | apps/backend/src/audit/audit.service.ts:30-51 | exactly ten names are secret, in any case |
| Sanitize.ResultIsClean | apps/backend/src/audit/audit.service.ts:53-81 | every result holds plain values, arrays of at most twenty, only marks under redacted keys and below the fourth level |
| Sanitize.CleanIsUnchanged | apps/backend/src/audit/audit.service.ts:53-81 | exactly such values are logged as they are |
| Sanitize.SanitizeTwice | apps/backend/src/audit/audit.service.ts:53-81 | sanitising twice is sanitising once |
| Sanitize.ResultIsShallow | apps/backend/src/audit/audit.service.ts:53-81 | a result nests at most five containers |
| AdminAudit.AdminService.Suspend | apps/backend/src/admin/admin.service.ts:897-929 | tables, audit log and answer after suspending an organisation |
| AdminAudit.AdminService.Unsuspend | apps/backend/src/admin/admin.service.ts:931-962 | the same for lifting a suspension |
| AdminAudit.AdminService.Delete | apps/backend/src/admin/admin.service.ts:1815-1871 | the same for deleting an organisation, which also suspends it and deletes its users |
| AdminAudit.AdminService.SetPlan | apps/backend/src/admin/admin.service.ts:1063-1111 | the same for a plan change, whose row names the subscription |
| AdminAudit.AdminService.Configure | apps/backend/src/admin/admin.service.ts:823-895 | the same for internal accounts; enabling sets the plan, disabling leaves it |
| AdminAudit.AdminService.SetRole | apps/backend/src/admin/admin.service.ts:1572-1602 | the same for a role change |
| AdminAudit.AdminService.SuspendAccount | apps/backend/src/admin/admin.service.ts:1604-1631 | the same for suspending a user |
| AdminAudit.AdminService.UnsuspendAccount | apps/backend/src/admin/admin.service.ts:1633-1656 | the same for lifting a user's suspension |
| AdminAudit.SuspendOnFields | apps/backend/src/admin/admin.service.ts:897-929 | for each refusal of a suspension the exact condition, and all it changes and records |
| AdminAudit.UnsuspendOnFields | apps/backend/src/admin/admin.service.ts:931-962 | the same for lifting it |
| AdminAudit.DeleteOnFields | apps/backend/src/admin/admin.service.ts:1815-1871 | the same for a deletion: the three kinds it spares, and exactly the live members it deletes and counts |
| AdminAudit.ChangePlanOnFields | apps/backend/src/admin/admin.service.ts:1063-1111 | the same for a plan change |
| AdminAudit.ConfigureOnFields | apps/backend/src/admin/admin.service.ts:823-895 | the same for internal accounts: the plan asked for, or the corporate one, and none when switched off |
| AdminAudit.ChangeRoleOnFields | apps/backend/src/admin/admin.service.ts:1572-1602 | the same for a role change |
| AdminAudit.UserSuspensionOnFields | apps/backend/src/admin/admin.service.ts:1604-1656 | the same for suspending users and lifting it |
| AdminAudit.StepIsItsRow | apps/backend/src/admin/admin.service.ts:823-1871 | an action writes at most one row, true of the tables it found, and replaying that row is what the action did |
| AdminAudit.LogRebuildsState | apps/backend/src/admin/admin.service.ts:823-1871 | over every run of these actions, deletion included, replaying the rows rebuilds organisations, plans and users, and every recorded previous plan or role and number of deleted users is the replayed one at that point |
| AdminAudit.SuspensionsAlternate | apps/backend/src/admin/admin.service.ts:897-1871 | in every run of these actions neighbouring suspension rows of one organisation or user are of opposite kinds, although deletion also suspends |
| AdminAudit.SuperAdminsAreFixed | apps/backend/src/admin/admin.service.ts:1572-1656 | no run of these actions makes, unmakes or suspends a super admin |
| Analytics.SafeLimit | apps/backend/src/analytics/analytics.service.ts:392-392 | the limit used is 10 without one, or else the number from 1 to 50 nearest to it |
| Analytics.GetTopProducts | apps/backend/src/analytics/analytics.service.ts:412-449 | the map-filling loop, sort and slice return the first rows of the sorted table of all barcodes |
| Analytics.GroupingConserves | apps/backend/src/analytics/analytics.service.ts:422-436 | summing any measure per key over all keys is summing it over the elements |
| Analytics.ProductsConserve | apps/backend/src/analytics/analytics.service.ts:422-445 | before the cut quantities, revenues and line counts add up to those of the items |
| Analytics.TopProductsMeaning | apps/backend/src/analytics/analytics.service.ts:438-449 | the list is sorted, has one row per barcode and min(limit, barcodes) rows, each with its true totals, and leaves out no barcode that sold more than one shown |
| Analytics.StatsOnFields | apps/backend/src/analytics/analytics.service.ts:422-436 | quantity, revenue and lines of a barcode, read off the items |
| Analytics.NameOnFields | apps/backend/src/analytics/analytics.service.ts:423-434 | a product has its first name that is not blank, or else what its first item holds |
| Analytics.TiesKeepOrder | apps/backend/src/analytics/analytics.service.ts:438-446 | products of equal quantity keep the order of the table |
| Analytics.KeysInOrder | apps/backend/src/analytics/analytics.service.ts:422-439 | keys of a table come in the order in which they first appear |
| Insights.TallyOrders | apps/backend/src/analytics/analytics.service.ts:281-295 | the loop fills both maps with the true counts and revenues per customer and per city |
| Insights.GetCustomerInsights | apps/backend/src/analytics/analytics.service.ts:281-331 | customers, repeat customers, rate, average and top cities as counted from the orders |
| Insights.CustomersOnFields | apps/backend/src/analytics/analytics.service.ts:297-303 | customers are counted once each, and a repeat customer is one with orders at two different places |
| Insights.SameCustomerOnFields | apps/backend/src/analytics/analytics.service.ts:75-81 | two orders are of one customer exactly with the same non-blank phone, or without any and with the same name without case |
| Insights.CityOnFields | apps/backend/src/analytics/analytics.service.ts:60-73 | the city is the last non-blank part of an address with two of them, else the line, cut at forty characters |
| Insights.CityStatsOnFields | apps/backend/src/analytics/analytics.service.ts:285-295 | orders and revenue of a city, and the whole revenue, read off the orders |
| Insights.CitiesConserve | apps/backend/src/analytics/analytics.service.ts:290-319 | city counts and revenues add up to the orders and their revenue |
| Insights.TopCitiesMeaning | apps/backend/src/analytics/analytics.service.ts:314-321 | the at most fifteen rows are different cities with their true totals, sorted, and no city left out has more orders |
| Insights.CustomersNeedOrders | apps/backend/src/analytics/analytics.service.ts:297-308 | customers plus repeat customers never exceed the orders, and the rate is a share |
| Insights.FetchCategoryStats | apps/backend/src/analytics/analytics.service.ts:782-805 | each category has the revenue and line count of its items and is named after its first item |
| Insights.CategoryOnFields | apps/backend/src/analytics/analytics.service.ts:782-799 | the last product of the barcode gives key, name and id of the category, each with its fallback |
| Insights.UnknownProductOnFields | apps/backend/src/analytics/analytics.service.ts:790-799 | an item without a product is uncategorised |
| Insights.CategoryTotalsOnFields | apps/backend/src/analytics/analytics.service.ts:800-802 | revenue and lines of a category, read off the items |
| Insights.CategoriesConserve | apps/backend/src/analytics/analytics.service.ts:784-805 | category revenues and line counts add up to those of the items, whatever the product table says |

## Left out

- Invoices.InvoiceTable.Create: does not model invoice numbers, the check of a linked order, or the computation of the
  total from the items, which `Pricing.BuildLineItems` covers; the draft arrives with its total.
- Invoices.InvoiceTable.CreateFromSubscriptionPayment: the invoice arrives with its number, line and amounts.
- Customers.GetBalanceSummary: the customers are a parameter, because which of them the query selects (those with an
  e-mail, or those asked for) does not enter the arithmetic.
- Ledger.FetchOnceFilterEach: assumes that lower-casing in the database and in JavaScript is one function that neither
  makes a text blank nor moves white space at its ends; the wildcards of an insensitive comparison are not modelled.
- Cohorts.LoadCohortRetention: assumes a clock in the years 1001 to 9999, where string order of month keys is time
  order; `localeCompare` on such keys is string order. The organisations are those the query counts as customers.
- Passwords.PasswordService.ChangePassword: assumes that history rows are created at strictly later times.
- Login.StepKeepsInv: logins of one user run one after another; overlapping logins are not modelled.
- Overlapping requests elsewhere: invoice, password and administrative actions are runs of whole operations, and
  transactions are all-or-nothing. Only the service worker is modelled with interleaving.
- Invoices created from an order: a new draft if the order has none yet, otherwise nothing, so runs hold them as
  drafts.
- Status labels for display (sent shown as issued), links between invoices and orders, invoice numbers.
- Local time zones and daylight saving: the due date of an issued invoice is seven times 24 hours later, the lock ends
  15 times 60 seconds later, and formatted dates of the exports are given texts. Entries are ordered by instant, which
  is the order of their ISO texts in the years 0 to 9999.
- The largest and smallest time value of a `Date`, and invalid dates.
- Floating point and the printing of amounts with two decimals: amounts are whole kuruş and rates tenths of a percent;
  amounts in different currencies are added as the code adds them.
- Rows with equal creation times: the database may return them in any order, the model keeps table order.
- The display labels of audit actions and resources in the activity export: they are given texts.
- RFC 4180 asks for CRLF between records; the printer writes LF, and the reader here accepts both.
- UTF-16: characters are Unicode scalar values, so a lone surrogate cannot occur in a cell.
- Hashing and tokens: a hash matches only its own password, a second-factor code is right or wrong, the policy accepts
  a new password or not. Sessions, e-mails, notifications and events are not modelled.
- Other writers of the same columns: role changes and transfers of ownership by the members of an organisation, plan
  changes by billing and trials, and the acceptance of an invitation, which replaces a password without a history row.
  Runs of `AdminAudit` and `Passwords` hold only the operations listed above; a user's password and flags stay fixed
  through a run of `Login`.
- Cyclic values, symbols and integer-like or `__proto__` keys in logged values.
- The actor, reason and time of audit rows, plan limits and billing dates, and all other administrative actions.
- Routing of requests to the two caching strategies, the navigation fallback, and the removal of old caches, which
  counts as eviction here.
- Revenue trends, VAT summaries and other single aggregate queries: each is one sum over a filtered table, with no
  state and no interplay with the operations above.
- Controllers, guards and user interface: they route requests to the operations above and decide who may call them.
