# Bookkeeping core of a Django ledger application, in Dafny

This project models the computational core of a small double-entry
bookkeeping application and proves properties of that model. The
application records journal entries (仕訳): each entry has a date, an entry
type, an optional company and fiscal period, debit lines and credit lines.
From the entries it derives:

- **Cash book (現金出納帳).** A monthly roll-forward for one account. It
  starts with a 前月繰越 row holding the opening balance plus every posting
  from the anchor date to the previous month end. Then comes one row per
  entry of the month that touches the account, in (date, pk) order, each
  with income, expense and running balance. It ends with a 次月繰越 row.
  An unknown account name produces an error result.
- **Adjustment reference figures (決算整理).** These cover:
  - the depreciation of every active fixed asset acquired by the end of the
    fiscal period, prorated by the months of use inside the period and
    rounded to cents, half to even;
  - the allowance for doubtful accounts (貸倒引当金): 2 % of the positive
    receivable balances (売掛金, 受取手形, 未収入金), compared with the
    allowance account's balance;
  - the signed balance of any account as of a date.
- **Financial statements.** Trial balance, balance sheet and profit and
  loss share one pipeline:
  - it builds statement entries from the account totals;
  - it splits them into debit-side and credit-side lists by account type;
  - it sums each side and transposes the two sides into rows;
  - it lays the rows out for a spreadsheet.

  The balance sheet reports the debit/credit gap as 繰越利益剰余金
  (`rebf`) or 繰越欠損金 (`debfb`). The profit and loss statement reports
  net income or net loss.
- **Purchase book (仕入帳).** Every entry of a month that posts to 仕入.
  Each becomes a purchase or a return line with its counter account,
  company and items. The book also totals purchases and returns and flags an
  entry whose item total differs from its amount.
- **Entry posting.** The decision logic of the journal-entry form:
  - formset validity;
  - the fixed-asset registration flag;
  - the debit/credit balance check with its error message;
  - the atomic save;
  - stamping the registered fixed asset with the entry and its acquisition
    cost.

  The adjustment-entry form works the same way and places the entry at the
  fiscal period's end date.

Amounts are integer cents (the source's `DecimalField(decimal_places=2)`).
Quotients that the source computes as `Decimal` are exact rationals
(`Money.Ratio`), rounded by `Money.RoundHalfEven`. Dates are
`Dates.Date(year, month, day)`, ordered lexicographically. The database is
a sequence of entries, and a query is a filter over that sequence. An
`order_by` is a stable insertion sort over a total preorder
(`Sorting.Sort`). The request, the ORM, templates and spreadsheet writing
are parameters or are left out (see below).

Modules follow the source files:

| module | file | models |
|---|---|---|
| `Wrappers`, `Numerals`, `Money`, `Dates`, `Sorting` | `wrappers.dfy` … `sorting.dfy` | options, decimal rendering of ids, Decimal quantize, calendar arithmetic, order_by and Sum |
| `Ledger` | `ledger.dfy` | models.py accounts, entries and lines; the signed-balance rule; account lookup by name |
| `CashBook` | `cashbook.dfy` | services.py |
| `Adjustment` | `adjustment.dfy` | services_temp/adjustment_calculator.py |
| `Statements` | `statements.dfy` | views/financial_statement.py |
| `PurchaseBook` | `purchasebook.dfy` | views/purchasebook.py |
| `Posting` | `posting.dfy` | views/views.py `JournalEntryFormMixin.form_valid`, views/adjustment_entry.py |

The model follows the code as written, with the differences listed under
"## Left out". The main one is that the purchase book is built on the
corrected month query described under "## Findings", not on the query as
written (which is modelled separately). Two behaviours of the code that a
reader may not expect are kept:

- The cash book's InitialBalance is the first one for the account, and its
  start date is the anchor for the brought-forward sums. Without one, the
  anchor is 1 January of the requested year.
- A journal entry whose asset cost is not positive is rejected with an
  error, but the entry and its lines were already saved inside the
  transaction (the view returns instead of raising). This is
  `Posting.Outcome.SavedAssetRejected`.

## Model

| member | source | states |
|---|---|---|
| Ledger.SignedBalance | src/sample/ledger/services_temp/adjustment_calculator.py:302-309 | asset and expense accounts take debits minus credits, the other types credits minus debits; the balance is zero exactly when the two totals are equal |
| Ledger.LinesTotalFor | src/sample/ledger/services.py:146-151 | the amount an entry posts to an account on one side is zero when the side has no line for it, and positive exactly when it has one, given positive amounts |
| Ledger.LinesTotalForAll | src/sample/ledger/services.py:146-151 | when every line is on the account, the account's amount is the side's total |
| Ledger.FindAccount | src/sample/ledger/services.py:44-51 | the lookup by name fails exactly when no account has that name, and otherwise returns an account of the chart with that name |
| Ledger.SortByDatePk | src/sample/ledger/services.py:132 | ordering by (date, pk) gives a permutation of the entries that is sorted by that key |
| Ledger.EntryOrderIsTotalPreorder | src/sample/ledger/services.py:132 | the (date, pk) order is total and transitive, so it is a valid sort key |
| Ledger.ScopedBalanceSnoc | src/sample/ledger/services_temp/adjustment_calculator.py:282-309 | the signed balance over no entries is 0, and one more entry adds its own signed lines on the account when it is in scope and nothing otherwise |
| Ledger.TieOut | src/sample/ledger/views/financial_statement.py:297-299 | in a ledger of balanced entries whose accounts are all in the chart, the debit-normal accounts' balances sum to the credit-normal accounts' balances, in any scope |
| Ledger.TotalsAppend | src/sample/ledger/services_temp/adjustment_calculator.py:282-299 | adding one entry changes an account's debit and credit totals by that entry's lines on the account when it is in scope, and not at all otherwise |
| CashBook.FindInitialBalance | src/sample/ledger/services.py:62 | `.first()`: none exactly when no InitialBalance is for the account, otherwise the earliest one for the account |
| CashBook.GetInitialBalance | src/sample/ledger/services.py:9-17 | zero when no InitialBalance exists for the account, otherwise the balance of one that does |
| CashBook.OpeningAnchor | src/sample/ledger/services.py:62-71 | the opening balance and start date come from the InitialBalance when there is one, otherwise they are 0 and 1 January of the requested year |
| CashBook.MonthEntries | src/sample/ledger/services.py:121-133 | the month query gives exactly the entries of the month that touch the account (as a multiset), ordered by (date, pk) |
| CashBook.MonthEntriesMembers | src/sample/ledger/services.py:125-131 | an entry is listed exactly when it is in the ledger, touches the account and is dated inside the month |
| CashBook.FirstOtherName | src/sample/ledger/services.py:157-159 | the counter-account name is absent exactly when every line of the other side is on the target account, and otherwise is the name of the first line that is not |
| CashBook.EntryRow | src/sample/ledger/services.py:136-173 | a row with a debit line on the account is income of the debit amount; any other row is expense of the credit amount; the balance moves by income minus expense |
| CashBook.RunRowsFields | src/sample/ledger/services.py:136-173 | row i carries entry i's date and summary, and its income or expense as the debit branch or the credit branch decides |
| CashBook.RunRowsBalance | src/sample/ledger/services.py:153-172 | each row's balance is the opening balance plus the net of all rows up to and including it |
| CashBook.RunRowsNet | src/sample/ledger/services.py:149-165 | the rows' net is the sum of the entries' row deltas |
| CashBook.RunRowsLast | src/sample/ledger/services.py:172-176 | the last row's balance is the opening balance plus the net of every row |
| CashBook.CalculateMonthlyBalance | src/sample/ledger/services.py:44-189 | for any month, an unknown account gives no rows, ending balance 0 and the not-found error; otherwise there are two more rows than month entries: 前月繰越 on the first of the month with the brought-forward balance, one row per entry, then 次月繰越 on the month end with the ending balance as expense; the ending balance is the brought-forward balance plus the rows' net |
| CashBook.CashBookRow | src/sample/ledger/services.py:136-173 | row i + 1 of the result is the row of the i-th month entry, and its balance is the brought-forward balance plus the net of the rows so far |
| CashBook.SingleEntryMonth | src/sample/ledger/services.py:125-133 | a ledger of one entry that touches the account inside the month lists exactly that entry |
| CashBook.RowDeltaIsMovement | src/sample/ledger/services.py:149-165 | for an entry that posts the account on one side only, the row's delta is the entry's debit-minus-credit movement on it |
| CashBook.SumRowDeltaIsMovement | src/sample/ledger/services.py:149-165 | for entries that each post the account on one side only, the row deltas sum to the movements |
| CashBook.FilterMovementIsMonthNet | src/sample/ledger/services.py:125-131 | the month entries' movements add up to the account's net over the month |
| CashBook.SplitAtMonth | src/sample/ledger/services.py:79-106 | from an anchor on or before the first of the month, the net up to the month end is the net up to the previous month end plus the month's net |
| CashBook.MonthRowsNetIsMonthNet | src/sample/ledger/services.py:136-176 | when no entry of the month posts the account on both sides, the month's rows net to the account's net over the month |
| CashBook.MonthContinuity | src/sample/ledger/services.py:79-189 | month m's ending balance is month m + 1's brought-forward balance, when the anchor does not move between them (an InitialBalance starting on or before the month, or no December) and no entry of the month posts the account on both sides |
| CashBook.TwoSidedEntryBreaksContinuity | src/sample/ledger/services.py:149-165 | an entry with 現金 100 on the debit side and 現金 30 on the credit side ends April at 100 but brings May forward at 70 |
| CashBook.YearEndResetsWithoutInitialBalance | src/sample/ledger/services.py:68-71 | without an InitialBalance a December receipt of 100 ends December at 100, but January of the next year is brought forward at 0 |
| Adjustment.MonthsInPeriod | src/sample/ledger/services_temp/adjustment_calculator.py:235-264 | the months of use never exceed the period's months; an asset acquired on or before the period start uses all of them; one acquired inside the period counts from its acquisition month to the end month inclusive |
| Adjustment.MonthsInPeriodIgnoresDay | src/sample/ledger/services_temp/adjustment_calculator.py:249-255 | two acquisition dates in the same month give the same months of use |
| Adjustment.MonthsInPeriodPositive | src/sample/ledger/services_temp/adjustment_calculator.py:249-264 | an asset acquired by the period end in a well-formed period has at least one month of use |
| Adjustment.AssetOrderIsTotalPreorder | src/sample/ledger/services_temp/adjustment_calculator.py:72 | ordering by asset number is a total preorder |
| Adjustment.ListedAssets | src/sample/ledger/services_temp/adjustment_calculator.py:65-72 | the listed assets are exactly the active ones acquired by the period end (and of the company, when one is given), sorted by asset number, each as often as it occurs among the assets |
| Adjustment.FindHistory | src/sample/ledger/services_temp/adjustment_calculator.py:80-82 | the existing history is absent exactly when no record matches the asset and the period; otherwise it is a matching record |
| Adjustment.FindHistoryAppend | src/sample/ledger/services_temp/adjustment_calculator.py:80-82 | adding records keeps an existing match, and when there is none the added records decide |
| Adjustment.ProRata | src/sample/ledger/services_temp/adjustment_calculator.py:88-103 | the prorated amount is within half a cent of annual × months ÷ 12 |
| Adjustment.ProRataNearestEven | src/sample/ledger/services_temp/adjustment_calculator.py:88-103 | any cent amount within half a cent of annual × months ÷ 12, and even on an exact half, is the prorated amount |
| Adjustment.AssetRow | src/sample/ledger/services_temp/adjustment_calculator.py:78-140 | already recorded exactly when a history exists, whose amount is then used with the accumulated depreciation unchanged; otherwise the prorated amount is added to it; book value plus accumulated depreciation is the acquisition cost |
| Adjustment.RecordingIsIdempotent | src/sample/ledger/services_temp/adjustment_calculator.py:96-119 | after recording the computed amount as history and in the accumulated depreciation, the row is marked recorded and shows the same amount, accumulated figure and book value |
| Adjustment.AssetRows | src/sample/ledger/services_temp/adjustment_calculator.py:78-140 | one row per listed asset, in order |
| Adjustment.SummarizeRows | src/sample/ledger/services_temp/adjustment_calculator.py:74-104 | the loop's total is the sum of the rows' current-period amounts, and the unrecorded flag is set exactly when some row is not already recorded |
| Adjustment.CalculateDepreciation | src/sample/ledger/services_temp/adjustment_calculator.py:28-148 | one row per listed asset in asset-number order; the total is the sum of the rows' current-period amounts; unrecorded assets exist exactly when some row is not already recorded |
| Adjustment.AccountBalanceAppend | src/sample/ledger/services_temp/adjustment_calculator.py:267-309 | the as-of balance over no entries is 0, and an entry dated on or before the as-of date, of the requested company when one is given, adds its signed lines on the account |
| Adjustment.AccountBalanceIgnoresOutOfScope | src/sample/ledger/services_temp/adjustment_calculator.py:282-299 | an entry dated after the as-of date, or of another company when one is given, does not change the balance |
| Adjustment.AccountBalancesTieOut | src/sample/ledger/services_temp/adjustment_calculator.py:267-309 | over balanced entries, the balances of the debit-normal accounts sum to those of the credit-normal accounts |
| Adjustment.PositiveBalances | src/sample/ledger/services_temp/adjustment_calculator.py:188-201 | no more rows than receivable accounts, each with a positive balance |
| Adjustment.PositiveBalancesSound | src/sample/ledger/services_temp/adjustment_calculator.py:188-201 | every listed row is the name and as-of balance of one of the receivable accounts |
| Adjustment.PositiveBalancesComplete | src/sample/ledger/services_temp/adjustment_calculator.py:188-201 | every receivable account with a positive balance is listed with its name and balance |
| Adjustment.PositiveBalancesSingle | src/sample/ledger/services_temp/adjustment_calculator.py:194-201 | one account gives exactly its row when its balance is positive, and nothing otherwise |
| Adjustment.PositiveBalancesConcat | src/sample/ledger/services_temp/adjustment_calculator.py:194-201 | the rows of two account lists in sequence are the first list's rows followed by the second's, so the rows keep the accounts' order |
| Adjustment.TotalIsPositivePart | src/sample/ledger/services_temp/adjustment_calculator.py:188-201 | the total receivables is the sum over the receivable accounts of the positive part of their balances |
| Adjustment.SumOfPositiveNonNegative | src/sample/ledger/services_temp/adjustment_calculator.py:194-201 | the total receivables is never negative |
| Adjustment.PreviousAllowance | src/sample/ledger/services_temp/adjustment_calculator.py:212-218 | the previous allowance is the 貸倒引当金 balance, or 0 when that account does not exist |
| Adjustment.CalculateAllowance | src/sample/ledger/services_temp/adjustment_calculator.py:151-232 | the receivables are the positive-balance 売掛金/受取手形/未収入金 asset accounts; the required allowance is within half a cent of 2 % of their total, and even on an exact half (ROUND_HALF_EVEN); the entry amount is the absolute difference from the previous allowance, a reversal exactly when the required amount is smaller |
| Adjustment.PostingAllowanceReachesRequired | src/sample/ledger/services_temp/adjustment_calculator.py:221-231 | posting the entry amount to 貸倒引当金 (credit for a provision, debit for a reversal) at the period end brings its balance to the required allowance |
| Adjustment.GetAllAdjustmentInfo | src/sample/ledger/services_temp/adjustment_calculator.py:312-338 | the reference information holds the period; one depreciation row per listed asset, their total and the unrecorded flag; and exactly the allowance summary of `calculate_allowance` for the same period and company |
| Statements.StatementTypesPartition | src/sample/ledger/views/financial_statement.py:297-366 | for each statement no account type is on both sides, the statement's types are exactly the two sides together, the trial balance covers every type, and its debit side is the debit-normal types |
| Statements.CreateEntries | src/sample/ledger/views/financial_statement.py:170-188 | one entry per account total, carrying the account's name, type and total |
| Statements.OnSide | src/sample/ledger/views/financial_statement.py:124-125 | a side lists exactly the entries whose type is in the side's types |
| Statements.OnSideDistributes | src/sample/ledger/views/financial_statement.py:124-125 | selecting a side commutes with concatenation, so the selection keeps the entries' order |
| Statements.SplitByType | src/sample/ledger/views/financial_statement.py:113-126 | every debit-list entry has a debit type and every credit-list entry a credit type, and every entry of a debit type is in the debit list and of a credit type in the credit list |
| Statements.TrialBalanceSplitPartitions | src/sample/ledger/views/financial_statement.py:113-126 | for the trial balance the two lists together have every entry exactly once, so their totals add up to the grand total |
| Statements.SideTotals | src/sample/ledger/views/financial_statement.py:152-168 | each side's total is the sum of its entries' totals (so an empty side totals zero) |
| Statements.TransposeColumns | src/sample/ledger/views/financial_statement.py:128-150 | there are as many rows as the longer side, and row i holds the i-th entry of each side, or None past its end |
| Statements.TransposeRecoversColumns | src/sample/ledger/views/financial_statement.py:142-150 | dropping the None fill from each column of the transposed rows gives back the debit list and the credit list |
| Statements.XlsxRows | src/sample/ledger/views/financial_statement.py:248-269 | one row per entry plus a 合計 row; a debit-type entry has its total in the first column, any other in the third; the last row holds the two side totals |
| Statements.EntryRows | src/sample/ledger/views/financial_statement.py:259-263 | the entry rows are the rows of the entries, in order |
| Statements.XlsxColumnsMatchSides | src/sample/ledger/views/financial_statement.py:248-269 | when every entry is of the statement's types, the first spreadsheet column sums to the debit side's total and the third to the credit side's |
| Statements.ColumnMatchesSide | src/sample/ledger/views/financial_statement.py:259-263 | one spreadsheet column sums to the total of its side |
| Statements.SideSumCons | src/sample/ledger/views/financial_statement.py:124-125 | the first entry adds its total to a side's sum exactly when its type is on that side |
| Statements.CellOfColumn | src/sample/ledger/views/financial_statement.py:260-263 | an entry's cell in a side's column holds its total exactly when its type is on that side |
| Statements.GetData | src/sample/ledger/views/financial_statement.py:54-80 | the data's entries are the statement entries built from the account totals, the two sides are selected from them by type, and each side's total is the sum of that side |
| Statements.NetIncomeOrLoss | src/sample/ledger/views/financial_statement.py:389-407 | net income and net loss are non-negative, at most one is non-zero, and income minus loss is revenue minus expense |
| Statements.NetIncomeOrLossUnique | src/sample/ledger/views/financial_statement.py:389-407 | any non-negative pair with at most one non-zero whose difference is revenue minus expense is the computed pair |
| Statements.NetContext | src/sample/ledger/views/financial_statement.py:409-428 | net income is shown exactly when revenue exceeds expense, net loss exactly when expense exceeds revenue, each as the difference |
| Statements.ProfitAndLossContextOf | src/sample/ledger/views/financial_statement.py:368-387 | expenses are the debit side and revenues the credit side; net income appears exactly when credits exceed debits, as credits minus debits; net loss exactly when debits exceed credits, as debits minus credits |
| Statements.BalanceSheetContextOf | src/sample/ledger/views/financial_statement.py:339-357 | exactly one of `rebf` and `debfb` is set; `rebf` is the positive excess of debits over credits and appears exactly when there is one; otherwise `debfb` is the non-negative excess of credits |
| Statements.LedgerTotals | src/sample/ledger/views/financial_statement.py:63-66 | no more rows than chart accounts |
| Statements.LedgerTotalsRows | src/sample/ledger/views/financial_statement.py:63-66 | each row is for a chart account of the statement's types and holds its signed balance over the range |
| Statements.LedgerTotalsCovers | src/sample/ledger/views/financial_statement.py:63-66 | every chart account of the statement's types has a row |
| Statements.SideSumIsKindsTotal | src/sample/ledger/views/financial_statement.py:63-72 | a side's total is the sum of the balances of the chart's accounts of that side's types |
| Statements.KindsTotalSplit | src/sample/ledger/views/financial_statement.py:166-167 | the balance total over two disjoint type lists is the sum of the two totals |
| Statements.SideTotalsAreKindsTotals | src/sample/ledger/views/financial_statement.py:297-299 | the debit-normal balances are the asset and expense totals, the credit-normal ones the liability, equity and revenue totals |
| Statements.TrialBalanceTiesOut | src/sample/ledger/views/financial_statement.py:289-299 | over balanced entries in the chart, the trial balance's debit total equals its credit total |
| Statements.BalanceSheetGapIsProfit | src/sample/ledger/views/financial_statement.py:335-366 | over balanced entries, the balance sheet's debit-minus-credit gap equals the profit and loss statement's revenue minus expense |
| Statements.BalanceSheetDifferenceIsNetResult | src/sample/ledger/views/financial_statement.py:349-357 | over balanced entries, the balance sheet's `rebf` is the profit and loss statement's net income, and its `debfb` is the net loss, or 0 |
| Statements.ContextsAgree | src/sample/ledger/views/financial_statement.py:354-357 | whenever the balance-sheet gap is the profit, `rebf` and net income agree and `debfb` is the net loss or 0 |
| PurchaseBook.MismatchMessageNamesEntry | src/sample/ledger/views/purchasebook.py:192-194 | the mismatch message names the entry: different entries give different messages |
| PurchaseBook.PurchaseJournals | src/sample/ledger/views/purchasebook.py:74-88 | the corrected query lists exactly the entries of the month that post to 仕入 on either side, each as often as it occurs in the ledger (once, for a ledger without repeats), ordered by date |
| PurchaseBook.PurchaseJournalsAsWritten | src/sample/ledger/views/purchasebook.py:74-88 | the query without `.distinct()` lists each entry of the month that posts to 仕入 once per joined debit/credit row pair of each occurrence, and nothing else, ordered by date |
| PurchaseBook.Items | src/sample/ledger/views/purchasebook.py:172-182 | one item per detail, with its quantity and unit price, named 不明商品 when it has no item |
| PurchaseBook.EntryAmount | src/sample/ledger/views/purchasebook.py:109-130 | the amount is the 仕入 debit total of a purchase, or the 仕入 credit total of a return |
| PurchaseBook.BookRow | src/sample/ledger/views/purchasebook.py:101-169 | a return exactly when 仕入 is not on the debit side; the counter account is the first line of the other side (不明 when empty); the company is 不明 when absent |
| PurchaseBook.RunBook | src/sample/ledger/views/purchasebook.py:99-197 | the loop adds at most one line per entry |
| PurchaseBook.StepFields | src/sample/ledger/views/purchasebook.py:131-197 | one iteration skips an entry without 仕入, adds the entry's line otherwise, and sets the mismatch error for a mismatching entry |
| PurchaseBook.RunBookLastRow | src/sample/ledger/views/purchasebook.py:197 | the last entry's line is appended after the earlier lines |
| PurchaseBook.RunBookLastTotals | src/sample/ledger/views/purchasebook.py:119-130 | the last entry adds its purchase amount and its return amount to the totals |
| PurchaseBook.RunBookTotals | src/sample/ledger/views/purchasebook.py:92-130 | the total purchase and total returns are the sums of the entries' purchase and return amounts |
| PurchaseBook.RunBookError | src/sample/ledger/views/purchasebook.py:186-194 | the error is the message of the last mismatching entry, and absent when none mismatches |
| PurchaseBook.ErrorFor | src/sample/ledger/views/purchasebook.py:186-194 | absent exactly when no entry mismatches; otherwise it names the last mismatching entry |
| PurchaseBook.RunBookRows | src/sample/ledger/views/purchasebook.py:99-197 | for entries that all post to 仕入, line i is entry i's book line |
| PurchaseBook.PurchaseBookContext | src/sample/ledger/views/purchasebook.py:44-215 | without a 仕入 account the context holds only the missing-account error; with one it holds a book, built on the corrected query of "## Findings", whose net purchase is total purchase minus total returns |
| PurchaseBook.QueryTotals | src/sample/ledger/views/purchasebook.py:74-130 | the totals over the query equal the totals of the month's purchases and returns over the whole ledger |
| PurchaseBook.PurchaseBookTotals | src/sample/ledger/views/purchasebook.py:74-213 | the book's total purchase and total returns are the month's 仕入 debits and credits-only amounts over the whole ledger, and there is an error exactly when some entry of the month mismatches |
| PurchaseBook.MonthPropertyInQuery | src/sample/ledger/views/purchasebook.py:74-88 | a property of entries that post to 仕入 holds for some listed entry exactly when it holds for some entry of the month |
| PurchaseBook.PurchaseBookRows | src/sample/ledger/views/purchasebook.py:99-197 | the book has one line per listed entry, in query order |
| PurchaseBook.DuplicateRowsDoublePurchases | src/sample/ledger/views/purchasebook.py:74-88 | an entry with one 仕入 debit of 10000 and two credit lines is listed twice by the query as written, so total purchase is 20000 instead of 10000 |
| PurchaseBook.JoinMultiplicitySingleLines | src/sample/ledger/views/purchasebook.py:74-88 | an entry with at most one debit and one credit line is listed once by the query as written |
| Posting.AssetCostMessageNamesAccount | src/sample/ledger/views/views.py:232-235 | the fixed-asset error message names the account: different accounts give different messages |
| Posting.WithLines | src/sample/ledger/views/views.py:208-214 | the saved entry keeps every header field (key, date, summary, entry type, company, fiscal period, purchase details) and carries exactly the formsets' lines |
| Posting.PostJournalEntry | src/sample/ledger/views/views.py:165-241 | rejected exactly when a formset is invalid, the asset form is invalid under the registration flag, or the totals differ (only then with the balance message); a saved entry has the submitted lines and is balanced; an asset is registered exactly when the flag is set and its cost is positive; a flagged entry with non-positive cost stays saved but is rejected with the message that names the asset's account |
| Posting.UnbalancedMessageIffOnlyTotalsFail | src/sample/ledger/views/views.py:186-205 | the balance error is reported exactly when the formsets and asset form are valid and the debit and credit totals differ |
| Posting.RegisteredAssetStamps | src/sample/ledger/views/views.py:219-239 | a registered asset gets the entry, the entry's date and the entry's debit total on the asset account as acquisition cost, and otherwise is the submitted asset |
| Posting.LinesTotalForAppend | src/sample/ledger/views/views.py:227-228 | summing an account's lines over two lists of lines is the sum of the two sums |
| Posting.AcquisitionCostIgnoresOtherLines | src/sample/ledger/views/views.py:225-228 | debit lines on other accounts and any credit lines do not change the acquisition cost |
| Posting.AssetSavedIffDebitOnAssetAccount | src/sample/ledger/views/views.py:225-239 | with the flag set and positive amounts, the asset is registered exactly when a debit line is on its account, and otherwise the entry stays saved while the form is rejected |
| Posting.Store | src/sample/ledger/views/views.py:208-214 | saving keeps every other entry, adds the new one, and adds nothing else |
| Posting.DistinctPksCons | src/sample/ledger/views/views.py:208-214 | a ledger with a first entry has distinct keys exactly when the rest does and does not reuse the first key |
| Posting.StoreKeepsPksDistinct | src/sample/ledger/views/views.py:208-214 | saving keeps primary keys distinct |
| Posting.StoreFresh | src/sample/ledger/views/views.py:208-214 | saving an entry with a new key appends it |
| Posting.PostingPreservesBalance | src/sample/ledger/views/views.py:200-214 | posting keeps every stored entry balanced, and a rejected submission changes nothing |
| Posting.PostAdjustmentEntry | src/sample/ledger/views/adjustment_entry.py:70-103 | rejected exactly when a formset is invalid or the totals differ, with the balance message only in the latter case; a saved adjustment entry keeps the header's key, summary, company and purchase details, is dated at the period end, typed `adjustment`, linked to the period, balanced and has the submitted lines |
| Posting.AdjustmentIgnoresInputDate | src/sample/ledger/views/adjustment_entry.py:88-92 | the date typed into the form does not affect the outcome |
| Posting.AdjustmentLandsAtPeriodEnd | src/sample/ledger/views/adjustment_entry.py:88-101 | a saved adjustment entry changes an account's balance as of the period end by its signed lines, and does not change the balance as of any earlier date |
| Posting.FindPeriod | src/sample/ledger/views/adjustment_entry.py:58-66 | the period lookup fails exactly when no period has the id, otherwise it returns that period |
| Posting.ReferenceInfo | src/sample/ledger/views/adjustment_entry.py:50-66 | reference information is present exactly when a period id is given and exists, and then it is for that period, with one depreciation row per listed asset (no company filter), the depreciation total equal to the sum of its rows, and the allowance summary of `calculate_allowance` for that period |
| Money.RoundHalfEven | src/sample/ledger/services_temp/adjustment_calculator.py:101-103 | the quantized value is within half a unit of the exact quotient, and is even on a tie |
| Money.RoundHalfEvenUnique | src/sample/ledger/services_temp/adjustment_calculator.py:207-209 | that nearest-with-ties-to-even value is unique |
| Dates.EndOfMonth | src/sample/ledger/services.py:121 | the month end is a valid date of that month on or after every date of the month |
| Dates.EndOfPrevMonth | src/sample/ledger/services.py:82 | the previous month end is a valid date just before the first of the month, one month index earlier |
| Dates.BeforeFirstIffOnOrBeforePrevEnd | src/sample/ledger/services.py:82-100 | a date precedes the first of the month exactly when it is on or before the previous month end |
| Dates.EndOfMonthIsPrevOfNext | src/sample/ledger/services.py:82-121 | the month end is the next month's previous month end |
| Numerals.NatToStringRoundTrip | src/sample/ledger/views/purchasebook.py:193 | the decimal rendering of an entry id reads back as that id |

## Left out

- The ORM, `transaction.atomic`, request parsing, templates, redirects and
  the spreadsheet writer are not modelled. Queries are filters over a
  sequence, and the xlsx data is the list of rows before writing.
- `print` warnings (a zero opening balance, formset errors, the purchase
  mismatch) are not modelled. They only write to the console.
- Decimal's 28-digit context is not modelled: `annual_depreciation / 12` is
  an exact rational before the quantize. The results differ only when the
  28-digit quotient rounds across a half cent.
- `FixedAsset.calculate_annual_depreciation` and
  `get_accumulated_depreciation` are not part of this model. Their results
  are fields of `Adjustment.DepreciableAsset`.
- `calc_each_account_totals` and `get_fiscal_range` are not part of this
  model. The statements take the account totals as input.
  `Statements.LedgerTotals` is the signed-balance reading used for the
  tie-out lemmas.
- Formset internals are not part of this model. Each formset's
  `total_amount` is taken as the sum of its submitted lines' amounts
  (`Ledger.LinesTotal`); the formset class that defines that attribute is
  not part of this model. Each formset's `is_valid()` is the `debitsValid` or
  `creditsValid` field of `Posting.JournalSubmission` and
  `Posting.AdjustmentSubmission`.
- `DepreciationHistory` recording, the cashbook.py view subclasses, the
  general ledger, the dashboard and the PDF views are outside the modelled
  core.
- The purchase book's `abstract_line1` text is not modelled: it is built
  and never used.
- The database's tie order among entries of the same date is not modelled.
  The purchase book's `order_by("date")` is taken as (date, pk).
- The database collation behind `order_by("asset_number")` is not modelled.
  Asset numbers are ordered by code point (`Sorting.StringOnOrBefore`), as
  a binary collation orders them.
- The order of an entry's debit and credit lines is not modelled. The
  models give them no ordering, so `opponent_accounts[0]` in the cash book
  and the first other-side line in the purchase book follow the database.
  The model takes the lines in the order of the entry's sequence.
- CashBook.GetInitialBalance: `.get()` raises when there are several
  InitialBalance rows for the account. The model returns the first and
  states only that the result is the balance of one matching row.
- CashBook.MonthContinuity: requires that no entry of the month posts the
  account on both sides, and that the anchor does not move. The source's
  brought-forward sum counts both sides of such an entry while its row
  counts only the debit. Without an InitialBalance, January restarts at
  1 January. `CashBook.TwoSidedEntryBreaksContinuity` and
  `CashBook.YearEndResetsWithoutInitialBalance` show that both conditions
  are needed.
- CashBook.CalculateMonthlyBalance: for a known account the source raises
  `ValueError` or `OverflowError` on some dates, and the model does not
  model these exceptions:
  - a month outside 1..12 (`date(year, month, 1)`); the model requires a
    valid month in that case;
  - a year outside 1..9999 (`date(year, 1, 1)` and `date(year, month, 1)`);
  - January of year 1, whose previous month end falls before year 1;
  - December of year 9999, whose next month falls after year 9999.

  The model answers the last three with dates outside Python's range. An
  unknown account is answered for any month and year.
- PurchaseBook.PurchaseBookContext: the book is built on the corrected,
  deduplicated month query (`PurchaseBook.PurchaseJournals`), not on the
  query as written. The as-written query is `PurchaseBook.PurchaseJournalsAsWritten`
  (see "## Findings").
- Statements.LedgerTotals: the totals come from the ledger's signed
  balances, because `calc_each_account_totals` is not part of this model.

## Findings

| source | as written | input that shows it | evidently intended | confidence | as-written member | corrected member |
|---|---|---|---|---|---|---|
| src/sample/ledger/views/purchasebook.py:74-88 | the query ORs a filter on `debits__account` with one on `credits__account` and has no `.distinct()`, so an entry is returned once per joined debit/credit row pair | an entry of the month with one 仕入 debit of 10000 and two credit lines (買掛金 6000, 現金 4000) is listed twice, and total purchase is 20000 | each qualifying entry appears once (as `.distinct()` does in services.py:131), and the totals are the month's 仕入 amounts | not executed | PurchaseBook.DuplicateRowsDoublePurchases | PurchaseBook.PurchaseBookTotals |
