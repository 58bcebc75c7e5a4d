# fintool core in Dafny

A verified model of the two deterministic parts of `fintool`, a personal
finance tool:

- the **recurring-transaction projector** (`project_future_transactions`),
  which walks every recurring rule (monthly on a day of the month, or every
  14 days from a start date) from today up to `today + days_ahead` and
  emits one pending transaction per occurrence;
- the **report engine** (`reports.py`), which turns account, budget-item and
  savings records into the assets, liabilities, budget and savings tables
  and the four-line cashflow summary.

Files:

- `common.dfy` (`Common`): `Option` and `Result`.
- `calendar.dfy` (`Calendar`): the proleptic Gregorian calendar used by
  Python's `datetime` — valid dates, day ordinals, `timedelta(days=n)`
  (`AddDays`), `relativedelta(months=1)` with end-of-month clamping
  (`AddOneMonth`), timestamps at microsecond resolution, and
  `strptime(s, "%Y-%m-%d")` / `strftime("%Y-%m-%d")`.
- `models.dfy` (`Models`): the records of `models.py`, with an `Option` for
  every field that may be null or missing.
- `projectors.dfy` (`Projectors`): the projector. `ProjectFutureTransactions`
  and its helper methods keep the source's loops (a cursor advanced on every
  iteration, a list appended to) and are proved equal to the functional
  specification `Projection`, about which the properties are proved.
- `reports.dfy` (`Reports`): the reports as functions over typed rows, the
  savings collection loop as a method, and the lemmas relating the reports
  to each other.

The wall clock and the id source are parameters: `now` is a `Timestamp`
(a date and the microseconds since midnight) and ids come from a counter
starting at `firstId`, so the `k`-th emitted transaction gets `firstId + k`.
Money and rates are `real`s. A report frame is `Blank` (no columns, no rows)
or `Table(rows)` with the report's fixed columns; a `None` cell is a null,
and column sums skip nulls as pandas does.

## Model

| member | source | states |
|---|---|---|
| Calendar.AddDays | finance_app_v3/fintool/projectors.py:52 | `d + timedelta(days=n)` yields a valid date; with `AddDaysOrdinal` it moves the day ordinal by exactly `n` |
| Calendar.AddDaysOrdinal | finance_app_v3/fintool/projectors.py:12 | the date `n` days on has ordinal `Ordinal(d) + n` |
| Calendar.AddDaysLater | finance_app_v3/fintool/projectors.py:52 | stepping a positive number of days gives a strictly later date, so the biweekly cursor strictly increases |
| Calendar.AddDaysAdditive | finance_app_v3/fintool/projectors.py:52 | two steps of `m` and `n` days equal one step of `m + n` days (so `k` biweekly steps are `14k` days) |
| Calendar.LessIffOrdinal | finance_app_v3/fintool/projectors.py:23 | date comparison agrees with the ordinal order, both ways, and equal ordinals mean equal dates |
| Calendar.AddOneMonth | finance_app_v3/fintool/projectors.py:34 | `relativedelta(months=1)`: a valid, strictly later date in the next calendar month, same day or clamped to that month's last day |
| Calendar.AddOneMonthLength | finance_app_v3/fintool/projectors.py:34 | a month step covers the month's length minus the clamping, not a fixed 30 days |
| Calendar.ParseIsoDate | finance_app_v3/fintool/projectors.py:15 | `strptime(s, "%Y-%m-%d")` returns only valid dates with years 1..9999, `None` for the `ValueError` |
| Calendar.ParseFormatRoundTrip | finance_app_v3/fintool/projectors.py:27 | parsing the "%Y-%m-%d" text of any date of years 1..9999 gives that date back |
| Projectors.EmitAppend | finance_app_v3/fintool/projectors.py:25-33 | appending one date to the emitted dates appends one pending transaction with the next id |
| Projectors.FirstMonthlyDate | finance_app_v3/fintool/projectors.py:19-21 | the first monthly candidate is `day_of_month` in today's month, moved by exactly one `relativedelta` month (`AddOneMonth` of that date: the next month, same day or clamped, never a later day) only when before today; a missing or out-of-range day fails; the result is never before today |
| Projectors.MonthlyCandidate | finance_app_v3/fintool/projectors.py:34 | the `k`-th monthly candidate is valid, not before the first, and exactly `k` calendar months after it |
| Projectors.MonthlyCandidateStep | finance_app_v3/fintool/projectors.py:34 | candidate `k + 1` is one `relativedelta` month after candidate `k` (clamped days carry on) |
| Projectors.MonthlyDates | finance_app_v3/fintool/projectors.py:23-34 | the monthly loop emits no more dates than there are calendar months from the first candidate to the horizon (one per month is `MonthlyDatesOneMonthApart`) |
| Projectors.MonthlyDatesSound | finance_app_v3/fintool/projectors.py:23-25 | every emitted monthly date is a candidate, not before the first candidate, not before start_date and not after the horizon |
| Projectors.MonthlyDatesComplete | finance_app_v3/fintool/projectors.py:23-25 | every candidate between start_date and the horizon is emitted |
| Projectors.MonthlyDatesOneMonthApart | finance_app_v3/fintool/projectors.py:34 | consecutive emitted monthly dates are exactly one calendar month apart |
| Projectors.BiweeklyCandidate | finance_app_v3/fintool/projectors.py:38-52 | the `k`-th biweekly candidate is a valid date not before start_date |
| Projectors.BiweeklyCandidateDays | finance_app_v3/fintool/projectors.py:52 | the `k`-th biweekly candidate is start_date plus `14k` days |
| Projectors.BiweeklyDates | finance_app_v3/fintool/projectors.py:38-52 | the biweekly loop's dates are spaced so that `k + 1` of them span at least `14k` days up to the horizon |
| Projectors.BiweeklyDatesSound | finance_app_v3/fintool/projectors.py:39-41 | every emitted biweekly date is start_date + 14k, at or after now (at midnight), and not after the horizon |
| Projectors.BiweeklyDatesComplete | finance_app_v3/fintool/projectors.py:39-52 | every candidate at or after now and not after the horizon is emitted: the cursor passes skipped dates without losing phase |
| Projectors.BiweeklyDatesFourteenDaysApart | finance_app_v3/fintool/projectors.py:52 | consecutive emitted biweekly dates are exactly 14 days apart |
| Projectors.ItemDates | finance_app_v3/fintool/projectors.py:14-52 | a rule yields dates only when its start_date parses; a successful annual rule yields no dates |
| Projectors.ItemDatesFailure | finance_app_v3/fintool/projectors.py:15-21 | a rule fails exactly when start_date does not parse or a monthly rule's day is missing or not in today's month, with the matching error; an annual rule with a parsable start emits nothing |
| Projectors.ItemDatesInWindow | finance_app_v3/fintool/projectors.py:11-24 | every date of a rule is valid, not before today, not before start_date (both frequencies) and not after today + days_ahead, and the dates strictly ascend |
| Projectors.MonthlyRuleIncludesToday | finance_app_v3/fintool/projectors.py:19-20 | with a non-negative horizon, a started monthly rule whose day is today's day emits today |
| Projectors.BiweeklyRuleToday | finance_app_v3/fintool/projectors.py:41 | with a non-negative horizon, a biweekly occurrence on today's date is emitted if and only if now is exactly midnight |
| Projectors.Outcomes | finance_app_v3/fintool/projectors.py:14 | one outcome per rule, in rule order |
| Projectors.Projection | finance_app_v3/fintool/projectors.py:8-54 | with no rules the run succeeds with no transactions; a successful run numbers its transactions consecutively from the first free id; sources and failures of a run are stated by the lemmas below |
| Projectors.AssembleErrorPersists | finance_app_v3/fintool/projectors.py:14-15 | once a rule has failed, later rules do not change the outcome |
| Projectors.AssembleStep | finance_app_v3/fintool/projectors.py:14 | processing one more rule either fails the whole run with that rule's error or appends that rule's transactions |
| Projectors.AssembleIds | finance_app_v3/fintool/projectors.py:26 | the `i`-th transaction of a run has id `firstId + i` |
| Projectors.AssembleSources | finance_app_v3/fintool/projectors.py:25-33 | every transaction is pending, copies description, amount, account and category from a rule, and has one of that rule's dates |
| Projectors.AssembleFailure | finance_app_v3/fintool/projectors.py:14-15 | a run succeeds if and only if every rule does; a failed run carries the error of the first failing rule |
| Projectors.AssembleConcat | finance_app_v3/fintool/projectors.py:14 | the run over two lists of rules is the run over the first followed by the run over the second, ids numbered on |
| Projectors.ProjectionIdsDistinct | finance_app_v3/fintool/projectors.py:26 | all ids of one run are distinct |
| Projectors.ProjectionSources | finance_app_v3/fintool/projectors.py:14-50 | each transaction comes from a monthly or biweekly rule, copies its fields, and has a date between today and the horizon that is not before the rule's start_date |
| Projectors.ProjectionFailure | finance_app_v3/fintool/projectors.py:15-21 | a run fails if and only if some rule fails, and then with the first failing rule's error |
| Projectors.EmitMonthly | finance_app_v3/fintool/projectors.py:23-34 | the monthly loop emits exactly the monthly dates from the first candidate to the horizon that are not before start_date, numbered from the given id |
| Projectors.EmitBiweekly | finance_app_v3/fintool/projectors.py:38-52 | the biweekly loop emits exactly the dates start_date + 14k up to the horizon that are at or after now, numbered from the given id |
| Projectors.ProjectRule | finance_app_v3/fintool/projectors.py:15-52 | one loop iteration over a rule yields that rule's error or its transactions as the specification defines them |
| Projectors.ProjectFutureTransactions | finance_app_v3/fintool/projectors.py:8-54 | the projector returns exactly `Projection`: per-rule transactions concatenated in rule order, or the first rule's error |
| Reports.WeightedAverage | finance_app_v3/fintool/reports.py:22-24 | the average times the total value is the weighted sum (nulls as 0); 0 when the total value is 0 |
| Reports.SumHalves | finance_app_v3/fintool/reports.py:59 | halving every entry of a column halves its total |
| Reports.WeightedAverageBounds | finance_app_v3/fintool/reports.py:42-44 | over non-negative values whose total is non-zero, the weighted average of rates lying in `[lo, hi]` lies in `[lo, hi]` (on a zero total the average is 0) |
| Reports.WeightedAverageUniform | finance_app_v3/fintool/reports.py:42-44 | when every row has the same rate and the total value is non-zero, the weighted average is that rate (on a zero total it is 0) |
| Reports.OfType | finance_app_v3/fintool/reports.py:19 | the selected accounts are accounts of the requested type, and no more than the input |
| Reports.OfTypeAppend | finance_app_v3/fintool/reports.py:19 | selecting from `xs + ys` is selecting from `xs` followed by selecting from `ys`: input order and multiplicity are kept |
| Reports.OfTypeSingle | finance_app_v3/fintool/reports.py:19 | a single account is kept exactly when it has the requested type |
| Reports.OfTypeComplete | finance_app_v3/fintool/reports.py:19 | every account of the requested type is selected; the selection is empty exactly when no account has that type |
| Reports.AssetsReport | finance_app_v3/fintool/reports.py:16-31 | blank exactly when there are no accounts; otherwise no rows or one row per asset plus the total row |
| Reports.AssetsReportShape | finance_app_v3/fintool/reports.py:18-31 | blank if and only if there are no accounts; no rows if and only if no account is an asset; otherwise the asset rows in order and one final "Total Assets" row (no asset class) whose value sums the rows above it, whose monthly income sums their non-null incomes, and whose APY is their value-weighted average APY, 0 when the total value is 0 |
| Reports.AssetsTotalApyBounds | finance_app_v3/fintool/reports.py:22-26 | when every asset has an APY in `[lo, hi]` and a non-negative value, and the total value is non-zero, the total row's APY lies in `[lo, hi]` (on a zero total it is 0) |
| Reports.CurrentApr | finance_app_v3/fintool/reports.py:5-14 | the result is the standard or the intro rate; with no deadline or one that does not parse it is the standard rate |
| Reports.CurrentAprCases | finance_app_v3/fintool/reports.py:5-14 | the intro rate is returned exactly when the deadline parses and today is before the deadline's date; otherwise, the deadline day included, the standard rate |
| Reports.CurrentAprExpiryIsFinal | finance_app_v3/fintool/reports.py:10 | once the deadline has passed, the standard rate is returned at every later instant |
| Reports.AvailableCredit | finance_app_v3/fintool/reports.py:40 | available credit is present exactly when the credit limit is, and then equals the limit minus the balance |
| Reports.LiabilitiesReport | finance_app_v3/fintool/reports.py:33-51 | blank exactly when there are no accounts; otherwise no rows or one row per liability plus the total row |
| Reports.AvailableCreditTotal | finance_app_v3/fintool/reports.py:40-46 | total available credit equals total credit limit minus the balances of the accounts that have a limit |
| Reports.LiabilitiesReportShape | finance_app_v3/fintool/reports.py:35-51 | blank if and only if there are no accounts; no rows if and only if no account is a liability; otherwise one row per liability in order carrying that account's own cells plus its current APR and available credit, then the total row over those rows (sums of value, payment, credit limit and available credit, value-weighted current APR) |
| Reports.BudgetRowOf | finance_app_v3/fintool/reports.py:58-59 | the row keeps the item's name and due day; monthly cost times the period is the amount; the per-paycheck cost is half the monthly cost |
| Reports.Insert | finance_app_v3/fintool/reports.py:62 | inserting a row adds exactly that row to the multiset of rows |
| Reports.SortByDueDay | finance_app_v3/fintool/reports.py:62 | sorting keeps every row: the output is a permutation of the input |
| Reports.SortByDueDaySorted | finance_app_v3/fintool/reports.py:62 | the sorted rows ascend by due day with missing due days last, and are a permutation of the input |
| Reports.SortedMissingLast | finance_app_v3/fintool/reports.py:62 | in sorted rows, every row after one without a due day also has none |
| Reports.SortKeepsTotals | finance_app_v3/fintool/reports.py:61-62 | the monthly and per-paycheck totals are the same before and after sorting |
| Reports.BudgetReport | finance_app_v3/fintool/reports.py:53-64 | blank exactly when there are no items; otherwise one row per item plus a final "Total Bills" row |
| Reports.BudgetReportShape | finance_app_v3/fintool/reports.py:55-64 | blank if and only if there are no items; otherwise the items' rows sorted by due day (missing last, a permutation) and a final "Total Bills" row that sums the rows above it, per-paycheck total half the monthly total |
| Reports.Contributions | finance_app_v3/fintool/reports.py:68-73 | one entry for the base contribution when present plus one per paid-off debt |
| Reports.CollectContributions | finance_app_v3/fintool/reports.py:68-73 | the append loop collects exactly the base contribution (when present) and then every debt in order, missing amounts as 0 |
| Reports.SavingsReportAsWritten | finance_app_v3/fintool/reports.py:66-81 | as written the report succeeds exactly when there are no contributions (then blank, as the corrected report); otherwise it fails reading `per_paycheck_cost` |
| Reports.SavingsReportAsWrittenRaises | finance_app_v3/fintool/reports.py:79 | a single base contribution makes the report as written raise on `per_paycheck_cost`, while the corrected report has two rows |
| Reports.SavingsReport | finance_app_v3/fintool/reports.py:66-81 | blank exactly when there are no contributions; otherwise one row per contribution plus a final "Total Savings Contributions" row |
| Reports.SavingsReportShape | finance_app_v3/fintool/reports.py:75-81 | blank if and only if there are no contributions; otherwise base then debts in order, each per-paycheck amount half its monthly amount, and a total row summing the monthly amounts with half of that per paycheck |
| Reports.TotalIncome | finance_app_v3/fintool/reports.py:89-93 | with no asset accounts the income is 0 |
| Reports.TotalExpenses | finance_app_v3/fintool/reports.py:96-99 | with no budget items the expenses are 0 |
| Reports.TotalExpensesNonNegative | finance_app_v3/fintool/reports.py:96-99 | non-negative amounts over positive periods give non-negative expenses |
| Reports.TotalSavings | finance_app_v3/fintool/reports.py:101-107 | with no base contribution and no paid-off debts the savings are 0 |
| Reports.CashflowSummary | finance_app_v3/fintool/reports.py:83-121 | four rows Total Income, Total Expenses, Total Savings, Remainder in that order; remainder is income minus expenses minus savings; every Half is half its Monthly |
| Reports.CashflowIncomeMatchesAssetsReport | finance_app_v3/fintool/reports.py:89-93 | the summary's income equals the assets report's total monthly income |
| Reports.CashflowIncomeWithoutAssets | finance_app_v3/fintool/reports.py:89-93 | with no asset accounts the summary's income is 0 |
| Reports.CashflowExpensesMatchBudgetReport | finance_app_v3/fintool/reports.py:96-99 | the summary's expenses equal the budget report's "Total Bills" monthly cost, whatever the row order, and are 0 when there are no items (the budget report is then blank) |
| Reports.CashflowSavingsMatchSavingsReport | finance_app_v3/fintool/reports.py:102-107 | the summary's savings equal the savings report's total monthly amount, or 0 when that report is blank |

## Left out

- The wall clock (`datetime.now()`) and `uuid4` are parameters: `now` and a counter `firstId`. The model proves ids distinct; random UUIDs are only distinct with high probability.
- Python's year range (1..9999) is not enforced on computed dates: a horizon or a 14-day step past year 9999 (which raises `OverflowError` in Python) and a month step past year 9999 (which raises `ValueError`) are computed on unbounded years. Parsed dates are 1..9999.
- `strptime` is modelled for ASCII digits only; Unicode decimal digits, which Python's `\d` also accepts, are not. `FormatIso` zero-pads years to four digits, which matches `strftime` on years 1000..9999.
- Transactions keep their date as a `Date`; the source stores its "%Y-%m-%d" text, which is `FormatIso` of that date (`ParseFormatRoundTrip`).
- Floating point: money and rates are exact `real`s, so rounding, NaN and infinity are not modelled.
- Reports.BudgetReport: requires every `period_months` to be non-zero (`PeriodsNonZero`); a zero period gives an infinite or NaN cost in pandas rather than an error. Negative periods are allowed, as in the source. Reports.CashflowSummary and Reports.TotalExpenses carry the same precondition.
- Frames are typed: every report column exists. The source's handling of absent columns (`row.get`, `df.get(..., 0)`, the missing `financial_type` column check, the column-filling loops at reports.py lines 29-30 and 49-50) is therefore not modelled; those loops are no-ops on typed rows.
- Reports.CurrentApr: the fallback of `row.get('intro_apr', row.get('apr'))` to the standard rate applies only when the `intro_apr` column is absent, which typed rows never are; a null intro rate is returned as null, as the source does. Non-text deadlines (the `TypeError` branch) are not modelled.
- Reports.CollectContributions: a `monthly_amount` key present with a null value is treated as missing (0); in the source the null reaches the frame as NaN, which the monthly sum skips but which leaves that row's per-paycheck cell NaN. A `base_contribution` of null (rather than missing or empty) is treated as missing; in the cashflow summary the source would raise on it.
- Reports.CashflowSummary: a null `monthly_amount` in a paid-off debt entry raises `TypeError` in the source's `sum`; the model takes it as 0.
- Reports.CashflowSummary: a base contribution whose `monthly_amount` is null makes `base_savings` null, and adding it raises `TypeError` at reports.py line 107; the model takes it as 0 (Reports.TotalSavings).
- Reports.SortByDueDay: an insertion sort, which keeps rows with equal due days in input order; the source's `sort_values` does not promise a stable order, so only sortedness and permutation are stated.
- Pandas mechanics (copies, `concat`, index reset, dtype coercion of the total rows) are not modelled; a row is a record.
- `Account` and `ExpenseBudget` from `models.py` are not used by the modelled functions and are not modelled. Loaders, the Plaid and OpenAI wrappers and the package initialiser are not part of this model.

Divergences between the documented behaviour and the code, where the model follows the code:

- Rules with frequency `annual` emit nothing.
- A monthly rule whose `day_of_month` does not exist in today's month (for example 31 in April) makes the whole projection fail (`DayOutOfRange`), as `today.replace(day=...)` raises.
- A malformed `start_date` fails the whole projection even for an annual rule, because the date is parsed before the frequency is examined.
- Monthly dates drift after a clamp: stepping from January 31 gives February 28 (or 29) and then March 28, because each step starts from the clamped day (`MonthlyCandidateStep`).

## Findings

| source | as written | input that shows it | evidently intended | confidence | as-written member | corrected member |
|---|---|---|---|---|---|---|
| finance_app_v3/fintool/reports.py:79 | the total row reads `report_df['per_paycheck_cost']`, a column of the budget report that the savings frame does not have, so every non-empty savings report raises `KeyError` | savings data with one base contribution `{name: "Emergency fund", monthly_amount: 100}` | the total row sums the `per_paycheck_contribution` column | not executed | Reports.SavingsReportAsWrittenRaises | Reports.SavingsReportShape |
