# Dashboard month windows and aggregates

A Dafny model of the arithmetic behind the finance dashboard's home page
(`fetchDashboardData` in `app/page.tsx`). Its four summary cards are:

- the total still receivable;
- the number of overdue installments;
- what was received this month;
- what was spent this month, with the net profit.

Its chart shows revenue and expense bars for the last six calendar months.
The model takes the arithmetic out of the React effect and the document-store
calls. It is written as functions and methods over in-memory records.

- `Calendar` (`calendar.dfy`): local instants as (year, 0-based month, day,
  millisecond of day).
  - `MakeDate` is the `new Date(y, m, d, h, mi, s, ms)` normalisation the page relies on
    (for years outside 0 to 99): an out-of-range month carries into the year, and day 0 is the last day of the
    previous month.
  - It also defines month shifting, month lengths with Gregorian leap years, and the
    closed window of a month.
- `Labels` (`labels.dfy`): the chart labels `monthNames[m] + "/" + year.toString().slice(-2)`.
- `Records` (`records.dfy`): installments and expenses, and the store queries as
  filters over lists.
  - The queries are: pending; overdue (pending and due strictly before now); paid in a
    window; expense in a window.
  - The reducer `sum + (doc.value || 0)` and net profit are also here.
- `Dashboard` (`dashboard.dfy`):
  - the card figures;
  - the per-month loop that builds the six chart entries, oldest first, where a month
    whose queries fail gets a zero entry;
  - the whole load, where a failed card query leaves the initial state.

Money is in integer cents and a missing `value` is `None`. A month's pair of
queries is a function from a window to either the two result lists or a
failure.

## Model

| member | source | states |
|---|---|---|
| Calendar.DaysInMonth | app/page.tsx:141-148 | the last day of a month (day 0 of the next) is between 28 and 31 |
| Calendar.DaysInMonthCases | app/page.tsx:141-148 | the month ends on day 29 exactly for a leap February, 28 for any other February, 30 for April, June, September and November, and 31 otherwise |
| Calendar.YearLength | app/page.tsx:141-148 | the twelve month lengths add up to 366 days in a leap year and 365 otherwise |
| Calendar.FebruaryLengths | app/page.tsx:141-148 | February has 29 days in 2024 and 2000 and 28 in 2023 and 1900 (century rule) |
| Calendar.MakeDate | app/page.tsx:50-58 | the `Date` constructor yields a valid date; a non-zero day keeps the month (after year carry) and the day; day 0 gives the last day of the previous month; the time of day is the given one |
| Calendar.MonthsBack | app/page.tsx:139 | the month `i` months back is a valid first-of-month midnight whose month ordinal is the current one minus `i` |
| Calendar.MonthsBackByConstructor | app/page.tsx:139 | `new Date(year, month - i, 1)` is exactly that instant |
| Calendar.MonthsBackRollover | app/page.tsx:139 | going back `i <= month` months stays in the year; going further takes one year off and wraps the month to `month - i + 12` |
| Calendar.SourceMonthWindow | app/page.tsx:140-148 | the window as written runs from a valid first instant to a valid last instant |
| Calendar.SourceMonthWindowWithinMonth | app/page.tsx:141-148 | the window as written ends before the first instant of the next month, and everything in it lies in that month |
| Calendar.SourceMonthWindowMissesLastSecond | app/page.tsx:141-148 | an instant at 23:59:59.500 on the last day is in the month but outside the window as written |
| Calendar.SourceMonthWindowExact | app/page.tsx:140-148 | a valid instant lies in the window as written iff it is in the month and not after 23:59:59.000 on its last day |
| Calendar.SourceMonthWindowInjective | app/page.tsx:140-148 | different months have different windows |
| Calendar.MonthWindow | app/page.tsx:140-148 | the corrected window runs from a valid first instant to a valid last instant |
| Calendar.MonthWindowByConstructor | app/page.tsx:50-58 | the windows are the ones `new Date(y, m, 1)` and `new Date(y, m + 1, 0, 23, 59, 59[, 999])` produce; December stays in its year |
| Calendar.MonthWindowExact | app/page.tsx:140-148 | a valid instant lies in the corrected window of a month iff it is in that month |
| Labels.MonthName | app/page.tsx:122-135 | every month abbreviation has three characters |
| Labels.MonthNamesDistinct | app/page.tsx:122-135 | the twelve abbreviations are pairwise distinct |
| Labels.NatToString | app/page.tsx:151-154 | a decimal representation is never empty |
| Labels.NatToStringLastDigits | app/page.tsx:151-154 | a numeral ends with its units digit; it has one character iff the number is below 10, and from 10 on the tens digit comes before the units digit |
| Labels.YearSuffix | app/page.tsx:151-154 | the year suffix has one or two characters |
| Labels.YearSuffixMatchesString | app/page.tsx:151-154 | the suffix read from the number is exactly the last two characters of the year's string, negative years included |
| Labels.MonthLabel | app/page.tsx:151-154 | a label is five or six characters: three for the month, the slash, and one or two for the year |
| Labels.MonthLabelMatchesTemplate | app/page.tsx:151-154 | the label is exactly `monthNames[m] + "/" + year.toString().slice(-2)`, for every year |
| Labels.MonthLabelFormat | app/page.tsx:151-154 | from year 10 on, a label is six characters: the month abbreviation, `/`, the tens and units digits of the year |
| Labels.YearSuffixInjective | app/page.tsx:151-154 | from year 10 on, two suffixes agree iff the years agree modulo 100 |
| Labels.MonthLabelInjective | app/page.tsx:151-154 | from year 10 on, two labels agree iff they name the same month and years agreeing modulo 100 |
| Labels.MonthLabelsDistinctWithinYear | app/page.tsx:151-154 | labels of two months less than twelve months apart differ |
| Records.Filter | app/page.tsx:68-89 | a query returns at most as many documents as the collection holds |
| Records.FilterCount | app/page.tsx:68-89 | a query returns each matching document as often as the collection holds it and no other document |
| Records.PendingInstallments | app/page.tsx:68-70 | the pending query returns at most the stored installments; `FilterCount` gives its exact contents |
| Records.OverdueInstallments | app/page.tsx:73-76 | the overdue query returns at most the stored installments; `OverdueExact` gives its exact contents |
| Records.PaidWithin | app/page.tsx:159-163 | the paid-in-window query returns at most the stored installments; `PaidInSourceMonthExact` gives its exact contents |
| Records.ExpensesWithin | app/page.tsx:164-167 | the expense-in-window query returns at most the stored expenses; `ExpensesInSourceMonthExact` gives its exact contents |
| Records.OverdueExact | app/page.tsx:73-76 | the overdue query holds exactly the pending installments due strictly before now, each with its multiplicity |
| Records.DueNowNotOverdue | app/page.tsx:75 | an installment due exactly now is not overdue |
| Records.PaidInMonthExact | app/page.tsx:79-83 | with a month's corrected window, the paid query holds exactly the paid installments whose payment date is in that month |
| Records.ExpensesInMonthExact | app/page.tsx:86-89 | with a month's corrected window, the expense query holds exactly the expenses dated in that month |
| Records.PaidInSourceMonthExact | app/page.tsx:79-83 | with the window the dashboard builds, the paid query holds exactly the paid installments paid in that month, except after 23:59:59.000 on its last day |
| Records.ExpensesInSourceMonthExact | app/page.tsx:86-89 | with the window the dashboard builds, the expense query holds exactly the expenses of that month, except those after 23:59:59.000 on its last day |
| Records.Amount | app/page.tsx:94 | `doc.value \|\| 0` is 0 exactly when the value is absent or zero |
| Records.SumValues | app/page.tsx:93-96 | the sum of an empty list is 0 |
| Records.SumValuesAppend | app/page.tsx:93-96 | the sum of two lists together is the sum of their sums |
| Records.SumValuesIsTotalOfPresent | app/page.tsx:93-96 | the sum equals the plain total of the values that are present |
| Records.SumIgnoresMissing | app/page.tsx:94 | a document without a value changes no sum, wherever it stands |
| Records.SumValuesExtract | app/page.tsx:171-179 | a document anywhere in a list adds its own amount to the sum |
| Records.SumValuesPermutation | app/page.tsx:103-106 | the sum does not depend on the order the store returns documents in |
| Records.SumValuesNonNegative | app/page.tsx:110-113 | with values never negative, the sum is never negative |
| Records.PresentValues | app/page.tsx:94 | there are no more present values than documents |
| Records.NetProfit | app/page.tsx:117 | profit plus expenses is what was received; profit is negative iff expenses exceed receipts |
| Dashboard.Summarize | app/page.tsx:92-118 | net profit plus month expenses equals month receipts, and the overdue count is between 0 and the number of installments |
| Dashboard.MonthTotals | app/page.tsx:186-192 | a month whose queries fail contributes (0, 0) |
| Dashboard.MonthEntry | app/page.tsx:181-192 | a month's entry carries that month's label |
| Dashboard.ChartSeries | app/page.tsx:137-194 | the chart has exactly six entries |
| Dashboard.BuildMonthEntry | app/page.tsx:139-193 | one loop pass pushes the entry of the month `i` months back: its label and the totals of its queries, or zeros on failure |
| Dashboard.BuildChartData | app/page.tsx:137-194 | the loop from 5 down to 0 builds exactly the six-entry chart, oldest month first |
| Dashboard.FetchDashboardData | app/page.tsx:44-202 | a failed card query leaves zeros and an empty chart; otherwise the cards are the store's figures and the chart is the six-month series |
| Dashboard.ChartEntryAt | app/page.tsx:137-139 | entry k is the entry of the month 5 - k months back |
| Dashboard.ChartMonths | app/page.tsx:137-139 | entry k is labelled with the month 5 - k months back, and consecutive entries are consecutive months |
| Dashboard.ChartEndsAtCurrentMonth | app/page.tsx:137-139 | the last entry is the current month |
| Dashboard.MonthsBackLabelsDistinct | app/page.tsx:151-154 | the labels of two different months of the six differ |
| Dashboard.ChartNamesDiffer | app/page.tsx:151-154 | two different entries of a chart have different labels |
| Dashboard.ChartLabelsDistinct | app/page.tsx:151-154 | the six labels of a chart are pairwise distinct |
| Dashboard.FailedMonthIsZero | app/page.tsx:186-192 | when month j's queries fail, entry j is (label, 0, 0) |
| Dashboard.OtherMonthUnaffected | app/page.tsx:156-193 | when month j's queries fail, every other entry is unchanged |
| Dashboard.ChartFaultIsolation | app/page.tsx:156-193 | both together: the failing month shows zeros and the loop still produces every other month unchanged |
| Dashboard.CurrentMonthBarMatchesCards | app/page.tsx:171-179 | with queries answered by the store, the last bar shows the same received and spent totals as the month cards |
| Dashboard.SummaryTotalsNonNegative | app/page.tsx:93-113 | with values never negative, no card total is negative |
| Dashboard.OverdueCountExample | app/page.tsx:73-76 | with two pending installments, one due before now and one after, and a paid one due before now, the overdue card shows 1 |

## Left out

- The store itself: the `listDocuments` calls, the `Query.*` builders and the `Promise.all` parallelism are replaced by lists filtered in memory. A month's queries are a function that returns results or a failure.
- Paging: a `listDocuments` call returns at most one page of documents (25 by default), while `total` counts every match. The sums here run over all matching documents. The overdue count is exact in both the code and the model.
- Time zones and ISO strings: instants are local calendar tuples compared in calendar order. The `toISOString` conversion to UTC is not modelled.
- The overdue query reads the clock a second time (`new Date()` at line 75). The model uses the same `now` for both reads.
- Floating point: amounts are integer cents, so float rounding in the sums is not reproduced.
- Calendar.MakeDate: only days 0 to 28 are modelled, which covers the days the page passes (0 and 1). Years 0 to 99, which the constructor reads as 1900 to 1999, are not modelled: the model keeps them as given, so `MakeDate`, `MonthsBackByConstructor` and `MonthWindowByConstructor` do not describe the constructor for those years.
- Calendar.MonthsBackByConstructor: does not describe `new Date` for years 0 to 99, for the same reason as `Calendar.MakeDate`.
- Calendar.MonthWindowByConstructor: does not describe `new Date` for years 0 to 99, for the same reason as `Calendar.MakeDate`.
- React plumbing: `useState` setters, `isLoading`, the console error logging and the rendering. `formatCurrency` (locale formatting through `Intl.NumberFormat`) is left out too.
- Installment generation in `app/(routes)/vendas/nova/page.tsx` is not part of this model. Neither are `components/Navbar.tsx`, `lib/appwrite.ts` (client construction) and `next.config.ts` (build configuration).

## Findings

| source | as written | input that shows it | evidently intended | confidence | as-written member | corrected member |
|---|---|---|---|---|---|---|
| app/page.tsx:141-148 | the month window ends at 23:59:59.000 on the last day, but `paidDate` is stored with millisecond precision (`new Date().toISOString()`, app/(routes)/parcelas/page.tsx:156) | an installment paid at 23:59:59.500 on the last day of a month | the window covers the whole month up to 23:59:59.999, so every payment falls in the month it was made | not executed | Calendar.SourceMonthWindowMissesLastSecond | Calendar.MonthWindowExact |

The dashboard members (`Summarize`, `MonthEntry`, `BuildMonthEntry`, `FetchDashboardData`) model the code as written, with `Calendar.SourceMonthWindow`. `Calendar.MonthWindow` is the corrected window. `MonthWindowExact`, `PaidInMonthExact` and `ExpensesInMonthExact` state what it would give.
