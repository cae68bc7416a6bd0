/** The dashboard loader: the four summary cards for the current month and
    the trailing six-month revenue/expense chart, computed from in-memory
    query results instead of the document store. */
module Dashboard {

  import opened Calendar
  import opened Labels
  import opened Records

  /** One group of bars in the chart: `{ name, receita, despesa }`. */
  datatype ChartEntry = ChartEntry(name: string, receita: int, despesa: int)

  /** What one month's pair of queries yields: the paid installments and the
      expenses of the window, or a failure that the loop catches. */
  datatype Fetched = Fetched(revenues: seq<Installment>, expenses: seq<Expense>) | FetchFailed

  /** The card figures: total receivable, overdue count, received this month,
      spent this month, and net profit. */
  datatype Summary = Summary(totalAReceber: int, parcelasVencidas: int,
                             recebidoNoMes: int, despesasNoMes: int, lucroLiquido: int)

  datatype DashboardState = DashboardState(summary: Summary, chart: seq<ChartEntry>)

  /** The state before (or without) a successful load: `useState(0)` for
      every figure and `useState([])` for the chart. */
  const InitialState: DashboardState := DashboardState(Summary(0, 0, 0, 0, 0), [])

  /** The month queries answered from a store that never fails. */
  function StoreFetch(store: Store): Window -> Fetched
  {
    (w: Window) => Fetched(PaidWithin(store, w), ExpensesWithin(store, w))
  }

  /** The card figures the dashboard derives from the store at `now`. */
  function Summarize(store: Store, now: Timestamp): (s: Summary)
    requires Valid(now)
    ensures s.lucroLiquido + s.despesasNoMes == s.recebidoNoMes
    ensures 0 <= s.parcelasVencidas <= |store.installments|
  {
    var w := SourceMonthWindow(now.year, now.month);
    var received := SumValues(PaidWithin(store, w), InstallmentValue);
    var spent := SumValues(ExpensesWithin(store, w), ExpenseValue);
    Summary(SumValues(PendingInstallments(store), InstallmentValue),
            |OverdueInstallments(store, now)|, received, spent, NetProfit(received, spent))
  }

  /** The two bar heights of a month: the totals of its query results, or
      zeros when its queries fail (the `catch` branch). */
  function MonthTotals(f: Fetched): (r: (int, int))
    ensures f.FetchFailed? ==> r == (0, 0)
  {
    match f
    case Fetched(revenues, expenses) =>
      (SumValues(revenues, InstallmentValue), SumValues(expenses, ExpenseValue))
    case FetchFailed => (0, 0)
  }

  /** The entry pushed for the month that starts at `date`. */
  function MonthEntry(date: Timestamp, fetch: Window -> Fetched): (e: ChartEntry)
    requires Valid(date)
    ensures e.name == MonthLabel(date.year, date.month)
  {
    var totals := MonthTotals(fetch(SourceMonthWindow(date.year, date.month)));
    ChartEntry(MonthLabel(date.year, date.month), totals.0, totals.1)
  }

  /** The chart for the six months ending with (y, m), oldest first: entry
      k is the entry of the month 5 - k months back. */
  function ChartSeries(y: int, m: int, fetch: Window -> Fetched): (r: seq<ChartEntry>)
    ensures |r| == 6
  {
    seq(6, (k: int) requires 0 <= k < 6 => MonthEntry(MonthsBack(y, m, 5 - k), fetch))
  }

  /** One pass of the loop body: the window and label of the month `i`
      months back, its two queries, and the entry pushed for it; a failing
      query gives zeros (the `catch` branch). */
  method BuildMonthEntry(y: int, m: int, i: int, fetch: Window -> Fetched) returns (entry: ChartEntry)
    ensures entry == MonthEntry(MonthsBack(y, m, i), fetch)
  {
    var date := MakeDate(y, m - i, 1, 0, 0, 0, 0);
    var firstDay := MakeDate(date.year, date.month, 1, 0, 0, 0, 0);
    var lastDay := MakeDate(date.year, date.month + 1, 0, 23, 59, 59, 0);
    MonthsBackByConstructor(y, m, i);
    MonthWindowByConstructor(date.year, date.month);
    var month := Window(firstDay, lastDay);
    var monthName := MonthLabel(date.year, date.month);
    var totalReceitas, totalDespesasMes;
    match fetch(month) {
      case Fetched(revenues, expenses) =>
        totalReceitas := SumValues(revenues, InstallmentValue);
        totalDespesasMes := SumValues(expenses, ExpenseValue);
      case FetchFailed =>
        totalReceitas, totalDespesasMes := 0, 0;
    }
    entry := ChartEntry(monthName, totalReceitas, totalDespesasMes);
  }

  /** The loop `for (let i = 5; i >= 0; i--)` that builds `chartDataArray`,
      oldest month first. */
  method BuildChartData(y: int, m: int, fetch: Window -> Fetched) returns (chart: seq<ChartEntry>)
    ensures chart == ChartSeries(y, m, fetch)
  {
    chart := [];
    var i := 5;
    while i >= 0
      invariant -1 <= i <= 5 && |chart| == 5 - i
      invariant forall k :: 0 <= k < |chart| ==> chart[k] == ChartSeries(y, m, fetch)[k]
    {
      var entry := BuildMonthEntry(y, m, i, fetch);
      assert entry == ChartSeries(y, m, fetch)[5 - i];
      chart := chart + [entry];
      i := i - 1;
    }
  }

  /** `fetchDashboardData`: when the four parallel card queries fail the
      state stays as initialised; otherwise the cards come from the
      snapshot and the chart from the per-month queries. */
  method FetchDashboardData(now: Timestamp, snapshot: Option<Store>, fetch: Window -> Fetched)
    returns (state: DashboardState)
    requires Valid(now)
    ensures snapshot.None? ==> state == InitialState
    ensures snapshot.Some? ==> state.summary == Summarize(snapshot.value, now) &&
                               state.chart == ChartSeries(now.year, now.month, fetch)
  {
    state := InitialState;
    if snapshot.Some? {
      var store := snapshot.value;
      var firstDayOfMonth := MakeDate(now.year, now.month, 1, 0, 0, 0, 0);
      var lastDayOfMonth := MakeDate(now.year, now.month + 1, 0, 23, 59, 59, 0);
      var month := Window(firstDayOfMonth, lastDayOfMonth);
      MonthWindowByConstructor(now.year, now.month);
      var totalPendente := SumValues(PendingInstallments(store), InstallmentValue);
      var vencidas := |OverdueInstallments(store, now)|;
      var totalRecebido := SumValues(PaidWithin(store, month), InstallmentValue);
      var totalDespesas := SumValues(ExpensesWithin(store, month), ExpenseValue);
      var lucro := NetProfit(totalRecebido, totalDespesas);
      var chart := BuildChartData(now.year, now.month, fetch);
      state := DashboardState(Summary(totalPendente, vencidas, totalRecebido, totalDespesas, lucro), chart);
    }
  }

  /** Entry k of the chart is the entry of the month 5 - k months back. */
  lemma ChartEntryAt(y: int, m: int, fetch: Window -> Fetched, k: int)
    requires 0 <= k < 6
    ensures ChartSeries(y, m, fetch)[k] == MonthEntry(MonthsBack(y, m, 5 - k), fetch)
  {
  }

  /** Entry k is labelled with the month 5 - k months before (y, m), and
      the months of consecutive entries are consecutive. */
  lemma ChartMonths(y: int, m: int, fetch: Window -> Fetched, k: int)
    requires 0 <= k < 6
    ensures var t := MonthsBack(y, m, 5 - k);
            ChartSeries(y, m, fetch)[k].name == MonthLabel(t.year, t.month) &&
            MonthOrdinal(t.year, t.month) == MonthOrdinal(y, m) - 5 + k
    ensures k < 5 ==> var t, u := MonthsBack(y, m, 5 - k), MonthsBack(y, m, 4 - k);
                      MonthOrdinal(u.year, u.month) == MonthOrdinal(t.year, t.month) + 1
  {
    ChartEntryAt(y, m, fetch, k);
  }

  /** The last entry is the current month. */
  lemma ChartEndsAtCurrentMonth(y: int, m: int, fetch: Window -> Fetched)
    requires 0 <= m < 12
    ensures ChartSeries(y, m, fetch)[5].name == MonthLabel(y, m)
  {
    var now := MonthsBack(y, m, 0);
    ChartEntryAt(y, m, fetch, 5);
    OrdinalInjective(now.year, now.month, y, m);
  }

  /** Two different entries of a chart carry different labels. */
  lemma ChartNamesDiffer(y: int, m: int, fetch: Window -> Fetched, j: int, k: int)
    requires 0 <= j < k < 6
    ensures ChartSeries(y, m, fetch)[j].name != ChartSeries(y, m, fetch)[k].name
  {
    ChartMonths(y, m, fetch, j);
    ChartMonths(y, m, fetch, k);
    MonthsBackLabelsDistinct(y, m, 5 - j, 5 - k);
  }

  /** The six labels of a chart are pairwise distinct. */
  lemma ChartLabelsDistinct(y: int, m: int, fetch: Window -> Fetched)
    ensures forall j, k :: 0 <= j < k < 6 ==> ChartSeries(y, m, fetch)[j].name != ChartSeries(y, m, fetch)[k].name
  {
    forall j, k | 0 <= j < k < 6
      ensures ChartSeries(y, m, fetch)[j].name != ChartSeries(y, m, fetch)[k].name
    {
      ChartNamesDiffer(y, m, fetch, j, k);
    }
  }

  /** The labels of two of the six months differ. */
  lemma MonthsBackLabelsDistinct(y: int, m: int, i1: int, i2: int)
    requires 0 <= i2 < i1 < 6
    ensures var t1, t2 := MonthsBack(y, m, i1), MonthsBack(y, m, i2);
            MonthLabel(t1.year, t1.month) != MonthLabel(t2.year, t2.month)
  {
    var t1, t2 := MonthsBack(y, m, i1), MonthsBack(y, m, i2);
    MonthLabelsDistinctWithinYear(t1.year, t1.month, t2.year, t2.month);
  }

  /** The queries of `fetch`, except that those for window `bad` fail. */
  function FailingAt(fetch: Window -> Fetched, bad: Window): Window -> Fetched
  {
    (w: Window) => if w == bad then FetchFailed else fetch(w)
  }

  /** When the queries of month j fail, entry j is (label, 0, 0). */
  lemma FailedMonthIsZero(y: int, m: int, fetch: Window -> Fetched, j: int)
    requires 0 <= j < 6
    ensures var t := MonthsBack(y, m, 5 - j);
            ChartSeries(y, m, FailingAt(fetch, SourceMonthWindow(t.year, t.month)))[j] ==
            ChartEntry(MonthLabel(t.year, t.month), 0, 0)
  {
    var t := MonthsBack(y, m, 5 - j);
    ChartEntryAt(y, m, FailingAt(fetch, SourceMonthWindow(t.year, t.month)), j);
  }

  /** When the queries of month j fail, entry k != j is unchanged. */
  lemma OtherMonthUnaffected(y: int, m: int, fetch: Window -> Fetched, j: int, k: int)
    requires 0 <= j < 6 && 0 <= k < 6 && k != j
    ensures var t := MonthsBack(y, m, 5 - j);
            ChartSeries(y, m, FailingAt(fetch, SourceMonthWindow(t.year, t.month)))[k] ==
            ChartSeries(y, m, fetch)[k]
  {
    var t, u := MonthsBack(y, m, 5 - j), MonthsBack(y, m, 5 - k);
    var failing := FailingAt(fetch, SourceMonthWindow(t.year, t.month));
    ChartEntryAt(y, m, failing, k);
    ChartEntryAt(y, m, fetch, k);
    if SourceMonthWindow(u.year, u.month) == SourceMonthWindow(t.year, t.month) {
      SourceMonthWindowInjective(u.year, u.month, t.year, t.month);
    }
    assert failing(SourceMonthWindow(u.year, u.month)) == fetch(SourceMonthWindow(u.year, u.month));
  }

  /** Fault isolation: if the queries of month j fail, entry j becomes
      (label, 0, 0) and every other entry is what it would have been. */
  lemma ChartFaultIsolation(y: int, m: int, fetch: Window -> Fetched, j: int)
    requires 0 <= j < 6
    ensures var t := MonthsBack(y, m, 5 - j);
            var failing := FailingAt(fetch, SourceMonthWindow(t.year, t.month));
            ChartSeries(y, m, failing)[j] == ChartEntry(MonthLabel(t.year, t.month), 0, 0) &&
            forall k :: 0 <= k < 6 && k != j ==> ChartSeries(y, m, failing)[k] == ChartSeries(y, m, fetch)[k]
  {
    FailedMonthIsZero(y, m, fetch, j);
    forall k | 0 <= k < 6 && k != j
      ensures ChartSeries(y, m, FailingAt(fetch, SourceMonthWindow(MonthsBack(y, m, 5 - j).year, MonthsBack(y, m, 5 - j).month)))[k] ==
              ChartSeries(y, m, fetch)[k]
    {
      OtherMonthUnaffected(y, m, fetch, j, k);
    }
  }

  /** With queries answered by the store, the last bar shows the same
      received and spent totals as the current-month cards. */
  lemma CurrentMonthBarMatchesCards(store: Store, now: Timestamp)
    requires Valid(now)
    ensures var s := Summarize(store, now);
            ChartSeries(now.year, now.month, StoreFetch(store))[5] ==
            ChartEntry(MonthLabel(now.year, now.month), s.recebidoNoMes, s.despesasNoMes)
  {
    var t := MonthsBack(now.year, now.month, 0);
    OrdinalInjective(t.year, t.month, now.year, now.month);
  }

  /** With values that are never negative, no card total is negative. */
  lemma SummaryTotalsNonNegative(store: Store, now: Timestamp)
    requires Valid(now)
    requires forall d :: d in store.installments && d.value.Some? ==> d.value.value >= 0
    requires forall e :: e in store.expenses && e.value.Some? ==> e.value.value >= 0
    ensures var s := Summarize(store, now);
            s.totalAReceber >= 0 && s.recebidoNoMes >= 0 && s.despesasNoMes >= 0
  {
    var w := SourceMonthWindow(now.year, now.month);
    FilterSubset(store.installments, IsPending);
    FilterSubset(store.installments, (d: Installment) => IsPaidWithin(d, w));
    FilterSubset(store.expenses, (e: Expense) => IsExpenseWithin(e, w));
    SumValuesNonNegative(PendingInstallments(store), InstallmentValue);
    SumValuesNonNegative(PaidWithin(store, w), InstallmentValue);
    SumValuesNonNegative(ExpensesWithin(store, w), ExpenseValue);
  }

  /** A concrete month: of two pending installments, one due before `now`
      (15 June 2024, noon) and one after, and one paid installment due
      before `now`, the overdue card counts one. */
  lemma OverdueCountExample()
    ensures var now := Timestamp(2024, 5, 15, TimeOfDay(12, 0, 0, 0));
            var store := Store([Installment(Some(1000), Pending, Timestamp(2024, 5, 1, 0), None),
                                Installment(Some(2000), Pending, Timestamp(2024, 5, 20, 0), None),
                                Installment(Some(1500), Paid, Timestamp(2024, 4, 1, 0), Some(Timestamp(2024, 4, 3, 0)))],
                               []);
            Summarize(store, now).parcelasVencidas == 1
  {
    var now := Timestamp(2024, 5, 15, TimeOfDay(12, 0, 0, 0));
    var d1 := Installment(Some(1000), Pending, Timestamp(2024, 5, 1, 0), None);
    var d2 := Installment(Some(2000), Pending, Timestamp(2024, 5, 20, 0), None);
    var d3 := Installment(Some(1500), Paid, Timestamp(2024, 4, 1, 0), Some(Timestamp(2024, 4, 3, 0)));
    var overdue := (d: Installment) => IsOverdue(d, now);
    assert [d1, d2, d3][1..] == [d2, d3] && [d2, d3][1..] == [d3] && [d3][1..] == [];
    assert !overdue(d3) && !overdue(d2) && overdue(d1);
    assert Filter([d3], overdue) == [];
    assert Filter([d2, d3], overdue) == [];
    assert Filter([d1, d2, d3], overdue) == [d1];
  }
}
