/** The records the dashboard reads from the document store, the filters its
    queries express, and the reducers it applies to the query results.
    Money is in integer cents. */
module Records {

  import opened Calendar

  datatype Option<T> = None | Some(value: T)

  datatype Status = Pending | Paid

  /** An installment document. `value` is `None` when the field is absent;
      `paidDate` is set when the installment is marked paid. */
  datatype Installment = Installment(value: Option<int>, status: Status,
                                     dueDate: Timestamp, paidDate: Option<Timestamp>)

  datatype Expense = Expense(value: Option<int>, expenseDate: Timestamp)

  /** The two collections the dashboard queries, held in memory. */
  datatype Store = Store(installments: seq<Installment>, expenses: seq<Expense>)

  /** Every date the store holds names a real calendar day. */
  predicate WellFormed(store: Store)
  {
    (forall d :: d in store.installments ==>
       Valid(d.dueDate) && (d.paidDate.Some? ==> Valid(d.paidDate.value))) &&
    (forall e :: e in store.expenses ==> Valid(e.expenseDate))
  }

  // ---------------------------------------------------------------------
  // Filters

  /** The elements of `s` that satisfy `keep`, in their original order. */
  function Filter<T>(s: seq<T>, keep: T -> bool): (r: seq<T>)
    ensures |r| <= |s|
  {
    if s == [] then []
    else (if keep(s[0]) then [s[0]] else []) + Filter(s[1..], keep)
  }

  /** A filter keeps every occurrence of the elements that satisfy `keep`
      and no occurrence of the others. */
  lemma {:induction false} FilterCount<T>(s: seq<T>, keep: T -> bool, x: T)
    ensures multiset(Filter(s, keep))[x] == if keep(x) then multiset(s)[x] else 0
    ensures x in Filter(s, keep) <==> x in s && keep(x)
  {
    if s != [] {
      assert s == [s[0]] + s[1..];
      FilterCount(s[1..], keep, x);
    }
  }

  /** A filter returns only elements of its input. */
  lemma FilterSubset<T>(s: seq<T>, keep: T -> bool)
    ensures forall x :: x in Filter(s, keep) ==> x in s
  {
    forall x | x in Filter(s, keep) {
      FilterCount(s, keep, x);
    }
  }

  /** `Query.equal("status", "pending")`. */
  predicate IsPending(d: Installment)
  {
    d.status == Pending
  }

  /** `Query.equal("status", "pending")` and `Query.lessThan("dueDate", now)`. */
  predicate IsOverdue(d: Installment, now: Timestamp)
  {
    d.status == Pending && Before(d.dueDate, now)
  }

  /** `Query.equal("status", "paid")` and `paidDate` within `w`, both ends
      included. A document without `paidDate` matches no range query. */
  predicate IsPaidWithin(d: Installment, w: Window)
  {
    d.status == Paid && d.paidDate.Some? && InWindow(d.paidDate.value, w)
  }

  /** `expenseDate` within `w`, both ends included. */
  predicate IsExpenseWithin(e: Expense, w: Window)
  {
    InWindow(e.expenseDate, w)
  }

  function PendingInstallments(store: Store): (r: seq<Installment>)
    ensures |r| <= |store.installments|
  {
    Filter(store.installments, IsPending)
  }

  function OverdueInstallments(store: Store, now: Timestamp): (r: seq<Installment>)
    ensures |r| <= |store.installments|
  {
    Filter(store.installments, (d: Installment) => IsOverdue(d, now))
  }

  function PaidWithin(store: Store, w: Window): (r: seq<Installment>)
    ensures |r| <= |store.installments|
  {
    Filter(store.installments, (d: Installment) => IsPaidWithin(d, w))
  }

  function ExpensesWithin(store: Store, w: Window): (r: seq<Expense>)
    ensures |r| <= |store.expenses|
  {
    Filter(store.expenses, (e: Expense) => IsExpenseWithin(e, w))
  }

  /** The overdue query returns exactly the pending installments due
      strictly before `now`, each as often as the store holds it. */
  lemma OverdueExact(store: Store, now: Timestamp, d: Installment)
    ensures d in OverdueInstallments(store, now) <==>
            d in store.installments && d.status == Pending && Before(d.dueDate, now)
    ensures multiset(OverdueInstallments(store, now))[d] ==
            if d.status == Pending && Before(d.dueDate, now) then multiset(store.installments)[d] else 0
  {
    FilterCount(store.installments, (d: Installment) => IsOverdue(d, now), d);
  }

  /** An installment due exactly at `now` is not yet overdue. */
  lemma DueNowNotOverdue(store: Store, now: Timestamp, d: Installment)
    requires d.dueDate == now
    ensures d !in OverdueInstallments(store, now)
  {
    OverdueExact(store, now, d);
  }

  /** With the window of a calendar month, the paid query returns exactly
      the paid installments whose payment date falls in that month. */
  lemma PaidInMonthExact(store: Store, y: int, m: int, d: Installment)
    requires 0 <= m < 12 && WellFormed(store)
    ensures d in PaidWithin(store, MonthWindow(y, m)) <==>
            d in store.installments && d.status == Paid && d.paidDate.Some? &&
            d.paidDate.value.year == y && d.paidDate.value.month == m
  {
    FilterCount(store.installments, (d: Installment) => IsPaidWithin(d, MonthWindow(y, m)), d);
    if d in store.installments && d.paidDate.Some? {
      MonthWindowExact(y, m, d.paidDate.value);
    }
  }

  /** With the window of a calendar month, the expense query returns exactly
      the expenses dated in that month. */
  lemma ExpensesInMonthExact(store: Store, y: int, m: int, e: Expense)
    requires 0 <= m < 12 && WellFormed(store)
    ensures e in ExpensesWithin(store, MonthWindow(y, m)) <==>
            e in store.expenses && e.expenseDate.year == y && e.expenseDate.month == m
  {
    FilterCount(store.expenses, (e: Expense) => IsExpenseWithin(e, MonthWindow(y, m)), e);
    if e in store.expenses {
      MonthWindowExact(y, m, e.expenseDate);
    }
  }

  /** With the window the dashboard builds, the paid query returns the paid
      installments of that month, except those paid after 23:59:59.000 on
      its last day. */
  lemma PaidInSourceMonthExact(store: Store, y: int, m: int, d: Installment)
    requires 0 <= m < 12 && WellFormed(store)
    ensures d in PaidWithin(store, SourceMonthWindow(y, m)) <==>
            d in store.installments && d.status == Paid && d.paidDate.Some? &&
            d.paidDate.value.year == y && d.paidDate.value.month == m &&
            (d.paidDate.value.day < DaysInMonth(y, m) || d.paidDate.value.millis <= TimeOfDay(23, 59, 59, 0))
  {
    FilterCount(store.installments, (d: Installment) => IsPaidWithin(d, SourceMonthWindow(y, m)), d);
    if d in store.installments && d.paidDate.Some? {
      SourceMonthWindowExact(y, m, d.paidDate.value);
    }
  }

  /** With the window the dashboard builds, the expense query returns the
      expenses of that month, except those dated after 23:59:59.000 on its
      last day. */
  lemma ExpensesInSourceMonthExact(store: Store, y: int, m: int, e: Expense)
    requires 0 <= m < 12 && WellFormed(store)
    ensures e in ExpensesWithin(store, SourceMonthWindow(y, m)) <==>
            e in store.expenses && e.expenseDate.year == y && e.expenseDate.month == m &&
            (e.expenseDate.day < DaysInMonth(y, m) || e.expenseDate.millis <= TimeOfDay(23, 59, 59, 0))
  {
    FilterCount(store.expenses, (e: Expense) => IsExpenseWithin(e, SourceMonthWindow(y, m)), e);
    if e in store.expenses {
      SourceMonthWindowExact(y, m, e.expenseDate);
    }
  }

  // ---------------------------------------------------------------------
  // Reducers

  /** `doc.value || 0`: an absent value (or a zero one) contributes 0. */
  function Amount(v: Option<int>): (r: int)
    ensures r == 0 <==> v.None? || v.value == 0
  {
    if v.Some? then v.value else 0
  }

  /** `docs.reduce((sum, doc) => sum + (doc.value || 0), 0)`, a left fold. */
  function SumValues<T>(docs: seq<T>, value: T -> Option<int>): (r: int)
    ensures docs == [] ==> r == 0
  {
    if docs == [] then 0
    else SumValues(docs[..|docs| - 1], value) + Amount(value(docs[|docs| - 1]))
  }

  /** The values that are present, in order. */
  function PresentValues<T>(docs: seq<T>, value: T -> Option<int>): (r: seq<int>)
    ensures |r| <= |docs|
  {
    if docs == [] then []
    else (if value(docs[0]).Some? then [value(docs[0]).value] else []) +
         PresentValues(docs[1..], value)
  }

  function Total(xs: seq<int>): int
  {
    if xs == [] then 0 else xs[0] + Total(xs[1..])
  }

  /** The fold distributes over concatenation. */
  lemma {:induction false} SumValuesAppend<T>(a: seq<T>, b: seq<T>, value: T -> Option<int>)
    ensures SumValues(a + b, value) == SumValues(a, value) + SumValues(b, value)
  {
    if b != [] {
      var ab := a + b;
      assert ab[..|ab| - 1] == a + b[..|b| - 1];
      assert ab[|ab| - 1] == b[|b| - 1];
      SumValuesAppend(a, b[..|b| - 1], value);
    } else {
      assert a + b == a;
    }
  }

  /** The fold equals the plain sum of the values that are present: missing
      values are ignored rather than counted. */
  lemma {:induction false} SumValuesIsTotalOfPresent<T>(docs: seq<T>, value: T -> Option<int>)
    ensures SumValues(docs, value) == Total(PresentValues(docs, value))
  {
    if docs != [] {
      var v, rest := value(docs[0]), docs[1..];
      assert docs == [docs[0]] + rest;
      SumValuesAppend([docs[0]], rest, value);
      assert [docs[0]][..0] == [];
      SumValuesIsTotalOfPresent(rest, value);
      if v.Some? {
        var p := [v.value] + PresentValues(rest, value);
        assert p[1..] == PresentValues(rest, value);
      } else {
        assert [] + PresentValues(rest, value) == PresentValues(rest, value);
      }
    }
  }

  /** A document without a value changes no total, wherever it stands. */
  lemma SumIgnoresMissing<T>(a: seq<T>, d: T, b: seq<T>, value: T -> Option<int>)
    requires value(d).None?
    ensures SumValues(a + [d] + b, value) == SumValues(a + b, value)
  {
    SumValuesExtract(a, d, b, value);
  }

  /** The total does not depend on the order the store returns documents in. */
  lemma {:induction false} SumValuesPermutation<T>(a: seq<T>, b: seq<T>, value: T -> Option<int>)
    requires multiset(a) == multiset(b)
    ensures SumValues(a, value) == SumValues(b, value)
  {
    if a != [] {
      var x := a[|a| - 1];
      assert x in multiset(b);
      var j :| 0 <= j < |b| && b[j] == x;
      var a' := a[..|a| - 1];
      var b' := b[..j] + b[j + 1..];
      assert a == a' + [x];
      assert b == b[..j] + [x] + b[j + 1..];
      assert multiset(a) == multiset(a') + multiset{x};
      assert multiset(b) == multiset(b[..j]) + multiset{x} + multiset(b[j + 1..]);
      assert multiset(b') == multiset(b[..j]) + multiset(b[j + 1..]);
      assert multiset(a') == multiset(a) - multiset{x};
      assert multiset(b') == multiset(b) - multiset{x};
      SumValuesPermutation(a', b', value);
      SumValuesExtract(b[..j], x, b[j + 1..], value);
    } else {
      assert b == [];
    }
  }

  /** A document anywhere in the list contributes its own amount. */
  lemma SumValuesExtract<T>(a: seq<T>, d: T, b: seq<T>, value: T -> Option<int>)
    ensures SumValues(a + [d] + b, value) == SumValues(a + b, value) + Amount(value(d))
  {
    SumValuesAppend(a + [d], b, value);
    SumValuesAppend(a, [d], value);
    SumValuesAppend(a, b, value);
    assert [d][..0] == [];
  }

  /** Values are positive in the app (the forms require at least 0.01), so
      a total is never negative. */
  lemma {:induction false} SumValuesNonNegative<T>(docs: seq<T>, value: T -> Option<int>)
    requires forall d :: d in docs && value(d).Some? ==> value(d).value >= 0
    ensures SumValues(docs, value) >= 0
  {
    if docs != [] {
      assert forall d :: d in docs[..|docs| - 1] ==> d in docs;
      SumValuesNonNegative(docs[..|docs| - 1], value);
    }
  }

  function InstallmentValue(d: Installment): Option<int>
  {
    d.value
  }

  function ExpenseValue(e: Expense): Option<int>
  {
    e.value
  }

  /** `lucro = totalRecebido - totalDespesas`: what was received, less what
      was spent; negative when the month ran at a loss. */
  function NetProfit(received: int, expenses: int): (r: int)
    ensures r + expenses == received
    ensures r < 0 <==> expenses > received
  {
    received - expenses
  }
}
