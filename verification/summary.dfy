/** The three summary views over all entries, in the base currency: the consolidated
    totals, the twelve-month series of the selected year, and the per-category expense
    breakdown of the selected month. */
module Summary {
  import Seqs
  import opened Ledger

  datatype Totals = Totals(income: real, expense: real, balance: real)

  function OfKind(k: EntryKind): Entry -> bool {
    (e: Entry) => e.kind == k
  }

  /** `consolidatedSummary`: one left-to-right pass that adds each income entry to `income`,
      every other entry to `expense`, and recomputes `balance` after each step. */
  function Consolidate(rates: Rates, es: seq<Entry>): (r: Totals)
    ensures r.balance == r.income - r.expense
    ensures r.income == Total(rates, Seqs.Keep(es, OfKind(Income)))
    ensures r.expense == Total(rates, Seqs.Keep(es, OfKind(Expense)))
  {
    if |es| == 0 then Totals(0.0, 0.0, 0.0)
    else
      var init, last := es[..|es| - 1], es[|es| - 1];
      var acc := Consolidate(rates, init);
      var x := Converted(rates, last);
      KindTotalsStep(rates, es, Income);
      KindTotalsStep(rates, es, Expense);
      if last.kind == Income then
        Totals(acc.income + x, acc.expense, (acc.income + x) - acc.expense)
      else
        Totals(acc.income, acc.expense + x, acc.income - (acc.expense + x))
  }

  /** Adding the last entry to the running totals adds its converted amount to its own
      kind's total only. */
  lemma KindTotalsStep(rates: Rates, es: seq<Entry>, k: EntryKind)
    requires |es| > 0
    ensures var init, last := es[..|es| - 1], es[|es| - 1];
      Total(rates, Seqs.Keep(es, OfKind(k)))
        == Total(rates, Seqs.Keep(init, OfKind(k))) + (if last.kind == k then Converted(rates, last) else 0.0)
  {
    var init, last := es[..|es| - 1], es[|es| - 1];
    var kept := Seqs.Keep(init, OfKind(k));
    if last.kind == k {
      assert Seqs.Keep(es, OfKind(k)) == kept + [last];
      TotalSnoc(rates, kept, last);
    } else {
      assert Seqs.Keep(es, OfKind(k)) == kept;
    }
  }

  /** One bucket of the monthly chart; the month label is presentation. */
  datatype MonthTotals = MonthTotals(month: Month, income: real, expense: real)

  function InYearMonth(year: int, m: Month): Entry -> bool {
    (e: Entry) => e.date.year == year && e.date.month == m
  }

  /** The converted total of entries of kind `k` dated in month `m` of `year`: filtered to
      the month first and to the kind second, as the chart computes it. */
  function BucketTotal(rates: Rates, es: seq<Entry>, year: int, m: Month, k: EntryKind): real {
    Total(rates, Seqs.Keep(Seqs.Keep(es, InYearMonth(year, m)), OfKind(k)))
  }

  /** `monthlySummary`: twelve buckets, January first. */
  function MonthlySeries(rates: Rates, es: seq<Entry>, year: int): (r: seq<MonthTotals>)
    ensures |r| == 12
    ensures forall i :: 0 <= i < 12 ==> r[i].month == i
  {
    seq(12, (i: int) requires 0 <= i < 12 =>
      MonthTotals(i, BucketTotal(rates, es, year, i, Income), BucketTotal(rates, es, year, i, Expense)))
  }

  function Amount(t: MonthTotals, k: EntryKind): real {
    if k == Income then t.income else t.expense
  }

  /** The sum of one column of the chart. */
  function ColumnSum(ms: seq<MonthTotals>, k: EntryKind): real {
    if |ms| == 0 then 0.0 else ColumnSum(ms[..|ms| - 1], k) + Amount(ms[|ms| - 1], k)
  }

  function InYearOfKind(year: int, k: EntryKind): Entry -> bool {
    (e: Entry) => e.date.year == year && e.kind == k
  }

  function InYearBefore(year: int, n: int, k: EntryKind): Entry -> bool {
    (e: Entry) => e.date.year == year && e.date.month < n && e.kind == k
  }

  function InBucket(year: int, m: Month, k: EntryKind): Entry -> bool {
    (e: Entry) => e.date.year == year && e.date.month == m && e.kind == k
  }

  /** A month with no entries in the selected year shows zero income and zero expense. */
  lemma EmptyMonthIsZero(rates: Rates, es: seq<Entry>, year: int, m: Month)
    requires forall e :: e in es ==> !(e.date.year == year && e.date.month == m)
    ensures MonthlySeries(rates, es, year)[m] == MonthTotals(m, 0.0, 0.0)
  {
    Seqs.KeepNone(es, InYearMonth(year, m));
  }

  /** The buckets partition the year: the first `n` buckets of a column add up to the total
      of that kind over the year's entries dated before month `n`. */
  lemma {:induction false} ColumnPrefixSum(rates: Rates, es: seq<Entry>, year: int, k: EntryKind, n: nat)
    requires n <= 12
    ensures ColumnSum(MonthlySeries(rates, es, year)[..n], k)
         == Total(rates, Seqs.Keep(es, InYearBefore(year, n, k)))
  {
    var series := MonthlySeries(rates, es, year);
    if n == 0 {
      TotalOfNothing(rates, es, InYearBefore(year, 0, k));
    } else {
      var m: Month := n - 1;
      ColumnPrefixSum(rates, es, year, k, m);
      assert ColumnSum(series[..n], k) == ColumnSum(series[..m], k) + Amount(series[m], k) by {
        assert series[..n][..m] == series[..m];
      }
      BucketAmount(rates, es, year, m, k);
      TotalSplit(rates, es, InYearBefore(year, n, k), InYearBefore(year, m, k), InBucket(year, m, k));
    }
  }

  /** A bucket's amount is the total of the entries in that year, month and kind. */
  lemma BucketAmount(rates: Rates, es: seq<Entry>, year: int, m: Month, k: EntryKind)
    ensures Amount(MonthlySeries(rates, es, year)[m], k) == Total(rates, Seqs.Keep(es, InBucket(year, m, k)))
  {
    Seqs.KeepKeep(es, InYearMonth(year, m), OfKind(k), InBucket(year, m, k));
  }

  /** Summing a column of the chart gives that kind's total over the selected year. */
  lemma ColumnSumIsYearTotal(rates: Rates, es: seq<Entry>, year: int, k: EntryKind)
    ensures ColumnSum(MonthlySeries(rates, es, year), k)
         == Total(rates, Seqs.Keep(es, InYearOfKind(year, k)))
  {
    var series := MonthlySeries(rates, es, year);
    ColumnPrefixSum(rates, es, year, k, 12);
    assert series[..12] == series;
    TotalCongruent(rates, es, InYearBefore(year, 12, k), InYearOfKind(year, k));
  }

  /** When every entry is dated in the selected year, the chart's columns add up to the
      consolidated income and expense. */
  lemma SeriesAgreesWithTotals(rates: Rates, es: seq<Entry>, year: int)
    requires forall e :: e in es ==> e.date.year == year
    ensures ColumnSum(MonthlySeries(rates, es, year), Income) == Consolidate(rates, es).income
    ensures ColumnSum(MonthlySeries(rates, es, year), Expense) == Consolidate(rates, es).expense
  {
    ColumnSumIsYearTotal(rates, es, year, Income);
    ColumnSumIsYearTotal(rates, es, year, Expense);
    TotalCongruent(rates, es, InYearOfKind(year, Income), OfKind(Income));
    TotalCongruent(rates, es, InYearOfKind(year, Expense), OfKind(Expense));
  }

  /** A slice of the category pie chart. */
  datatype Slice = Slice(name: string, value: real)

  /** The test both the pie chart and the budget table use for "spent in category `cat` in
      the selected month". */
  function SpentIn(cat: string, anchor: Date): Entry -> bool {
    (e: Entry) => e.kind == Expense && e.category == cat
      && e.date.month == anchor.month && e.date.year == anchor.year
  }

  /** Converted expense in `cat` during the selected month. */
  function CategorySpend(rates: Rates, es: seq<Entry>, cat: string, anchor: Date): (r: real)
    ensures (forall i :: 0 <= i < |es| ==> !SpentIn(cat, anchor)(es[i])) ==> r == 0.0
  {
    var kept := Seqs.Keep(es, SpentIn(cat, anchor));
    assert (forall i :: 0 <= i < |es| ==> !SpentIn(cat, anchor)(es[i])) ==> kept == [] by {
      if |kept| > 0 {
        assert kept[0] in es;
      }
    }
    Total(rates, kept)
  }

  function AllSlices(rates: Rates, es: seq<Entry>, anchor: Date): (r: seq<Slice>)
    ensures |r| == |ExpenseCategories|
    ensures forall i :: 0 <= i < |r| ==>
      r[i] == Slice(ExpenseCategories[i], CategorySpend(rates, es, ExpenseCategories[i], anchor))
  {
    seq(|ExpenseCategories|, (i: int) requires 0 <= i < |ExpenseCategories| =>
      Slice(ExpenseCategories[i], CategorySpend(rates, es, ExpenseCategories[i], anchor)))
  }

  function HasSpend(d: Slice): bool {
    d.value > 0.0
  }

  /** `categoryData`: the expense categories with positive spend this month, each with that
      spend; a category with positive spend is never missing. */
  function CategoryBreakdown(rates: Rates, es: seq<Entry>, anchor: Date): (r: seq<Slice>)
    ensures forall k :: 0 <= k < |r| ==>
      && r[k].value > 0.0
      && r[k].name in ExpenseCategories
      && r[k].value == CategorySpend(rates, es, r[k].name, anchor)
    ensures forall c :: c in ExpenseCategories && CategorySpend(rates, es, c, anchor) > 0.0 ==>
      Slice(c, CategorySpend(rates, es, c, anchor)) in r
  {
    var all := AllSlices(rates, es, anchor);
    var r := Seqs.Keep(all, HasSpend);
    assert forall c :: c in ExpenseCategories ==> Slice(c, CategorySpend(rates, es, c, anchor)) in all by {
      forall c | c in ExpenseCategories ensures Slice(c, CategorySpend(rates, es, c, anchor)) in all {
        var i :| 0 <= i < |ExpenseCategories| && ExpenseCategories[i] == c;
        assert all[i] == Slice(c, CategorySpend(rates, es, c, anchor));
      }
    }
    r
  }

  /** The slices follow the fixed category order: slice `k` is category number `pos[k]` for
      strictly increasing positions `pos`, so no category appears twice. */
  lemma BreakdownInCategoryOrder(rates: Rates, es: seq<Entry>, anchor: Date)
    ensures var r := CategoryBreakdown(rates, es, anchor);
      var pos := Seqs.Positions(AllSlices(rates, es, anchor), HasSpend);
      && |pos| == |r|
      && Seqs.Increasing(pos)
      && forall k :: 0 <= k < |r| ==> 0 <= pos[k] < |ExpenseCategories| && r[k].name == ExpenseCategories[pos[k]]
  {
    Seqs.KeepIsStable(AllSlices(rates, es, anchor), HasSpend);
  }

  /** No entries: zero totals, twelve zero buckets and an empty pie chart. */
  lemma EmptyLedger(rates: Rates, year: int, anchor: Date)
    ensures Consolidate(rates, []) == Totals(0.0, 0.0, 0.0)
    ensures forall i :: 0 <= i < 12 ==> MonthlySeries(rates, [], year)[i] == MonthTotals(i, 0.0, 0.0)
    ensures CategoryBreakdown(rates, [], anchor) == []
  {
    assert forall c :: CategorySpend(rates, [], c, anchor) == 0.0;
    Seqs.KeepNone(AllSlices(rates, [], anchor), HasSpend);
  }

  /** A single expense of 100 EUR at a rate of 0.9 EUR per USD counts as 1000/9 USD. */
  lemma MixedCurrencyExample(anchor: Date)
    ensures var e := Entry(1, "Dinner", 100.0, "EUR", "Food", Expense, anchor);
      Consolidate(map["USD" := 1.0, "EUR" := 0.9], [e]).expense == 1000.0 / 9.0
  {
    var e := Entry(1, "Dinner", 100.0, "EUR", "Food", Expense, anchor);
    assert Seqs.Keep([e], OfKind(Expense)) == [e];
  }
}
