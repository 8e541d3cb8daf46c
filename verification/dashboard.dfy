/** The dashboard (client/src/pages/Dashboard.jsx): the income and expense
    totals of the pie chart and the per-category expense totals of the bar
    chart, over the caller's whole listing. */
module Dashboard {
  import opened Seqs
  import opened Records
  import opened Totals
  import opened TransactionView

  /** The bar chart's name for an expense without a category. */
  const OtherCategory: string := "Other"

  /** `t.category || 'Other'`. */
  function CategoryKey(e: Entry): (k: string)
    ensures k != ""
    ensures e.t.category != "" ==> k == e.t.category
    ensures e.t.category == "" ==> k == OtherCategory
  {
    if e.t.category == "" then OtherCategory else e.t.category
  }

  /** The stored category itself. */
  function CategoryOf(e: Entry): string {
    e.t.category
  }

  /** `categoryTotals`: the expenses summed per category, categories in the
      order they first occur. */
  function CategoryTotals(xs: seq<Entry>): (c: seq<Bucket<string>>)
    ensures forall k :: TotalAt(c, k) == KeyedSum(FilterKind(xs, Expense), CategoryKey, k)
    ensures GrandTotal(c) == SumOf(xs, KindAmount(Expense))
  {
    FilterKindSum(xs, Expense);
    Accumulate(FilterKind(xs, Expense), CategoryKey)
  }

  /** A record's amount when it has the type, 0 otherwise: the pie's
      summand for that type, taken over the whole listing. */
  function KindAmount(kind: string): Entry -> int {
    (e: Entry) => if e.t.kind == kind then e.t.amount else 0
  }

  datatype DashboardView =
    | Welcome                        // nothing recorded yet
    | Overview(totalIncome: int, totalExpense: int, byCategory: seq<Bucket<string>>)

  /** What the page shows for the loaded listing: the welcome card when the
      listing is empty, the two charts otherwise. */
  function Render(xs: seq<Entry>): (v: DashboardView)
    ensures v.Welcome? <==> |xs| == 0
    ensures v.Overview? ==> v.byCategory == CategoryTotals(xs)
  {
    if |xs| == 0 then Welcome
    else Overview(AmountSum(FilterKind(xs, Income)), AmountSum(FilterKind(xs, Expense)), CategoryTotals(xs))
  }

  /** The pie's two values are the sums of the listing's incomes and of its
      expenses. */
  lemma PieValues(xs: seq<Entry>)
    requires |xs| > 0
    ensures Render(xs).totalIncome == SumOf(xs, KindAmount(Income))
    ensures Render(xs).totalExpense == SumOf(xs, KindAmount(Expense))
  {
    FilterKindSum(xs, Income);
    FilterKindSum(xs, Expense);
  }

  /** Summing the filtered records is summing the amounts of that type over
      the whole listing. */
  lemma {:induction false} FilterKindSum(xs: seq<Entry>, kind: string)
    ensures AmountSum(FilterKind(xs, kind)) == SumOf(xs, KindAmount(kind))
    decreases |xs|
  {
    var f := KindAmount(kind);
    if |xs| == 0 {
      assert FilterKind(xs, kind) == [];
    } else {
      var n := |xs| - 1;
      var p := FilterKind(xs[..n], kind);
      FilterKindSum(xs[..n], kind);
      FilterKindLast(xs, kind);
      assert SumOf(xs, f) == SumOf(xs[..n], f) + f(xs[n]);
      if xs[n].t.kind == kind {
        var r := p + [xs[n]];
        assert r[..|r| - 1] == p;
        assert AmountSum(r) == AmountSum(p) + f(xs[n]);
      } else {
        assert p + [] == p;
        assert AmountSum(FilterKind(xs, kind)) == AmountSum(p) + f(xs[n]);
      }
    }
  }

  /** When every record is an income or an expense, the pie covers all of
      the listing's amounts. */
  lemma {:induction false} PieCoversAll(xs: seq<Entry>)
    requires forall i :: 0 <= i < |xs| ==> xs[i].t.kind == Income || xs[i].t.kind == Expense
    ensures AmountSum(FilterKind(xs, Income)) + AmountSum(FilterKind(xs, Expense)) == AmountSum(xs)
    decreases |xs|
  {
    if |xs| > 0 {
      var n := |xs| - 1;
      PieCoversAll(xs[..n]);
      var ti := if xs[n].t.kind == Income then [xs[n]] else [];
      var te := if xs[n].t.kind == Expense then [xs[n]] else [];
      SumOfConcat(FilterKind(xs[..n], Income), ti, Amount);
      SumOfConcat(FilterKind(xs[..n], Expense), te, Amount);
      assert SumOf(ti, Amount) + SumOf(te, Amount) == xs[n].t.amount by {
        assert [xs[n]][..0] == [];
      }
    }
  }

  /** The bars: each holds the sum of its category's expense amounts, an
      uncategorized expense counting under `'Other'`, and the bars add up to
      the pie's expense value. */
  lemma CategoryBars(xs: seq<Entry>)
    ensures forall i :: 0 <= i < |CategoryTotals(xs)| ==>
              CategoryTotals(xs)[i].total == KeyedSum(FilterKind(xs, Expense), CategoryKey, CategoryTotals(xs)[i].key)
    ensures GrandTotal(CategoryTotals(xs)) == AmountSum(FilterKind(xs, Expense))
  {
    var ex := FilterKind(xs, Expense);
    BarTotals(ex);
    CategoryTotalsUnfold(xs, ex);
  }

  /** `categoryTotals` accumulates over the expense subset. */
  lemma CategoryTotalsUnfold(xs: seq<Entry>, ex: seq<Entry>)
    requires ex == FilterKind(xs, Expense)
    ensures CategoryTotals(xs) == Accumulate(ex, CategoryKey)
  {
  }

  /** Proof step of `CategoryBars`: the per-bucket sums over the expenses. */
  lemma BarTotals(ex: seq<Entry>)
    ensures var c := Accumulate(ex, CategoryKey);
            forall i :: 0 <= i < |c| ==> c[i].total == KeyedSum(ex, CategoryKey, c[i].key)
  {
    AccumulateTotals(ex, CategoryKey);
  }

  /** One bar per category of the listing's expenses, each once: every
      expense's category has a bar, and every bar has a contributing
      expense. */
  lemma CategoryLabels(xs: seq<Entry>)
    ensures var c := CategoryTotals(xs);
            && NoDup(BucketKeys(c))
            && (forall e :: e in xs && e.t.kind == Expense ==> CategoryKey(e) in BucketKeys(c))
            && (forall k :: k in BucketKeys(c) ==> exists e :: e in xs && e.t.kind == Expense && CategoryKey(e) == k)
  {
    var ex := FilterKind(xs, Expense);
    AccumulateKeys(ex, CategoryKey);
    FilterKindHas(xs, Expense);
  }

  /** The `'Other'` bar merges expenses filed under `'Other'` with
      expenses that have no category. */
  lemma {:induction false} OtherMergesUncategorized(ex: seq<Entry>)
    ensures KeyedSum(ex, CategoryKey, OtherCategory)
         == KeyedSum(ex, CategoryOf, OtherCategory) + KeyedSum(ex, CategoryOf, "")
    decreases |ex|
  {
    if |ex| > 0 {
      var n := |ex| - 1;
      var x := ex[n];
      OtherMergesUncategorized(ex[..n]);
      assert KeyedSum(ex, CategoryKey, OtherCategory)
          == KeyedSum(ex[..n], CategoryKey, OtherCategory) + (if CategoryKey(x) == OtherCategory then x.t.amount else 0);
      assert KeyedSum(ex, CategoryOf, OtherCategory)
          == KeyedSum(ex[..n], CategoryOf, OtherCategory) + (if CategoryOf(x) == OtherCategory then x.t.amount else 0);
      assert KeyedSum(ex, CategoryOf, "")
          == KeyedSum(ex[..n], CategoryOf, "") + (if CategoryOf(x) == "" then x.t.amount else 0);
    }
  }

  /** The `'Other'` bar's height, read from the bar chart itself. */
  lemma OtherBar(xs: seq<Entry>)
    ensures var ex := FilterKind(xs, Expense);
            TotalAt(CategoryTotals(xs), OtherCategory)
              == KeyedSum(ex, CategoryOf, OtherCategory) + KeyedSum(ex, CategoryOf, "")
  {
    OtherMergesUncategorized(FilterKind(xs, Expense));
  }

  /** Records that are not expenses never move a bar, wherever they sit in
      the listing. */
  lemma NonExpensesIgnored(a: seq<Entry>, ys: seq<Entry>, b: seq<Entry>)
    requires forall i :: 0 <= i < |ys| ==> ys[i].t.kind != Expense
    ensures CategoryTotals(a + ys + b) == CategoryTotals(a + b)
  {
    FilterKindConcat(a + ys, b, Expense);
    FilterKindConcat(a, ys, Expense);
    FilterKindConcat(a, b, Expense);
    FilterKindNone(ys, Expense);
    assert FilterKind(a, Expense) + [] == FilterKind(a, Expense);
  }

  /** The dashboard agrees with the expense page: the page's chart, the
      bars and the pie all add up to the same total. */
  lemma AgreesWithExpensePage(day: int -> int, xs: seq<Entry>)
    requires |xs| > 0
    ensures Render(xs).totalExpense == GrandTotal(ChartData(day, Page(ExpenseView, xs)))
    ensures Render(xs).totalExpense == GrandTotal(Render(xs).byCategory)
  {
    ChartValues(day, Page(ExpenseView, xs));
  }

  /** The dashboard agrees with the income page's chart. */
  lemma AgreesWithIncomePage(day: int -> int, xs: seq<Entry>)
    requires |xs| > 0
    ensures Render(xs).totalIncome == GrandTotal(ChartData(day, Page(IncomeView, xs)))
  {
    ChartValues(day, Page(IncomeView, xs));
  }

  /** `incomes` and `expenses` are exactly the records of their type, so a
      record of any other type is in neither; a type with no record totals
      0. */
  lemma PieSubsets(xs: seq<Entry>)
    ensures forall e :: e in FilterKind(xs, Income) <==> e in xs && e.t.kind == Income
    ensures forall e :: e in FilterKind(xs, Expense) <==> e in xs && e.t.kind == Expense
    ensures (forall i :: 0 <= i < |xs| ==> xs[i].t.kind != Income) ==> AmountSum(FilterKind(xs, Income)) == 0
    ensures (forall i :: 0 <= i < |xs| ==> xs[i].t.kind != Expense) ==> AmountSum(FilterKind(xs, Expense)) == 0
  {
    FilterKindHas(xs, Income);
    FilterKindHas(xs, Expense);
    if forall i :: 0 <= i < |xs| ==> xs[i].t.kind != Income {
      FilterKindNone(xs, Income);
    }
    if forall i :: 0 <= i < |xs| ==> xs[i].t.kind != Expense {
      FilterKindNone(xs, Expense);
    }
  }
}
