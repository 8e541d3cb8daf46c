/** The income and expense pages (client/src/pages/Income.jsx and
    client/src/pages/Expenses.jsx). The two pages are the same code with a
    different transaction type and a different list of predefined
    categories, so they are one view parameterised by a `ViewConfig`. */
module TransactionView {
  import opened Seqs
  import opened Records
  import opened Sorting
  import opened Grouping
  import opened Totals
  import opened TransactionStore

  datatype ViewConfig = ViewConfig(kind: string, predefined: seq<string>)

  const ExpenseView: ViewConfig :=
    ViewConfig(Expense, ["Groceries", "Bills", "Transport", "Entertainment", "Health", "Other"])
  const IncomeView: ViewConfig :=
    ViewConfig(Income, ["Salary", "Freelance", "Investment", "Gift", "Rental", "Other"])

  /** The predefined category whose selection asks for custom text. */
  const OtherChoice: string := "Other"

  // ---------------------------------------------------------------------
  // Loading and category options

  /** The page's list after loading: the listing filtered by the page's type. */
  function Page(cfg: ViewConfig, listing: seq<Entry>): (r: seq<Entry>)
    ensures forall e :: e in r <==> e in listing && e.t.kind == cfg.kind
    ensures forall e :: multiset(r)[e] == if e.t.kind == cfg.kind then multiset(listing)[e] else 0
  {
    FilterKindContents(listing, cfg.kind);
    FilterKind(listing, cfg.kind)
  }

  /** The non-empty categories of `xs` that are not predefined, in order. */
  function CustomCategories(predefined: seq<string>, xs: seq<Entry>): (r: seq<string>)
    ensures forall c :: c in r <==> c != "" && c !in predefined && exists e :: e in xs && e.t.category == c
    decreases |xs|
  {
    if |xs| == 0 then []
    else
      var n := |xs| - 1;
      var c := xs[n].t.category;
      assert xs == xs[..n] + [xs[n]];
      CustomCategories(predefined, xs[..n]) + (if c != "" && c !in predefined then [c] else [])
  }

  /** `allCategories`: the predefined categories followed by the loaded
      custom ones, each once. */
  function CategoryOptions(cfg: ViewConfig, xs: seq<Entry>): (r: seq<string>)
    ensures NoDup(r)
    ensures NoDup(cfg.predefined) ==> |cfg.predefined| <= |r| && r[..|cfg.predefined|] == cfg.predefined
    ensures forall c :: c in r <==> c in cfg.predefined || (c != "" && exists e :: e in xs && e.t.category == c)
  {
    var custom := CustomCategories(cfg.predefined, xs);
    DistinctExtends(cfg.predefined, custom);
    DistinctOfPrefix(cfg.predefined, custom);
    Distinct(cfg.predefined + custom)
  }

  /** Proof step of `CategoryOptions`: a duplicate-free prefix survives
      de-duplication, which keeps exactly the elements. */
  lemma DistinctOfPrefix(p: seq<string>, q: seq<string>)
    ensures NoDup(p) ==> Distinct(p) == p
    ensures forall c :: c in Distinct(p + q) <==> c in p + q
  {
    if NoDup(p) {
      DistinctOfNoDup(p);
    }
    forall c ensures c in Distinct(p + q) <==> c in p + q {
      DistinctHas(p + q, c);
    }
  }

  // ---------------------------------------------------------------------
  // The sorted, optionally grouped list

  datatype Listing = Flat(entries: seq<Entry>) | Grouped(groups: seq<Group>)

  /** `processedExpenses` / `processedIncomes`: the page's list sorted by the
      selected mode, then grouped by category when grouping is on. */
  function Processed(xs: seq<Entry>, sortBy: string, groupByCategory: bool): (r: Listing)
    ensures r.Grouped? <==> groupByCategory
    ensures r.Flat? ==> multiset(r.entries) == multiset(xs) && Sorted(ParseSortBy(sortBy), r.entries)
    ensures r.Grouped? ==>
      && Size(r.groups) == |xs|
      && multiset(Flatten(r.groups)) == multiset(xs)
      && NoDup(GroupKeys(r.groups))
      && GroupKeys(r.groups) == Distinct(KeysOf(Sort(ParseSortBy(sortBy), xs), GroupKey))
      && (forall e :: e in xs ==> GroupKey(e) in GroupKeys(r.groups))
      && (forall g, e :: g in r.groups && e in xs ==> (e in g.items <==> GroupKey(e) == g.key))
      && (forall g :: g in r.groups ==> |g.items| > 0 && Sorted(ParseSortBy(sortBy), g.items))
  {
    var m := ParseSortBy(sortBy);
    if groupByCategory then
      SortedGroups(m, xs);
      Grouped(GroupBy(Sort(m, xs)))
    else
      Flat(Sort(m, xs))
  }

  /** What grouping the sorted list guarantees, stated over the unsorted page. */
  lemma SortedGroups(m: SortMode, xs: seq<Entry>)
    ensures var gs := GroupBy(Sort(m, xs));
      && Size(gs) == |xs|
      && multiset(Flatten(gs)) == multiset(xs)
      && NoDup(GroupKeys(gs))
      && GroupKeys(gs) == Distinct(KeysOf(Sort(m, xs), GroupKey))
      && (forall e :: e in xs ==> GroupKey(e) in GroupKeys(gs))
      && (forall g, e :: g in gs && e in xs ==> (e in g.items <==> GroupKey(e) == g.key))
      && (forall g :: g in gs ==> |g.items| > 0 && Sorted(m, g.items))
  {
    var sorted := Sort(m, xs);
    GroupByCounts(sorted);
    assert |sorted| == |multiset(sorted)| == |multiset(xs)| == |xs|;
    SortedGroupsCover(sorted, xs);
    GroupsKeepOrder(m, sorted);
    GroupByKeys(sorted);
  }

  /** The grouping of a reordering of `xs` partitions `xs` itself. */
  lemma SortedGroupsCover(sorted: seq<Entry>, xs: seq<Entry>)
    requires multiset(sorted) == multiset(xs)
    ensures var gs := GroupBy(sorted);
      && NoDup(GroupKeys(gs))
      && (forall e :: e in xs ==> GroupKey(e) in GroupKeys(gs))
      && (forall g, e :: g in gs && e in xs ==> (e in g.items <==> GroupKey(e) == g.key))
      && (forall g :: g in gs ==> |g.items| > 0)
  {
    var gs := GroupBy(sorted);
    GroupByPartition(sorted);
    forall e | e in xs ensures e in sorted {
      assert e in multiset(sorted);
    }
    forall g | g in gs ensures |g.items| > 0 {
      var i :| 0 <= i < |gs| && gs[i] == g;
    }
    forall g, e | g in gs && e in xs ensures e in g.items <==> GroupKey(e) == g.key {
      var i :| 0 <= i < |gs| && gs[i] == g;
      assert e in sorted;
    }
  }

  // ---------------------------------------------------------------------
  // The chart

  /** The day label of a timestamp must not run backwards in time. */
  ghost predicate Monotone(day: int -> int) {
    forall a, b :: a <= b ==> day(a) <= day(b)
  }

  function DayKey(day: int -> int): Entry -> int {
    (e: Entry) => day(e.t.date)
  }

  /** `getChartData`: the page's list sorted oldest first, then summed per day
      label. A bucket's key is the day label and its total the y value. */
  function ChartData(day: int -> int, xs: seq<Entry>): (c: seq<Bucket<int>>)
    ensures forall d :: TotalAt(c, d) == KeyedSum(xs, DayKey(day), d)
    ensures GrandTotal(c) == AmountSum(xs)
  {
    SortedSums(day, xs);
    Accumulate(Sort(DateAsc, xs), DayKey(day))
  }

  /** Sorting does not change any day's sum, nor the overall sum. */
  lemma SortedSums(day: int -> int, xs: seq<Entry>)
    ensures forall d :: KeyedSum(Sort(DateAsc, xs), DayKey(day), d) == KeyedSum(xs, DayKey(day), d)
    ensures AmountSum(Sort(DateAsc, xs)) == AmountSum(xs)
  {
    var sorted := Sort(DateAsc, xs);
    forall d ensures KeyedSum(sorted, DayKey(day), d) == KeyedSum(xs, DayKey(day), d) {
      KeyedSumPermutation(sorted, xs, DayKey(day), d);
    }
    SumOfPermutation(sorted, xs, Amount);
  }

  /** The labels are the days of the page's transactions, each once. */
  lemma ChartLabels(day: int -> int, xs: seq<Entry>)
    ensures NoDup(BucketKeys(ChartData(day, xs)))
    ensures forall e :: e in xs ==> day(e.t.date) in BucketKeys(ChartData(day, xs))
    ensures forall d :: d in BucketKeys(ChartData(day, xs)) ==> exists e :: e in xs && day(e.t.date) == d
  {
    var sorted := Sort(DateAsc, xs);
    AccumulateKeys(sorted, DayKey(day));
    forall e | e in xs ensures e in sorted {
      assert e in multiset(sorted);
    }
    forall e | e in sorted ensures e in xs {
      assert e in multiset(xs);
    }
  }

  /** The labels run from the oldest day to the newest, whatever order the
      list itself is shown in. */
  lemma ChartChronological(day: int -> int, xs: seq<Entry>)
    requires Monotone(day)
    ensures StrictlyIncreasing(BucketKeys(ChartData(day, xs)))
  {
    var sorted := Sort(DateAsc, xs);
    var ks := KeysOf(sorted, DayKey(day));
    forall i, j | 0 <= i < j < |ks| ensures ks[i] <= ks[j] {
      assert sorted[i].t.date <= sorted[j].t.date;
    }
    DistinctOfNondecreasing(ks);
  }

  /** Each point is the sum of the amounts of that day, and the points add up
      to the page's total. */
  lemma ChartValues(day: int -> int, xs: seq<Entry>)
    ensures var c := ChartData(day, xs);
            forall i :: 0 <= i < |c| ==> c[i].total == KeyedSum(xs, DayKey(day), c[i].key)
    ensures GrandTotal(ChartData(day, xs)) == AmountSum(xs)
  {
    var sorted := Sort(DateAsc, xs);
    var c := ChartData(day, xs);
    ChartLabels(day, xs);
    forall i | 0 <= i < |c| ensures c[i].total == KeyedSum(xs, DayKey(day), c[i].key) {
      TotalOfBucket(c, i);
      KeyedSumPermutation(sorted, xs, DayKey(day), c[i].key);
    }
    SumOfPermutation(sorted, xs, Amount);
  }

  /** The chart depends only on which transactions the page holds, not on
      their order. */
  lemma ChartPermutationInvariant(day: int -> int, xs: seq<Entry>, ys: seq<Entry>)
    requires Monotone(day)
    requires multiset(xs) == multiset(ys)
    ensures ChartData(day, xs) == ChartData(day, ys)
  {
    var a := ChartData(day, xs);
    var b := ChartData(day, ys);
    ChartSameLabels(day, xs, ys);
    ChartValues(day, xs);
    ChartValues(day, ys);
    assert |a| == |BucketKeys(a)| == |BucketKeys(b)| == |b|;
    forall i | 0 <= i < |a| ensures a[i] == b[i] {
      assert BucketKeys(a)[i] == a[i].key && BucketKeys(b)[i] == b[i].key;
      KeyedSumPermutation(xs, ys, DayKey(day), a[i].key);
    }
  }

  /** Reordering the page leaves the labels as they were. */
  lemma ChartSameLabels(day: int -> int, xs: seq<Entry>, ys: seq<Entry>)
    requires Monotone(day)
    requires multiset(xs) == multiset(ys)
    ensures BucketKeys(ChartData(day, xs)) == BucketKeys(ChartData(day, ys))
  {
    var ka := BucketKeys(ChartData(day, xs));
    var kb := BucketKeys(ChartData(day, ys));
    ChartLabels(day, xs);
    ChartLabels(day, ys);
    ChartChronological(day, xs);
    ChartChronological(day, ys);
    forall d ensures d in ka <==> d in kb {
      if d in ka {
        var e :| e in xs && day(e.t.date) == d;
        assert e in multiset(ys);
      }
      if d in kb {
        var e :| e in ys && day(e.t.date) == d;
        assert e in multiset(xs);
      }
    }
    IncreasingUnique(ka, kb);
  }

  /** In particular, the sort mode chosen for the list does not change the chart. */
  lemma ChartIgnoresSortBy(day: int -> int, xs: seq<Entry>, sortBy: string)
    requires Monotone(day)
    ensures ChartData(day, Sort(ParseSortBy(sortBy), xs)) == ChartData(day, xs)
  {
    ChartPermutationInvariant(day, Sort(ParseSortBy(sortBy), xs), xs);
  }

  // ---------------------------------------------------------------------
  // The add / edit form

  const MsPerDay: int := 86_400_000

  /** The form state: `editingId`, `formData` (the date as the UTC day number
      a `YYYY-MM-DD` input holds, `None` while empty), `customCategory` and
      `showCustomCategory`. */
  datatype Form = Form(
    editingId: Option<Id>,
    amount: int,
    category: string,
    description: string,
    day: Option<int>,
    customCategory: string,
    showCustom: bool)

  /** The form after `resetForm`. */
  const BlankForm: Form := Form(None, 0, "", "", None, "", false)

  /** `handleEditClick`: a predefined category is selected as itself; any
      other is shown as `'Other'` with the category as custom text. The date
      becomes its UTC calendar day. A predefined category leaves the custom
      text as it was. */
  function EditClick(cfg: ViewConfig, f: Form, e: Entry): (r: Form)
    ensures r.editingId == Some(e.id)
    ensures r.amount == e.t.amount && r.description == e.t.description
    ensures r.day.Some? && r.day.value * MsPerDay <= e.t.date < (r.day.value + 1) * MsPerDay
    ensures e.t.category in cfg.predefined ==>
      r.category == e.t.category && r.customCategory == f.customCategory && r.showCustom == f.showCustom
    ensures e.t.category !in cfg.predefined ==>
      r.category == OtherChoice && r.customCategory == e.t.category && r.showCustom
  {
    var predefined := e.t.category in cfg.predefined;
    Form(Some(e.id), e.t.amount,
         if predefined then e.t.category else OtherChoice,
         e.t.description,
         Some(e.t.date / MsPerDay),
         if predefined then f.customCategory else e.t.category,
         if predefined then f.showCustom else true)
  }

  /** `dataToSubmit`. */
  datatype Submission = Submission(kind: string, amount: int, category: string, description: string, date: int)

  /** What `handleSubmit` sends: a PUT of the submission while editing, a
      POST otherwise. Every field travels, so every field is present. */
  datatype Request = Post(body: NewTransaction) | Put(id: Id, patch: Patch)

  function Send(editingId: Option<Id>, d: Submission): (r: Request)
    ensures editingId.Some? <==> r.Put?
    ensures r.Put? ==>
      r.id == editingId.value &&
      r.patch == Patch(Some(d.kind), Some(d.amount), Some(d.category), Some(d.description), Some(d.date), None)
    ensures r.Post? ==> r.body == NewTransaction(d.kind, d.amount, d.category, d.description, Some(d.date), None)
  {
    match editingId
    case Some(id) =>
      Put(id, Patch(Some(d.kind), Some(d.amount), Some(d.category), Some(d.description), Some(d.date), None))
    case None =>
      Post(NewTransaction(d.kind, d.amount, d.category, d.description, Some(d.date), None))
  }

  /** `handleSubmit`: `'Other'` stands for the custom text, the type is the
      page's, and an empty date means now. */
  function Submit(cfg: ViewConfig, f: Form, now: int): (d: Submission)
    ensures d.kind == cfg.kind
    ensures d.amount == f.amount && d.description == f.description
    ensures f.category == OtherChoice ==> d.category == f.customCategory
    ensures f.category != OtherChoice ==> d.category == f.category
    ensures f.day.None? ==> d.date == now
    ensures f.day.Some? ==> d.date == f.day.value * MsPerDay
  {
    Submission(
      cfg.kind,
      f.amount,
      if f.category == OtherChoice then f.customCategory else f.category,
      f.description,
      match f.day case Some(dd) => dd * MsPerDay case None => now)
  }

  /** The start of the UTC day holding `t`. */
  function DayStart(t: int): (s: int)
    ensures s <= t < s + MsPerDay && s % MsPerDay == 0
  {
    (t / MsPerDay) * MsPerDay
  }

  /** Editing and submitting with no change gives back the category, except
      a stored `'Other'`, which comes back as whatever custom text the form
      held. The date comes back as the start of its UTC day. */
  lemma EditRoundTrip(cfg: ViewConfig, f: Form, e: Entry, now: int)
    ensures var d := Submit(cfg, EditClick(cfg, f, e), now);
            && d.kind == cfg.kind
            && d.amount == e.t.amount
            && d.description == e.t.description
            && d.date == DayStart(e.t.date)
            && (e.t.category != OtherChoice ==> d.category == e.t.category)
            && (e.t.category == OtherChoice && OtherChoice in cfg.predefined ==> d.category == f.customCategory)
  {
    var r := EditClick(cfg, f, e);
    assert r.day.value == e.t.date / MsPerDay by {
      DivisionIsDay(e.t.date, r.day.value);
    }
  }

  /** Proof step: a timestamp inside day `q`'s milliseconds divides to `q`. */
  lemma DivisionIsDay(t: int, q: int)
    requires q * MsPerDay <= t < (q + 1) * MsPerDay
    ensures q == t / MsPerDay
  {
  }

  /** A stored `'Other'` does not survive edit-then-submit from a reset form:
      the form shows `'Other'`, whose custom text is still empty. */
  lemma OtherDoesNotRoundTrip(cfg: ViewConfig, e: Entry, now: int)
    requires e.t.category == OtherChoice && OtherChoice in cfg.predefined
    ensures Submit(cfg, EditClick(cfg, BlankForm, e), now).category == ""
  {
    EditRoundTrip(cfg, BlankForm, e, now);
  }

  /** The "Add" button: no record is being edited and the fields are
      cleared, but the custom category state is left as it was. */
  function AddClick(f: Form): (r: Form)
    ensures r.editingId.None? && r.day.None?
    ensures r.amount == 0 && r.category == "" && r.description == ""
    ensures r.customCategory == f.customCategory && r.showCustom == f.showCustom
  {
    Form(None, 0, "", "", None, f.customCategory, f.showCustom)
  }

  /** Opening the form for a new record right after `resetForm` gives a
      blank form. */
  lemma AddAfterReset()
    ensures AddClick(BlankForm) == BlankForm
  {
  }

  /** `handleCategoryChange`: the custom text box is shown exactly when
      `'Other'` is chosen. */
  function CategoryChange(f: Form, value: string): (r: Form)
    ensures r.category == value
    ensures r.showCustom <==> value == OtherChoice
    ensures r.editingId == f.editingId && r.amount == f.amount && r.description == f.description
    ensures r.day == f.day && r.customCategory == f.customCategory
  {
    f.(category := value, showCustom := value == OtherChoice)
  }

  /** Choosing a category and submitting sends that category, or the custom
      text when the choice is `'Other'`. */
  lemma ChosenCategorySent(cfg: ViewConfig, f: Form, value: string, now: int)
    ensures var d := Submit(cfg, CategoryChange(f, value), now);
            d.category == if value == OtherChoice then f.customCategory else value
  {
  }

  /** Adding through the form stores a record of the page's type, owned by
      the caller, dated the chosen day or now. */
  lemma SubmitNewCreates(cfg: ViewConfig, f: Form, now: int, s: Store, caller: UserId, newId: Id)
    requires f.editingId.None?
    requires newId !in s
    ensures var req := Send(f.editingId, Submit(cfg, f, now));
            && req.Post?
            && var t := Create(s, caller, newId, now, req.body).store[newId];
            && t.kind == cfg.kind
            && t.userId == caller
            && t.amount == f.amount
            && t.description == f.description
            && t.category == (if f.category == OtherChoice then f.customCategory else f.category)
            && t.date == (if f.day.Some? then f.day.value * MsPerDay else now)
  {
  }

  /** Opening a record of the page's own type for editing and saving it
      unchanged keeps every field but the date, which moves to the start of
      its UTC day. The one exception is a stored `'Other'`, replaced by
      whatever non-empty custom text the form still held. */
  lemma EditSubmitUpdate(cfg: ViewConfig, f: Form, e: Entry, now: int, s: Store, caller: UserId)
    requires e.id in s && s[e.id] == e.t && e.t.userId == caller
    requires e.t.kind == cfg.kind && cfg.kind != ""
    ensures var req := Send(Some(e.id), Submit(cfg, EditClick(cfg, f, e), now));
            && req.Put?
            && var o := Update(s, caller, e.id, req.patch);
            && o.reply == Record(Entry(e.id, o.store[e.id]))
            && o.store == s[e.id := e.t.(
                 date := DayStart(e.t.date),
                 category := if e.t.category == OtherChoice && OtherChoice in cfg.predefined && f.customCategory != ""
                             then f.customCategory else e.t.category)]
  {
    EditRoundTrip(cfg, f, e, now);
  }

  /** After `resetForm` the custom text is empty, so an unchanged edit leaves
      the record as it was apart from the date. */
  lemma EditFromResetKeepsRecord(cfg: ViewConfig, e: Entry, now: int, s: Store, caller: UserId)
    requires e.id in s && s[e.id] == e.t && e.t.userId == caller
    requires e.t.kind == cfg.kind && cfg.kind != ""
    ensures var req := Send(Some(e.id), Submit(cfg, EditClick(cfg, BlankForm, e), now));
            Update(s, caller, e.id, req.patch).store == s[e.id := e.t.(date := DayStart(e.t.date))]
  {
    EditSubmitUpdate(cfg, BlankForm, e, now, s, caller);
  }

  // ---------------------------------------------------------------------
  // The two pages

  /** The expense page offers its six categories first, in order. */
  lemma ExpenseOptions(xs: seq<Entry>)
    ensures |CategoryOptions(ExpenseView, xs)| >= 6
    ensures CategoryOptions(ExpenseView, xs)[..6] == ["Groceries", "Bills", "Transport", "Entertainment", "Health", "Other"]
  {
    assert NoDup(ExpenseView.predefined);
  }

  /** The income page offers its six categories first, in order. */
  lemma IncomeOptions(xs: seq<Entry>)
    ensures |CategoryOptions(IncomeView, xs)| >= 6
    ensures CategoryOptions(IncomeView, xs)[..6] == ["Salary", "Freelance", "Investment", "Gift", "Rental", "Other"]
  {
    assert NoDup(IncomeView.predefined);
  }

  /** Whatever the form holds, the expense page submits an expense and the
      income page an income. */
  lemma SubmitTypes(f: Form, now: int)
    ensures Submit(ExpenseView, f, now).kind == "expense"
    ensures Submit(IncomeView, f, now).kind == "income"
  {
  }

  /** An expense and an income page over the same listing never share a
      transaction. */
  lemma PagesDisjoint(listing: seq<Entry>)
    ensures forall e :: e in Page(ExpenseView, listing) ==> e !in Page(IncomeView, listing)
  {
  }
}
