/** The four list orders of the income and expense pages, and the
    newest-first order of the server's listing. */
module Sorting {
  import opened Seqs
  import opened Records

  datatype SortMode = DateAsc | DateDesc | AmountDesc | AmountAsc

  /** The `switch (sortBy)` of the page comparator: three named modes, and
      newest first for every other value, `'date-desc'` included. */
  function ParseSortBy(sortBy: string): (m: SortMode)
    ensures m == DateAsc <==> sortBy == "date-asc"
    ensures m == AmountDesc <==> sortBy == "amount-desc"
    ensures m == AmountAsc <==> sortBy == "amount-asc"
    ensures m == DateDesc <==> sortBy !in ["date-asc", "amount-desc", "amount-asc"]
  {
    if sortBy == "date-asc" then DateAsc
    else if sortBy == "amount-desc" then AmountDesc
    else if sortBy == "amount-asc" then AmountAsc
    else DateDesc
  }

  /** The comparator handed to `Array.prototype.sort`: negative when `a`
      goes first, positive when `b` does. */
  function Compare(m: SortMode, a: Entry, b: Entry): (r: int)
    ensures m == DateAsc ==> (r <= 0 <==> a.t.date <= b.t.date)
    ensures m == DateDesc ==> (r <= 0 <==> a.t.date >= b.t.date)
    ensures m == AmountAsc ==> (r <= 0 <==> a.t.amount <= b.t.amount)
    ensures m == AmountDesc ==> (r <= 0 <==> a.t.amount >= b.t.amount)
    ensures r == 0 <==> (if m == DateAsc || m == DateDesc then a.t.date == b.t.date else a.t.amount == b.t.amount)
  {
    match m
    case DateAsc => a.t.date - b.t.date
    case AmountDesc => b.t.amount - a.t.amount
    case AmountAsc => a.t.amount - b.t.amount
    case DateDesc => b.t.date - a.t.date
  }

  /** Every pair appears in an order the comparator accepts. */
  ghost predicate Sorted(m: SortMode, s: seq<Entry>) {
    forall i, j :: 0 <= i < j < |s| ==> Compare(m, s[i], s[j]) <= 0
  }

  /** Places `x` before the first element it does not follow. */
  function Insert(m: SortMode, x: Entry, s: seq<Entry>): (r: seq<Entry>)
    ensures multiset(r) == multiset(s) + multiset{x}
    ensures forall y :: y in r <==> y == x || y in s
    decreases |s|
  {
    if |s| == 0 then [x]
    else if Compare(m, x, s[0]) <= 0 then [x] + s
    else
      assert s == [s[0]] + s[1..];
      [s[0]] + Insert(m, x, s[1..])
  }

  lemma {:induction false} InsertSorted(m: SortMode, x: Entry, s: seq<Entry>)
    requires Sorted(m, s)
    ensures Sorted(m, Insert(m, x, s))
    decreases |s|
  {
    if |s| > 0 && Compare(m, x, s[0]) > 0 {
      InsertSorted(m, x, s[1..]);
      var rest := Insert(m, x, s[1..]);
      assert Insert(m, x, s) == [s[0]] + rest;
      forall k | 0 <= k < |rest| ensures Compare(m, s[0], rest[k]) <= 0 {
        if rest[k] != x {
          assert rest[k] in s[1..];
          var j :| 0 <= j < |s[1..]| && s[1..][j] == rest[k];
          assert s[j + 1] == rest[k];
        }
      }
    }
  }

  lemma {:induction false} InsertNoDup(m: SortMode, x: Entry, s: seq<Entry>)
    requires NoDup(s) && x !in s
    ensures NoDup(Insert(m, x, s))
    decreases |s|
  {
    if |s| > 0 && Compare(m, x, s[0]) > 0 {
      InsertNoDup(m, x, s[1..]);
      var rest := Insert(m, x, s[1..]);
      assert s == [s[0]] + s[1..];
      assert s[0] !in s[1..];
      assert multiset(rest)[s[0]] == 0;
    }
  }

  /** Insertion sort: a stable sort, like the engine's. */
  function Sort(m: SortMode, xs: seq<Entry>): (r: seq<Entry>)
    ensures multiset(r) == multiset(xs)
    ensures Sorted(m, r)
    ensures m == DateAsc ==> forall i, j :: 0 <= i < j < |r| ==> r[i].t.date <= r[j].t.date
    ensures m == DateDesc ==> forall i, j :: 0 <= i < j < |r| ==> r[i].t.date >= r[j].t.date
    ensures m == AmountAsc ==> forall i, j :: 0 <= i < j < |r| ==> r[i].t.amount <= r[j].t.amount
    ensures m == AmountDesc ==> forall i, j :: 0 <= i < j < |r| ==> r[i].t.amount >= r[j].t.amount
    decreases |xs|
  {
    if |xs| == 0 then []
    else
      assert xs == [xs[0]] + xs[1..];
      InsertSorted(m, xs[0], Sort(m, xs[1..]));
      Insert(m, xs[0], Sort(m, xs[1..]))
  }
}
