/** Grouping a page's sorted list by category:
    `sorted.reduce((acc, t) => { (acc[key] ||= []).push(t); ... }, {})` with
    the key `t.category || 'Uncategorized'`. The accumulator object is an
    association list whose keys appear in the order they were first
    inserted. */
module Grouping {
  import opened Seqs
  import opened Records
  import opened Sorting

  const Uncategorized: string := "Uncategorized"

  /** `t.category || 'Uncategorized'`. */
  function GroupKey(e: Entry): (k: string)
    ensures k != ""
    ensures e.t.category != "" ==> k == e.t.category
    ensures e.t.category == "" ==> k == Uncategorized
  {
    if e.t.category == "" then Uncategorized else e.t.category
  }

  datatype Group = Group(key: string, items: seq<Entry>)

  /** `Object.keys(acc)`. */
  function GroupKeys(gs: seq<Group>): (ks: seq<string>)
    ensures |ks| == |gs| && forall i :: 0 <= i < |gs| ==> ks[i] == gs[i].key
    decreases |gs|
  {
    if |gs| == 0 then [] else [gs[0].key] + GroupKeys(gs[1..])
  }

  /** `acc[k] || []`. */
  function ItemsAt(gs: seq<Group>, k: string): seq<Entry>
    decreases |gs|
  {
    if |gs| == 0 then []
    else if gs[0].key == k then gs[0].items
    else ItemsAt(gs[1..], k)
  }

  /** All groups' items, group after group. */
  function Flatten(gs: seq<Group>): seq<Entry>
    decreases |gs|
  {
    if |gs| == 0 then [] else gs[0].items + Flatten(gs[1..])
  }

  /** The number of items over all groups. */
  function Size(gs: seq<Group>): nat
    decreases |gs|
  {
    if |gs| == 0 then 0 else |gs[0].items| + Size(gs[1..])
  }

  /** The entries with group key `k`, in their order in `xs`. */
  function WithKey(xs: seq<Entry>, k: string): (r: seq<Entry>)
    ensures forall e :: e in r <==> e in xs && GroupKey(e) == k
    decreases |xs|
  {
    if |xs| == 0 then []
    else
      var n := |xs| - 1;
      assert xs == xs[..n] + [xs[n]];
      WithKey(xs[..n], k) + (if GroupKey(xs[n]) == k then [xs[n]] else [])
  }

  /** Proof step: the keys of a group list with one more group in front. */
  lemma GroupKeysCons(g: Group, gs: seq<Group>)
    ensures GroupKeys([g] + gs) == [g.key] + GroupKeys(gs)
  {
  }

  /** `acc[key].push(e)`, opening the group at the end when `key` is new. */
  function Push(gs: seq<Group>, e: Entry): (r: seq<Group>)
    ensures GroupKeys(r) ==
      if GroupKey(e) in GroupKeys(gs) then GroupKeys(gs) else GroupKeys(gs) + [GroupKey(e)]
    ensures forall k :: ItemsAt(r, k) == ItemsAt(gs, k) + (if k == GroupKey(e) then [e] else [])
    ensures Size(r) == Size(gs) + 1
    ensures multiset(Flatten(r)) == multiset(Flatten(gs)) + multiset{e}
    decreases |gs|
  {
    var k := GroupKey(e);
    if |gs| == 0 then
      var r := [Group(k, [e])];
      assert Flatten(r) == [e] + Flatten([]);
      r
    else
      assert gs == [gs[0]] + gs[1..];
      GroupKeysCons(gs[0], gs[1..]);
      if gs[0].key == k then
        var r := [Group(k, gs[0].items + [e])] + gs[1..];
        GroupKeysCons(r[0], gs[1..]);
        assert r[1..] == gs[1..];
        r
      else
        var rest := Push(gs[1..], e);
        var r := [gs[0]] + rest;
        GroupKeysCons(gs[0], rest);
        assert r[1..] == rest;
        r
  }

  /** The grouping of `xs`: one group per distinct key, in order of first
      occurrence, each holding exactly the entries with that key in their
      order in `xs`. */
  function GroupBy(xs: seq<Entry>): (gs: seq<Group>)
    ensures forall k :: ItemsAt(gs, k) == WithKey(xs, k)
    decreases |xs|
  {
    if |xs| == 0 then [] else Push(GroupBy(xs[..|xs| - 1]), xs[|xs| - 1])
  }

  /** The groups appear in the order their keys first occur in `xs`. */
  lemma {:induction false} GroupByKeys(xs: seq<Entry>)
    ensures GroupKeys(GroupBy(xs)) == Distinct(KeysOf(xs, GroupKey))
    decreases |xs|
  {
    if |xs| > 0 {
      var n := |xs| - 1;
      GroupByKeys(xs[..n]);
      assert KeysOf(xs, GroupKey)[..n] == KeysOf(xs[..n], GroupKey);
    }
  }

  /** Grouping neither drops nor duplicates an entry: the group sizes add up
      to the input length and the groups together hold the input's entries. */
  lemma {:induction false} GroupByCounts(xs: seq<Entry>)
    ensures Size(GroupBy(xs)) == |xs|
    ensures multiset(Flatten(GroupBy(xs))) == multiset(xs)
    decreases |xs|
  {
    if |xs| > 0 {
      var n := |xs| - 1;
      GroupByCounts(xs[..n]);
      var prev := GroupBy(xs[..n]);
      assert GroupBy(xs) == Push(prev, xs[n]);
      MultisetLast(xs);
    }
  }

  /** With distinct keys, each group holds the items of its own key. */
  lemma {:induction false} ItemsOfGroup(gs: seq<Group>, i: int)
    requires NoDup(GroupKeys(gs))
    requires 0 <= i < |gs|
    ensures gs[i].items == ItemsAt(gs, gs[i].key)
    decreases |gs|
  {
    if i > 0 {
      assert gs == [gs[0]] + gs[1..];
      GroupKeysCons(gs[0], gs[1..]);
      assert GroupKeys(gs)[0] != GroupKeys(gs)[i];
      assert GroupKeys(gs[1..]) == GroupKeys(gs)[1..];
      ItemsOfGroup(gs[1..], i - 1);
    }
  }

  /** Group `i` of the grouping is exactly the entries of its key, and is
      not empty. */
  lemma GroupAt(xs: seq<Entry>, i: int)
    requires 0 <= i < |GroupBy(xs)|
    ensures GroupBy(xs)[i].items == WithKey(xs, GroupBy(xs)[i].key)
    ensures |GroupBy(xs)[i].items| > 0
  {
    var gs := GroupBy(xs);
    var ks := KeysOf(xs, GroupKey);
    GroupByKeys(xs);
    ItemsOfGroup(gs, i);
    assert GroupKeys(gs)[i] == gs[i].key;
    var j :| 0 <= j < |ks| && ks[j] == gs[i].key;
    assert xs[j] in WithKey(xs, gs[i].key);
  }

  /** Every entry is in exactly one group: the one named by its key. No
      group is empty, and each group is exactly the entries of its key, in
      their order in `xs`. */
  lemma GroupByPartition(xs: seq<Entry>)
    ensures var gs := GroupBy(xs);
            && NoDup(GroupKeys(gs))
            && (forall i :: 0 <= i < |gs| ==> gs[i].items == WithKey(xs, gs[i].key) && |gs[i].items| > 0)
            && (forall e, i :: e in xs && 0 <= i < |gs| ==> (e in gs[i].items <==> gs[i].key == GroupKey(e)))
            && (forall e :: e in xs ==> GroupKey(e) in GroupKeys(gs))
  {
    var gs := GroupBy(xs);
    GroupByKeys(xs);
    forall i | 0 <= i < |gs|
      ensures gs[i].items == WithKey(xs, gs[i].key) && |gs[i].items| > 0
    {
      GroupAt(xs, i);
    }
    forall e | e in xs ensures GroupKey(e) in GroupKeys(gs) {
      var ks := KeysOf(xs, GroupKey);
      var j :| 0 <= j < |xs| && xs[j] == e;
      assert ks[j] == GroupKey(e);
    }
  }

  /** Filtering a sorted list keeps it sorted. */
  lemma {:induction false} WithKeySorted(m: SortMode, xs: seq<Entry>, k: string)
    requires Sorted(m, xs)
    ensures Sorted(m, WithKey(xs, k))
    decreases |xs|
  {
    if |xs| > 0 {
      var n := |xs| - 1;
      var p := xs[..n];
      SortedPrefix(m, xs);
      WithKeySorted(m, p, k);
      var w := WithKey(p, k);
      assert WithKey(xs, k) == w + (if GroupKey(xs[n]) == k then [xs[n]] else []);
      if GroupKey(xs[n]) == k {
        forall y | y in w ensures Compare(m, y, xs[n]) <= 0 {
          SortedBeforeLast(m, xs, y);
        }
        SortedAppend(m, w, xs[n]);
      } else {
        assert w + [] == w;
      }
    }
  }

  /** Proof step: dropping the last entry keeps a list sorted. */
  lemma SortedPrefix(m: SortMode, xs: seq<Entry>)
    requires |xs| > 0 && Sorted(m, xs)
    ensures Sorted(m, xs[..|xs| - 1])
  {
    var p := xs[..|xs| - 1];
    forall i, j | 0 <= i < j < |p| ensures Compare(m, p[i], p[j]) <= 0 {
      assert p[i] == xs[i] && p[j] == xs[j];
    }
  }

  /** Proof step: in a sorted list, every entry before the last compares at
      most equal to it. */
  lemma SortedBeforeLast(m: SortMode, xs: seq<Entry>, y: Entry)
    requires |xs| > 0 && Sorted(m, xs)
    requires y in xs[..|xs| - 1]
    ensures Compare(m, y, xs[|xs| - 1]) <= 0
  {
    var n := |xs| - 1;
    var h :| 0 <= h < n && xs[..n][h] == y;
    assert xs[h] == y;
  }

  /** Proof step: appending an entry that no element follows keeps a list
      sorted. */
  lemma SortedAppend(m: SortMode, w: seq<Entry>, x: Entry)
    requires Sorted(m, w)
    requires forall y :: y in w ==> Compare(m, y, x) <= 0
    ensures Sorted(m, w + [x])
  {
    var r := w + [x];
    forall i, j | 0 <= i < j < |r| ensures Compare(m, r[i], r[j]) <= 0 {
      assert r[i] == w[i] && w[i] in w;
      if j < |w| {
        assert r[j] == w[j];
      }
    }
  }

  /** Grouping a sorted list gives sorted groups. */
  lemma GroupsKeepOrder(m: SortMode, xs: seq<Entry>)
    requires Sorted(m, xs)
    ensures forall g :: g in GroupBy(xs) ==> Sorted(m, g.items)
  {
    GroupByPartition(xs);
    var gs := GroupBy(xs);
    forall g | g in gs ensures Sorted(m, g.items) {
      var i :| 0 <= i < |gs| && gs[i] == g;
      WithKeySorted(m, xs, g.key);
    }
  }
}
