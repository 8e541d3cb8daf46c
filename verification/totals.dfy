/** Per-key totals in key-insertion order: the
    `reduce((acc, t) => { acc[k] = (acc[k] || 0) + t.amount; ... }, {})`
    shared by the pages' date chart and the dashboard's category chart. The
    accumulator object is an association list whose keys appear in the order
    they were first inserted. */
module Totals {
  import opened Seqs
  import opened Records

  datatype Bucket<K> = Bucket(key: K, total: int)

  /** `Object.keys(acc)`. */
  function BucketKeys<K>(bs: seq<Bucket<K>>): (ks: seq<K>)
    ensures |ks| == |bs| && forall i :: 0 <= i < |bs| ==> ks[i] == bs[i].key
    decreases |bs|
  {
    if |bs| == 0 then [] else [bs[0].key] + BucketKeys(bs[1..])
  }

  /** `acc[k] || 0`. */
  function TotalAt<K(==)>(bs: seq<Bucket<K>>, k: K): int
    decreases |bs|
  {
    if |bs| == 0 then 0
    else if bs[0].key == k then bs[0].total
    else TotalAt(bs[1..], k)
  }

  /** The sum of `Object.values(acc)`. */
  function GrandTotal<K>(bs: seq<Bucket<K>>): int
    decreases |bs|
  {
    if |bs| == 0 then 0 else bs[0].total + GrandTotal(bs[1..])
  }

  /** The amounts of the entries whose key is `k`, summed. */
  function KeyedSum<K(==)>(xs: seq<Entry>, key: Entry -> K, k: K): int {
    SumOf(xs, (e: Entry) => if key(e) == k then e.t.amount else 0)
  }

  /** Proof step: the keys of a bucket list with one more bucket in front. */
  lemma BucketKeysCons<K>(b: Bucket<K>, bs: seq<Bucket<K>>)
    ensures BucketKeys([b] + bs) == [b.key] + BucketKeys(bs)
  {
  }

  /** `acc[k] = (acc[k] || 0) + a`: adds to the bucket of `k`, or opens one at
      the end. */
  function Add<K(==,!new)>(bs: seq<Bucket<K>>, k: K, a: int): (r: seq<Bucket<K>>)
    ensures BucketKeys(r) == if k in BucketKeys(bs) then BucketKeys(bs) else BucketKeys(bs) + [k]
    ensures forall k' :: TotalAt(r, k') == TotalAt(bs, k') + (if k' == k then a else 0)
    ensures GrandTotal(r) == GrandTotal(bs) + a
    decreases |bs|
  {
    if |bs| == 0 then [Bucket(k, a)]
    else
      assert bs == [bs[0]] + bs[1..];
      BucketKeysCons(bs[0], bs[1..]);
      if bs[0].key == k then
        var r := [Bucket(k, bs[0].total + a)] + bs[1..];
        BucketKeysCons(r[0], bs[1..]);
        assert r[1..] == bs[1..];
        r
      else
        var rest := Add(bs[1..], k, a);
        var r := [bs[0]] + rest;
        BucketKeysCons(bs[0], rest);
        assert r[1..] == rest;
        r
  }

  /** The accumulation over `xs`: one bucket per distinct key, in order of
      first occurrence, each holding the sum of that key's amounts. */
  function Accumulate<K(==,!new)>(xs: seq<Entry>, key: Entry -> K): (bs: seq<Bucket<K>>)
    ensures BucketKeys(bs) == Distinct(KeysOf(xs, key))
    ensures forall k :: TotalAt(bs, k) == KeyedSum(xs, key, k)
    ensures GrandTotal(bs) == AmountSum(xs)
    decreases |xs|
  {
    if |xs| == 0 then []
    else
      var n := |xs| - 1;
      var prev := Accumulate(xs[..n], key);
      BucketKeysAddLast(xs, key, prev);
      TotalsAddLast(xs, key, prev);
      Add(prev, key(xs[n]), xs[n].t.amount)
  }

  /** Proof step of `Accumulate`, for the totals: adding the last entry to
      the buckets of the others gives every key's sum over the whole list. */
  lemma TotalsAddLast<K(!new)>(xs: seq<Entry>, key: Entry -> K, prev: seq<Bucket<K>>)
    requires |xs| > 0
    requires forall k :: TotalAt(prev, k) == KeyedSum(xs[..|xs| - 1], key, k)
    ensures forall k :: TotalAt(Add(prev, key(xs[|xs| - 1]), xs[|xs| - 1].t.amount), k) == KeyedSum(xs, key, k)
  {
    forall k ensures TotalAt(Add(prev, key(xs[|xs| - 1]), xs[|xs| - 1].t.amount), k) == KeyedSum(xs, key, k) {
      TotalAtAddLast(xs, key, prev, k);
    }
  }

  /** Proof step of `Accumulate`, for the keys. */
  lemma BucketKeysAddLast<K(!new)>(xs: seq<Entry>, key: Entry -> K, prev: seq<Bucket<K>>)
    requires |xs| > 0
    ensures BucketKeys(prev) == Distinct(KeysOf(xs[..|xs| - 1], key)) ==>
              BucketKeys(Add(prev, key(xs[|xs| - 1]), xs[|xs| - 1].t.amount)) == Distinct(KeysOf(xs, key))
  {
    AccumulateStep(xs, key);
  }

  /** Proof step of `TotalsAddLast`, for one key. */
  lemma TotalAtAddLast<K(!new)>(xs: seq<Entry>, key: Entry -> K, prev: seq<Bucket<K>>, k: K)
    requires |xs| > 0
    requires TotalAt(prev, k) == KeyedSum(xs[..|xs| - 1], key, k)
    ensures TotalAt(Add(prev, key(xs[|xs| - 1]), xs[|xs| - 1].t.amount), k) == KeyedSum(xs, key, k)
  {
    KeyedSumLast(xs, key, k);
  }

  /** Proof step of `Accumulate`: the keys, the per-key sums and the overall
      sum of `xs` extend those of all but its last entry. */
  lemma AccumulateStep<K>(xs: seq<Entry>, key: Entry -> K)
    requires |xs| > 0
    ensures var n := |xs| - 1;
            Distinct(KeysOf(xs, key))
              == var d := Distinct(KeysOf(xs[..n], key)); if key(xs[n]) in d then d else d + [key(xs[n])]
    ensures AmountSum(xs) == AmountSum(xs[..|xs| - 1]) + xs[|xs| - 1].t.amount
  {
    var n := |xs| - 1;
    var ks := KeysOf(xs, key);
    assert ks[..n] == KeysOf(xs[..n], key);
  }

  /** Proof step: one key's sum over `xs` is its sum over all but the last
      entry, plus the last entry's amount when it has that key. */
  lemma KeyedSumLast<K>(xs: seq<Entry>, key: Entry -> K, k: K)
    requires |xs| > 0
    ensures KeyedSum(xs, key, k)
         == KeyedSum(xs[..|xs| - 1], key, k) + (if key(xs[|xs| - 1]) == k then xs[|xs| - 1].t.amount else 0)
  {
  }

  /** With distinct keys, each bucket holds the total of its own key. */
  lemma {:induction false} TotalOfBucket<K>(bs: seq<Bucket<K>>, i: int)
    requires NoDup(BucketKeys(bs))
    requires 0 <= i < |bs|
    ensures bs[i].total == TotalAt(bs, bs[i].key)
    decreases |bs|
  {
    if i > 0 {
      assert bs == [bs[0]] + bs[1..];
      BucketKeysCons(bs[0], bs[1..]);
      assert BucketKeys(bs)[0] != BucketKeys(bs)[i];
      assert BucketKeys(bs[1..]) == BucketKeys(bs)[1..];
      TotalOfBucket(bs[1..], i - 1);
    }
  }

  /** A sum over keyed amounts does not depend on the order of the entries. */
  lemma KeyedSumPermutation<K>(xs: seq<Entry>, ys: seq<Entry>, key: Entry -> K, k: K)
    requires multiset(xs) == multiset(ys)
    ensures KeyedSum(xs, key, k) == KeyedSum(ys, key, k)
  {
    SumOfPermutation(xs, ys, (e: Entry) => if key(e) == k then e.t.amount else 0);
  }

  /** Every entry's key has a bucket, and every bucket's key is some entry's. */
  lemma AccumulateKeys<K(!new)>(xs: seq<Entry>, key: Entry -> K)
    ensures forall e :: e in xs ==> key(e) in BucketKeys(Accumulate(xs, key))
    ensures forall k :: k in BucketKeys(Accumulate(xs, key)) ==> exists e :: e in xs && key(e) == k
  {
    var ks := KeysOf(xs, key);
    var bk := BucketKeys(Accumulate(xs, key));
    forall k ensures k in bk <==> k in ks {
      DistinctHas(ks, k);
    }
    forall e | e in xs ensures key(e) in ks {
      var j :| 0 <= j < |xs| && xs[j] == e;
      assert ks[j] == key(e);
    }
    forall k | k in ks ensures exists e :: e in xs && key(e) == k {
      var j :| 0 <= j < |ks| && ks[j] == k;
      assert xs[j] in xs;
    }
  }

  /** Each bucket holds the sum of its own key's amounts. */
  lemma AccumulateTotals<K(!new)>(xs: seq<Entry>, key: Entry -> K)
    ensures var bs := Accumulate(xs, key);
            forall i :: 0 <= i < |bs| ==> bs[i].total == KeyedSum(xs, key, bs[i].key)
  {
    var bs := Accumulate(xs, key);
    forall i | 0 <= i < |bs| ensures bs[i].total == KeyedSum(xs, key, bs[i].key) {
      TotalOfBucket(bs, i);
    }
  }
}
