/** The transaction record shared by the server and the client
    (server/models/Transaction.js) and the selections made on it by type. */
module Records {
  import opened Seqs

  /** A document `_id`. */
  type Id = nat

  /** The owning user's identity, compared as text. */
  type UserId = string

  datatype Option<T> = None | Some(value: T)

  /** A stored transaction. Amounts and dates are integers (a date is a
      millisecond timestamp). An absent category or description is the empty
      string: both are falsy and every view treats them alike. */
  datatype Transaction = Transaction(
    amount: int,
    kind: string,
    category: string,
    description: string,
    date: int,
    userId: UserId)

  /** A transaction together with its `_id`, as the listing returns it. */
  datatype Entry = Entry(id: Id, t: Transaction)

  const Income: string := "income"
  const Expense: string := "expense"

  function Amount(e: Entry): int { e.t.amount }

  /** `xs.reduce((sum, t) => sum + t.amount, 0)`. */
  function AmountSum(xs: seq<Entry>): (r: int)
    ensures |xs| == 0 ==> r == 0
    ensures |xs| > 0 ==> r == AmountSum(xs[..|xs| - 1]) + xs[|xs| - 1].t.amount
  {
    SumOf(xs, Amount)
  }

  /** The key of every entry, in order. */
  function KeysOf<K>(xs: seq<Entry>, key: Entry -> K): (ks: seq<K>)
    ensures |ks| == |xs| && forall i :: 0 <= i < |xs| ==> ks[i] == key(xs[i])
    decreases |xs|
  {
    if |xs| == 0 then [] else KeysOf(xs[..|xs| - 1], key) + [key(xs[|xs| - 1])]
  }

  /** `xs.filter(t => t.type === kind)`. */
  function FilterKind(xs: seq<Entry>, kind: string): (r: seq<Entry>)
    ensures forall i :: 0 <= i < |r| ==> r[i].t.kind == kind && r[i] in xs
    ensures forall i :: 0 <= i < |xs| && xs[i].t.kind == kind ==> xs[i] in r
    ensures |r| <= |xs|
    decreases |xs|
  {
    if |xs| == 0 then []
    else
      var n := |xs| - 1;
      assert xs == xs[..n] + [xs[n]];
      FilterKind(xs[..n], kind) + (if xs[n].t.kind == kind then [xs[n]] else [])
  }

  /** The filter keeps every record of the requested type as often as it
      occurs, and nothing else. */
  lemma {:induction false} FilterKindContents(xs: seq<Entry>, kind: string)
    ensures forall e ::
              multiset(FilterKind(xs, kind))[e] == if e.t.kind == kind then multiset(xs)[e] else 0
    decreases |xs|
  {
    if |xs| > 0 {
      var n := |xs| - 1;
      FilterKindContents(xs[..n], kind);
      assert xs == xs[..n] + [xs[n]];
      assert multiset(xs) == multiset(xs[..n]) + multiset{xs[n]};
    }
  }

  /** One step of the filter: the last record is kept exactly when it has
      the type. */
  lemma FilterKindLast(xs: seq<Entry>, kind: string)
    requires |xs| > 0
    ensures FilterKind(xs, kind)
         == FilterKind(xs[..|xs| - 1], kind) + (if xs[|xs| - 1].t.kind == kind then [xs[|xs| - 1]] else [])
  {
  }

  /** Filtering keeps the input order: it distributes over concatenation. */
  lemma {:induction false} FilterKindConcat(a: seq<Entry>, b: seq<Entry>, kind: string)
    ensures FilterKind(a + b, kind) == FilterKind(a, kind) + FilterKind(b, kind)
    decreases |b|
  {
    if |b| == 0 {
      assert a + b == a;
    } else {
      var n := |b| - 1;
      var ab := a + b;
      assert ab[..|ab| - 1] == a + b[..n];
      assert ab[|ab| - 1] == b[n];
      FilterKindLast(ab, kind);
      FilterKindLast(b, kind);
      FilterKindConcat(a, b[..n], kind);
    }
  }

  /** A listing with no record of the type filters to nothing. */
  lemma {:induction false} FilterKindNone(xs: seq<Entry>, kind: string)
    requires forall i :: 0 <= i < |xs| ==> xs[i].t.kind != kind
    ensures FilterKind(xs, kind) == []
    decreases |xs|
  {
    if |xs| > 0 {
      FilterKindNone(xs[..|xs| - 1], kind);
    }
  }

  /** The filter keeps exactly the records of the requested type. */
  lemma FilterKindHas(xs: seq<Entry>, kind: string)
    ensures forall e :: e in FilterKind(xs, kind) <==> e in xs && e.t.kind == kind
  {
    var r := FilterKind(xs, kind);
    forall e ensures e in r <==> e in xs && e.t.kind == kind {
      if e in r {
        var i :| 0 <= i < |r| && r[i] == e;
      }
      if e in xs && e.t.kind == kind {
        var i :| 0 <= i < |xs| && xs[i] == e;
      }
    }
  }
}
