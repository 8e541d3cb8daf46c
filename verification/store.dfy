/** The server's transaction routes (server/routes/transactions.js) as a
    state machine over the collection: each handler takes the collection and
    the authenticated caller and returns the reply together with the new
    collection. */
module TransactionStore {
  import opened Seqs
  import opened Records
  import opened Sorting

  /** The transaction collection, keyed by `_id`. */
  type Store = map<Id, Transaction>

  /** A POST body. `userId` is whatever the client claims; the handler never
      reads it. A `date` of `None` is a missing or falsy one. */
  datatype NewTransaction = NewTransaction(
    kind: string,
    amount: int,
    category: string,
    description: string,
    date: Option<int>,
    userId: Option<UserId>)

  /** A PUT body: every field may be missing. */
  datatype Patch = Patch(
    kind: Option<string>,
    amount: Option<int>,
    category: Option<string>,
    description: Option<string>,
    date: Option<int>,
    userId: Option<UserId>)

  datatype Reply =
    | Created(entry: Entry)         // 201 with the saved document
    | Record(entry: Entry)          // 200 with the updated document
    | Confirmation(msg: string)     // 200 with `{ msg }`
    | Rejected(code: int, msg: string)

  const NotFound: Reply := Rejected(404, "Transaction not found")
  const NotAuthorized: Reply := Rejected(401, "Not authorized")
  const Removed: Reply := Confirmation("Transaction removed")

  function Status(r: Reply): int {
    match r
    case Created(_) => 201
    case Record(_) => 200
    case Confirmation(_) => 200
    case Rejected(code, _) => code
  }

  datatype Outcome = Outcome(reply: Reply, store: Store)

  /** Truthiness of the two kinds of patch field JavaScript tests with `if`:
      a string is falsy when empty, a number when zero. A date travels as a
      non-empty string, so any supplied date is truthy. */
  predicate SuppliedText(o: Option<string>) { o.Some? && o.value != "" }
  predicate SuppliedAmount(o: Option<int>) { o.Some? && o.value != 0 }

  /** The `$set` of the truthy patch fields applied to a record. */
  function ApplyPatch(t: Transaction, p: Patch): (r: Transaction)
    ensures r.userId == t.userId
    ensures SuppliedText(p.kind) ==> r.kind == p.kind.value
    ensures !SuppliedText(p.kind) ==> r.kind == t.kind
    ensures SuppliedAmount(p.amount) ==> r.amount == p.amount.value
    ensures !SuppliedAmount(p.amount) ==> r.amount == t.amount
    ensures SuppliedText(p.category) ==> r.category == p.category.value
    ensures !SuppliedText(p.category) ==> r.category == t.category
    ensures SuppliedText(p.description) ==> r.description == p.description.value
    ensures !SuppliedText(p.description) ==> r.description == t.description
    ensures p.date.Some? ==> r.date == p.date.value
    ensures p.date.None? ==> r.date == t.date
  {
    Transaction(
      if SuppliedAmount(p.amount) then p.amount.value else t.amount,
      if SuppliedText(p.kind) then p.kind.value else t.kind,
      if SuppliedText(p.category) then p.category.value else t.category,
      if SuppliedText(p.description) then p.description.value else t.description,
      if p.date.Some? then p.date.value else t.date,
      t.userId)
  }

  /** Applying the same patch twice is applying it once. */
  lemma ApplyPatchIdempotent(t: Transaction, p: Patch)
    ensures ApplyPatch(ApplyPatch(t, p), p) == ApplyPatch(t, p)
  {
  }

  /** GET /: the caller's transactions, newest first. The order among
      transactions with the same date is the store's choice, so the listing is
      a method that may pick any of them. */
  method List(s: Store, caller: UserId) returns (r: seq<Entry>)
    ensures forall e :: e in r <==> e.id in s && s[e.id] == e.t && e.t.userId == caller
    ensures NoDup(r)
    ensures forall i, j :: 0 <= i < j < |r| ==> r[i].t.date >= r[j].t.date
  {
    r := [];
    var rest := s.Keys;
    while rest != {}
      invariant rest <= s.Keys
      invariant forall e :: e in r <==> e.id in s.Keys - rest && s[e.id] == e.t && e.t.userId == caller
      invariant NoDup(r)
      invariant Sorted(DateDesc, r)
      decreases rest
    {
      var id :| id in rest;
      if s[id].userId == caller {
        var e := Entry(id, s[id]);
        InsertSorted(DateDesc, e, r);
        InsertNoDup(DateDesc, e, r);
        r := Insert(DateDesc, e, r);
      }
      rest := rest - {id};
    }
  }

  /** POST /: saves the body's fields under the caller's identity, dated
      now when the body gives no date. `newId` is the identifier the database
      assigns; it is fresh. */
  function Create(s: Store, caller: UserId, newId: Id, now: int, b: NewTransaction): (o: Outcome)
    requires newId !in s
    ensures o.store.Keys == s.Keys + {newId}
    ensures forall id :: id in s ==> o.store[id] == s[id]
    ensures o.reply == Created(Entry(newId, o.store[newId]))
    ensures Status(o.reply) == 201
    ensures o.store[newId].userId == caller
    ensures o.store[newId].kind == b.kind && o.store[newId].amount == b.amount
    ensures o.store[newId].category == b.category && o.store[newId].description == b.description
    ensures o.store[newId].date == if b.date.Some? then b.date.value else now
  {
    var t := Transaction(b.amount, b.kind, b.category, b.description,
                         if b.date.Some? then b.date.value else now, caller);
    Outcome(Created(Entry(newId, t)), s[newId := t])
  }

  /** PUT /:id: 404 for an unknown id, then 401 for someone else's record,
      otherwise the truthy fields of the patch overwrite the record and the
      reply carries the record after the update. */
  function Update(s: Store, caller: UserId, id: Id, p: Patch): (o: Outcome)
    ensures id !in s ==> o.reply == NotFound && o.store == s
    ensures id in s && s[id].userId != caller ==> o.reply == NotAuthorized && o.store == s
    ensures id in s && s[id].userId == caller ==>
      && Status(o.reply) == 200
      && o.store.Keys == s.Keys
      && o.reply == Record(Entry(id, o.store[id]))
      && o.store[id] == ApplyPatch(s[id], p)
    ensures forall k :: k in s && k != id ==> k in o.store && o.store[k] == s[k]
    ensures forall k :: k in o.store ==> k in s && o.store[k].userId == s[k].userId
  {
    if id !in s then Outcome(NotFound, s)
    else if s[id].userId != caller then Outcome(NotAuthorized, s)
    else
      var t := ApplyPatch(s[id], p);
      Outcome(Record(Entry(id, t)), s[id := t])
  }

  /** DELETE /:id: the same two checks in the same order, then the record is
      gone and the reply is a confirmation message, not the record. */
  function Delete(s: Store, caller: UserId, id: Id): (o: Outcome)
    ensures id !in s ==> o.reply == NotFound && o.store == s
    ensures id in s && s[id].userId != caller ==> o.reply == NotAuthorized && o.store == s
    ensures id in s && s[id].userId == caller ==>
      o.reply == Removed && Status(o.reply) == 200 && o.store.Keys == s.Keys - {id}
    ensures forall k :: k in o.store ==> k in s && o.store[k] == s[k]
    ensures forall k :: k in s && k != id ==> k in o.store
  {
    if id !in s then Outcome(NotFound, s)
    else if s[id].userId != caller then Outcome(NotAuthorized, s)
    else Outcome(Removed, map k | k in s && k != id :: s[k])
  }

  /** Repeating an update changes nothing more, and answers the same. */
  lemma UpdateIdempotent(s: Store, caller: UserId, id: Id, p: Patch)
    ensures var o := Update(s, caller, id, p);
            Update(o.store, caller, id, p) == o
  {
    var o := Update(s, caller, id, p);
    if id in s && s[id].userId == caller {
      ApplyPatchIdempotent(s[id], p);
      assert o.store[id := ApplyPatch(o.store[id], p)] == o.store;
    }
  }

  /** Deleting what was just created restores the collection. */
  lemma CreateThenDelete(s: Store, caller: UserId, newId: Id, now: int, b: NewTransaction)
    requires newId !in s
    ensures var c := Create(s, caller, newId, now, b);
            Delete(c.store, caller, newId) == Outcome(Removed, s)
  {
    var c := Create(s, caller, newId, now, b);
    assert Delete(c.store, caller, newId).store == s;
  }

  /** Once deleted, an id is unknown to both mutating routes. */
  lemma DeleteThenNotFound(s: Store, caller: UserId, id: Id, p: Patch)
    requires Delete(s, caller, id).reply == Removed
    ensures var d := Delete(s, caller, id).store;
            Update(d, caller, id, p) == Outcome(NotFound, d) &&
            Delete(d, caller, id) == Outcome(NotFound, d)
  {
  }

  /** A caller never alters or removes another user's transactions, by any
      route. */
  lemma OthersUntouched(s: Store, caller: UserId, id: Id, newId: Id, now: int,
                        p: Patch, b: NewTransaction, k: Id)
    requires newId !in s
    requires k in s && s[k].userId != caller
    ensures k in Create(s, caller, newId, now, b).store && Create(s, caller, newId, now, b).store[k] == s[k]
    ensures k in Update(s, caller, id, p).store && Update(s, caller, id, p).store[k] == s[k]
    ensures k in Delete(s, caller, id).store && Delete(s, caller, id).store[k] == s[k]
  {
  }
}
