/**
 The usage ledger (`usage` table of `app.py`): one counter per actor,
 keyed by `(actor_type, actor_id)`, created on the first increment.
 An actor with an empty id (a guest without a cookie) is never recorded.

 The read-then-write of `usage_incr` runs in two statements on its own
 connection; it is modelled sequentially, one call at a time.
 */
module Usage {

  /** The `actor_type` column: `'guest'` or `'user'`. */
  datatype ActorKind = GuestActor | UserActor

  /** The primary key `(actor_type, actor_id)`. */
  datatype ActorKey = ActorKey(kind: ActorKind, id: string)

  /** The `usage` table: `used` per actor key. */
  type Ledger = map<ActorKey, int>

  /** `usage_get`: the stored count, 0 for an unknown actor or an empty id. */
  function UsageGet(l: Ledger, kind: ActorKind, id: string): (r: int)
    ensures id == "" || ActorKey(kind, id) !in l ==> r == 0
    ensures id != "" && ActorKey(kind, id) in l ==> r == l[ActorKey(kind, id)]
  {
    if id == "" then 0
    else if ActorKey(kind, id) in l then l[ActorKey(kind, id)]
    else 0
  }

  /** The ledger after an increment and the count `usage_incr` returns. */
  datatype Incremented = Incremented(ledger: Ledger, used: int)

  /** `usage_incr`: adds `amount` to the actor's counter (a missing counter
      counts as 0) and returns the new value; with an empty id it returns
      0 and records nothing. */
  function UsageIncr(l: Ledger, kind: ActorKind, id: string, amount: int): (r: Incremented)
    ensures id == "" ==> r.used == 0 && r.ledger == l
    ensures id != "" ==> r.used == UsageGet(l, kind, id) + amount && ActorKey(kind, id) in r.ledger
    // a following usage_get reads back what was returned
    ensures UsageGet(r.ledger, kind, id) == r.used
    // no other actor's counter appears, disappears or moves
    ensures forall k :: k != ActorKey(kind, id) ==> (k in r.ledger <==> k in l)
    ensures forall k :: k != ActorKey(kind, id) && k in l ==> r.ledger[k] == l[k]
  {
    if id == "" then Incremented(l, 0)
    else
      var key := ActorKey(kind, id);
      var used := if key in l then l[key] + amount else amount;
      Incremented(l[key := used], used)
  }

  /** Two increments in a row are one increment by their sum. */
  lemma IncrAdditive(l: Ledger, kind: ActorKind, id: string, a: int, b: int)
    ensures UsageIncr(UsageIncr(l, kind, id, a).ledger, kind, id, b)
         == UsageIncr(l, kind, id, a + b)
  {
    var first := UsageIncr(l, kind, id, a);
    var both := UsageIncr(first.ledger, kind, id, b);
    var once := UsageIncr(l, kind, id, a + b);
    if id != "" {
      assert both.ledger.Keys == once.ledger.Keys;
    }
  }

  /** Reading another actor's counter is unaffected by an increment. */
  lemma IncrIsolated(l: Ledger, kind: ActorKind, id: string, amount: int, kind': ActorKind, id': string)
    requires ActorKey(kind', id') != ActorKey(kind, id)
    ensures UsageGet(UsageIncr(l, kind, id, amount).ledger, kind', id') == UsageGet(l, kind', id')
  {
  }
}
