/**
 * `SubscriptionService.deleteSubscriptionById`: removes the push subscription
 * rows with a given id and reports whether there was one.  Whether the store
 * call fails is an input; a failure is swallowed and reported as `false`.
 */
module SubscriptionService {
  import opened Common
  import opened Store
  import Table

  function HasId(id: string): Subscription -> bool
  {
    (s: Subscription) => s.id == id
  }

  function NotId(id: string): Subscription -> bool
  {
    (s: Subscription) => s.id != id
  }

  /** The table after `delete ... where id = id`. */
  function WithoutId(rows: seq<Subscription>, id: string): (r: seq<Subscription>)
    ensures forall i :: 0 <= i < |r| ==> r[i].id != id && r[i] in rows
    ensures forall i :: 0 <= i < |rows| && rows[i].id != id ==> rows[i] in r
  {
    Table.Where(rows, NotId(id))
  }

  /** `deleteSubscriptionById`: true iff a row with that id existed and the
      store call succeeded; afterwards no such row remains, and every other
      row is kept in order.  A failing call changes nothing and gives false. */
  method DeleteSubscriptionById(db: Database, id: string, storageFails: bool) returns (deleted: bool)
    modifies db`subscriptions
    ensures storageFails ==> !deleted && db.subscriptions == old(db.subscriptions)
    ensures !storageFails ==> db.subscriptions == WithoutId(old(db.subscriptions), id)
    ensures deleted <==> !storageFails && exists i :: 0 <= i < |old(db.subscriptions)| && old(db.subscriptions)[i].id == id
  {
    if storageFails {
      return false;
    }
    var result := Table.First(db.subscriptions, HasId(id));
    db.subscriptions := WithoutId(db.subscriptions, id);
    deleted := result.Some?;
  }

  /** Deleting an id twice is deleting it once. */
  lemma {:induction false} WithoutIdIdempotent(rows: seq<Subscription>, id: string)
    ensures WithoutId(WithoutId(rows, id), id) == WithoutId(rows, id)
  {
    if rows != [] {
      WithoutIdIdempotent(rows[1..], id);
    }
  }

  /** Deleting one id keeps the rows of another in the same order. */
  lemma {:induction false} WithoutIdKeepsOthers(rows: seq<Subscription>, id: string, other: string)
    requires other != id
    ensures Table.Where(WithoutId(rows, id), HasId(other)) == Table.Where(rows, HasId(other))
  {
    if rows != [] {
      WithoutIdKeepsOthers(rows[1..], id, other);
    }
  }
}
