/**
 * The SQL the services issue, over a table held as the sequence of its rows in
 * insertion (rowid) order: `select ... where p .get()` is the first matching
 * row, `.all()` every matching row in table order, and `update`/`delete ...
 * where p` touch every matching row.
 */
module Table {
  import opened Common

  /** The position of the first row that satisfies `p`. */
  function FirstIndex<R>(rows: seq<R>, p: R -> bool): (r: Option<nat>)
    ensures r.Some? ==> r.value < |rows| && p(rows[r.value])
    ensures r.Some? ==> forall j :: 0 <= j < r.value ==> !p(rows[j])
    ensures r.None? ==> forall j :: 0 <= j < |rows| ==> !p(rows[j])
  {
    if rows == [] then None
    else if p(rows[0]) then Some(0)
    else match FirstIndex(rows[1..], p)
      case None => None
      case Some(k) => Some(k + 1)
  }

  /** `select().where(p).get()`: the first matching row, or `undefined`. */
  function First<R>(rows: seq<R>, p: R -> bool): (r: Option<R>)
    ensures r.Some? ==> r.value in rows && p(r.value)
    ensures r.None? <==> forall j :: 0 <= j < |rows| ==> !p(rows[j])
  {
    match FirstIndex(rows, p)
    case None => None
    case Some(k) => Some(rows[k])
  }

  /** `select().where(p).all()`, and what `delete().where(q)` leaves with `p = !q`. */
  function Where<R>(rows: seq<R>, p: R -> bool): (r: seq<R>)
    ensures forall i :: 0 <= i < |r| ==> r[i] in rows && p(r[i])
    ensures forall j :: 0 <= j < |rows| && p(rows[j]) ==> rows[j] in r
    ensures |r| <= |rows|
  {
    if rows == [] then []
    else if p(rows[0]) then [rows[0]] + Where(rows[1..], p)
    else Where(rows[1..], p)
  }

  /** `update().set(f).where(p)`: every matching row is rewritten, the others stay in place. */
  function UpdateWhere<R>(rows: seq<R>, p: R -> bool, f: R -> R): (r: seq<R>)
    ensures |r| == |rows|
    ensures forall i :: 0 <= i < |rows| ==> r[i] == if p(rows[i]) then f(rows[i]) else rows[i]
  {
    if rows == [] then [] else [if p(rows[0]) then f(rows[0]) else rows[0]] + UpdateWhere(rows[1..], p, f)
  }

  /** Two tables whose rows agree on `p` row by row have their first match
      at the same position. */
  lemma {:induction false} FirstIndexAgree<R>(a: seq<R>, b: seq<R>, p: R -> bool)
    requires |a| == |b|
    requires forall j :: 0 <= j < |a| ==> p(a[j]) == p(b[j])
    ensures FirstIndex(a, p) == FirstIndex(b, p)
  {
    if a != [] && !p(a[0]) {
      FirstIndexAgree(a[1..], b[1..], p);
    }
  }

  /** Filtering a concatenation filters each part. */
  lemma {:induction false} WhereAppend<R>(a: seq<R>, b: seq<R>, p: R -> bool)
    ensures Where(a + b, p) == Where(a, p) + Where(b, p)
  {
    if a != [] {
      assert (a + b)[0] == a[0];
      assert (a + b)[1..] == a[1..] + b;
      WhereAppend(a[1..], b, p);
      assert Where(a + b, p) == (if p(a[0]) then [a[0]] else []) + Where(a[1..] + b, p);
      assert Where(a, p) == (if p(a[0]) then [a[0]] else []) + Where(a[1..], p);
    } else {
      assert a + b == b;
    }
  }

  /** A filter every row passes keeps the table as it is. */
  lemma {:induction false} WhereAll<R>(rows: seq<R>, p: R -> bool)
    requires forall j :: 0 <= j < |rows| ==> p(rows[j])
    ensures Where(rows, p) == rows
  {
    if rows != [] {
      WhereAll(rows[1..], p);
    }
  }
}
