/**
 * The `/api/notifications` listing: the signed-in user's notifications,
 * newest first, one page at a time, with the total count and the number of
 * pages.  The page and page-size query parameters arrive as text.
 */
module Notifications {
  import opened Common
  import opened Store
  import opened Text
  import Table
  import Paging

  const DEFAULT_PAGE_SIZE := "10"

  /** The body of a successful reply. */
  datatype Listing = Listing(notifications: seq<Notification>, totalCount: nat, totalPages: Option<int>)

  function OfUser(userEmail: string): Notification -> bool
  {
    (n: Notification) => n.userEmail == userEmail
  }

  /** `order by createdAt desc`. */
  predicate NewestFirst(rows: seq<Notification>)
  {
    forall i, j :: 0 <= i < j < |rows| ==> rows[i].createdAt >= rows[j].createdAt
  }

  /** Places `n` after every row strictly newer and before the rest, keeping
      the order. */
  function Insert(n: Notification, rows: seq<Notification>): (r: seq<Notification>)
    requires NewestFirst(rows)
    ensures NewestFirst(r)
    ensures multiset(r) == multiset(rows) + multiset{n}
  {
    if rows == [] then [n]
    else if rows[0].createdAt > n.createdAt then
      var tail := Insert(n, rows[1..]);
      InsertBehindHead(n, rows, tail);
      [rows[0]] + tail
    else
      [n] + rows
  }

  /** The step of `Insert` that keeps the head: a sorted permutation of the
      rest and `n`, none newer than the head, stays sorted behind it. */
  lemma InsertBehindHead(n: Notification, rows: seq<Notification>, tail: seq<Notification>)
    requires NewestFirst(rows) && rows != [] && rows[0].createdAt >= n.createdAt
    requires NewestFirst(tail) && multiset(tail) == multiset(rows[1..]) + multiset{n}
    ensures NewestFirst([rows[0]] + tail)
    ensures multiset([rows[0]] + tail) == multiset(rows) + multiset{n}
  {
    assert rows == [rows[0]] + rows[1..];
    forall k | 0 <= k < |tail|
      ensures tail[k].createdAt <= rows[0].createdAt
    {
      assert tail[k] in multiset(tail);
      if tail[k] != n {
        assert tail[k] in multiset(rows[1..]);
        var j :| 0 <= j < |rows[1..]| && rows[1..][j] == tail[k];
        assert rows[j + 1] == tail[k];
      }
    }
  }

  /** The rows newest first; rows created at the same time keep their table
      order. */
  function SortNewestFirst(rows: seq<Notification>): (r: seq<Notification>)
    ensures NewestFirst(r)
    ensures multiset(r) == multiset(rows)
  {
    if rows == [] then []
    else
      assert rows == [rows[0]] + rows[1..];
      Insert(rows[0], SortNewestFirst(rows[1..]))
  }

  /** The query text of an absent parameter, or of an empty one, is the default. */
  function OrDefault(param: Option<string>, default: string): string
  {
    if Truthy(param) then param.value else default
  }

  /** `GET`: 401 without a session; otherwise one page of the user's rows,
      newest first.  `None` stands for a page or page size that `parseInt`
      reads as `NaN`, which the handler passes on to the store unchecked. */
  method Get(db: Database, sessionEmail: Option<string>, pageParam: Option<string>, pageSizeParam: Option<string>)
    returns (reply: Option<Reply<Listing>>)
    ensures !Truthy(sessionEmail) ==> reply == Some(Fail(401, UNAUTHORIZED))
    ensures Truthy(sessionEmail) ==>
      var page, size := ParseInt(OrDefault(pageParam, "1")), ParseInt(OrDefault(pageSizeParam, DEFAULT_PAGE_SIZE));
      && (page.None? || size.None? ==> reply.None?)
      && (page.Some? && size.Some? ==>
            var mine := Table.Where(db.pushNotifications, OfUser(sessionEmail.value));
            && reply.Some? && reply.value.status == 200 && reply.value.body.Payload?
            && var listing := reply.value.body.value;
               && listing.notifications == Paging.Window(SortNewestFirst(mine), size.value, Paging.Offset(page.value, size.value))
               && listing.totalCount == |mine|
               && listing.totalPages == Paging.TotalPages(|mine|, size.value))
  {
    if !Truthy(sessionEmail) {
      return Some(Fail(401, UNAUTHORIZED));
    }
    var page := ParseInt(OrDefault(pageParam, "1"));
    var size := ParseInt(OrDefault(pageSizeParam, DEFAULT_PAGE_SIZE));
    if page.None? || size.None? {
      return None;
    }
    var mine := Table.Where(db.pushNotifications, OfUser(sessionEmail.value));
    var rows := Paging.Window(SortNewestFirst(mine), size.value, Paging.Offset(page.value, size.value));
    reply := Some(Reply(200, Payload(Listing(rows, |mine|, Paging.TotalPages(|mine|, size.value)))));
  }

  // ------------------------------------------------------------- properties

  /** A page holds only the user's own notifications, newest first, and at
      most a page size of them; its total counts all of the user's rows. */
  lemma PageIsOwnNewestFirst(rows: seq<Notification>, userEmail: string, page: int, size: int)
    requires size >= 0
    ensures var mine := Table.Where(rows, OfUser(userEmail));
      var shown := Paging.Window(SortNewestFirst(mine), size, Paging.Offset(page, size));
      && |shown| <= size
      && NewestFirst(shown)
      && forall i :: 0 <= i < |shown| ==> shown[i].userEmail == userEmail && shown[i] in rows
  {
    var mine := Table.Where(rows, OfUser(userEmail));
    var sorted := SortNewestFirst(mine);
    var shown := Paging.Window(sorted, size, Paging.Offset(page, size));
    WindowKeepsOrder(sorted, size, Paging.Offset(page, size));
    forall i | 0 <= i < |shown|
      ensures shown[i].userEmail == userEmail && shown[i] in rows
    {
      assert shown[i] in sorted;
      assert shown[i] in multiset(sorted);
      assert shown[i] in mine;
    }
  }

  /** A window of a newest-first list is newest first, and holds only rows
      of the list. */
  lemma WindowKeepsOrder(sorted: seq<Notification>, limit: int, offset: int)
    requires NewestFirst(sorted)
    ensures NewestFirst(Paging.Window(sorted, limit, offset))
    ensures forall i :: 0 <= i < |Paging.Window(sorted, limit, offset)| ==> Paging.Window(sorted, limit, offset)[i] in sorted
  {
    var shown := Paging.Window(sorted, limit, offset);
    var start := if offset < 0 then 0 else offset;
    forall i, j | 0 <= i < j < |shown|
      ensures shown[i].createdAt >= shown[j].createdAt
    {
      assert shown[i] == sorted[start + i] && shown[j] == sorted[start + j];
    }
  }

  /** Absent parameters read as page 1 of size 10. */
  lemma DefaultPaging()
    ensures ParseInt(OrDefault(None, "1")) == Some(1)
    ensures ParseInt(OrDefault(None, DEFAULT_PAGE_SIZE)) == Some(10)
  {
    ParseIntToString(1);
    ParseIntToString(10);
    assert IntToString(1) == "1";
    assert IntToString(10) == "10";
  }

  /** Two rows created at the same time come out in their table order. */
  lemma TiesKeepTableOrder(a: Notification, b: Notification)
    requires a.createdAt == b.createdAt
    ensures SortNewestFirst([a, b]) == [a, b]
  {
    assert [a, b][1..] == [b];
    assert [b][1..] == [];
  }
}
