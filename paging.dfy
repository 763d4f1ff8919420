/**
 * The pagination arithmetic the listing endpoints share: SQLite's
 * `LIMIT n OFFSET m` over an ordered result, and `Math.ceil(count / size)`
 * for the number of pages.
 */
module Paging {
  import opened Common

  /** `Math.ceil(count / size)` for a positive page size: the fewest pages
      of `size` items that hold `count` items. */
  function PageCount(count: nat, size: int): (r: nat)
    requires size >= 1
    ensures count <= r * size
    ensures (r - 1) * size < count
  {
    var q := (count + size - 1) / size;
    assert count + size - 1 == q * size + (count + size - 1) % size;
    q
  }

  /** `Math.ceil(count / size)` for any integer size as `JSON.stringify`
      renders it: a zero size gives `Infinity` or `NaN`, both written `null`;
      a negative size gives minus the floor of `count / -size`. */
  function TotalPages(count: nat, size: int): (r: Option<int>)
    ensures size == 0 <==> r.None?
    ensures size >= 1 ==> r == Some(PageCount(count, size))
  {
    if size == 0 then None
    else if size > 0 then Some(PageCount(count, size))
    else Some(-(count / -size))
  }

  /** `LIMIT limit OFFSET offset`: a negative offset counts as zero and a
      negative limit as no limit. */
  function Window<T>(items: seq<T>, limit: int, offset: int): (r: seq<T>)
    ensures limit >= 0 ==> |r| <= limit
    ensures var start := if offset < 0 then 0 else offset;
      && (start >= |items| ==> r == [])
      && (forall i :: 0 <= i < |r| ==> start + i < |items| && r[i] == items[start + i])
      && (start < |items| && (limit < 0 || start + limit >= |items|) ==> r == items[start..])
      && (start < |items| && 0 <= limit && start + limit < |items| ==> |r| == limit)
  {
    var start := if offset < 0 then 0 else offset;
    if start >= |items| then []
    else if limit < 0 || start + limit >= |items| then items[start..]
    else items[start..start + limit]
  }

  /** The offset of a one-based page: `(page - 1) * pageSize`. */
  function Offset(page: int, pageSize: int): int
  {
    (page - 1) * pageSize
  }

  // ------------------------------------------------------------- properties

  /** With a positive page size, item `k` is shown on page `k / size + 1` at
      position `k % size`, and that page is one of the counted ones. */
  lemma EveryItemOnItsPage<T>(items: seq<T>, size: int, k: nat)
    requires size >= 1 && k < |items|
    ensures var page := k / size + 1;
      && 1 <= page <= PageCount(|items|, size)
      && k % size < |Window(items, size, Offset(page, size))|
      && Window(items, size, Offset(page, size))[k % size] == items[k]
  {
    var page := k / size + 1;
    var q, m := k / size, k % size;
    assert k == q * size + m;
    assert Offset(page, size) == q * size;
    var n := PageCount(|items|, size);
    assert q * size <= k < |items| <= n * size;
    if page > n {
      assert q >= n;
      MulMono(n, q, size);
      assert false;
    }
  }

  /** `a <= b` gives `a * c <= b * c` for a non-negative `c`. */
  lemma MulMono(a: int, b: int, c: int)
    requires a <= b && c >= 0
    ensures a * c <= b * c
  {
    assert b * c - a * c == (b - a) * c;
  }

  /** Every page after the last counted one is empty. */
  lemma PagesPastTheEndAreEmpty<T>(items: seq<T>, size: int, page: int)
    requires size >= 1 && page > PageCount(|items|, size)
    ensures Window(items, size, Offset(page, size)) == []
  {
    var n := PageCount(|items|, size);
    MulMono(n, page - 1, size);
  }
}
