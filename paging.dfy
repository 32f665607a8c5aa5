/**
 * The pagination shared by the search and the admin listings: a 1-based
 * `page` and a `limit`, a window `skip((page - 1) * limit).limit(limit)`
 * over the matches, and `totalPages = Math.ceil(total / limit)`.
 */
module Paging {
  import opened Wrappers

  type Positive = n: int | n >= 1 witness 1

  const DefaultPage: Positive := 1
  const DefaultLimit: Positive := 20

  datatype Pagination = Pagination(total: nat, page: Positive, limit: Positive, totalPages: nat)

  datatype Page<T> = Page(items: seq<T>, pagination: Pagination)

  function Min(a: int, b: int): int {
    if a <= b then a else b
  }

  /** `Math.ceil(total / limit)`: the least number of pages of `limit` that hold `total` items. */
  function CeilDiv(total: nat, limit: Positive): (r: nat)
    ensures r * limit >= total
    ensures r > 0 ==> (r - 1) * limit < total
  {
    (total + limit - 1) / limit
  }

  /** `(page - 1) * limit`: the number of matches before the page. */
  function Skip(page: Positive, limit: Positive): nat {
    (page - 1) * limit
  }

  /** `.skip((page - 1) * limit).limit(limit)` over the matches `s`. */
  function Window<T>(s: seq<T>, page: Positive, limit: Positive): (w: seq<T>)
    ensures |w| <= limit
    ensures |w| == if Skip(page, limit) >= |s| then 0 else Min(limit, |s| - Skip(page, limit))
    ensures forall k :: 0 <= k < |w| ==> Skip(page, limit) + k < |s| && w[k] == s[Skip(page, limit) + k]
  {
    var skip := Skip(page, limit);
    if skip >= |s| then [] else s[skip..Min(skip + limit, |s|)]
  }

  /** The page the services return: the window, the count of all matches, and the echoed parameters. */
  function Paginate<T>(matches: seq<T>, page: Option<Positive>, limit: Option<Positive>): (r: Page<T>)
    ensures r.pagination.page == page.GetOr(DefaultPage)
    ensures r.pagination.limit == limit.GetOr(DefaultLimit)
    ensures r.pagination.total == |matches|
    ensures r.pagination.totalPages == CeilDiv(r.pagination.total, r.pagination.limit)
    ensures r.items == Window(matches, r.pagination.page, r.pagination.limit)
  {
    var p := page.GetOr(DefaultPage);
    var l := limit.GetOr(DefaultLimit);
    Page(Window(matches, p, l), Pagination(|matches|, p, l, CeilDiv(|matches|, l)))
  }

  /**
   * Every match is on exactly one page within `1..totalPages`: the `k`-th is
   * item `k % limit` of page `k / limit + 1`.
   */
  lemma {:induction false} EveryMatchOnItsPage<T>(s: seq<T>, limit: Positive, k: nat)
    requires k < |s|
    ensures 1 <= k / limit + 1 <= CeilDiv(|s|, limit)
    ensures k % limit < |Window(s, k / limit + 1, limit)|
    ensures Window(s, k / limit + 1, limit)[k % limit] == s[k]
  {
    var p := k / limit + 1;
    assert Skip(p, limit) + k % limit == k;
    var n := CeilDiv(|s|, limit);
    if n < p {
      assert n * limit <= (p - 1) * limit by {
        MultiplyMonotone(n, p - 1, limit);
      }
    }
  }

  /** Every element is on some page within `1..totalPages`. */
  lemma OnSomePage<T>(s: seq<T>, limit: Positive, x: T)
    requires x in s
    ensures exists page: Positive :: page <= CeilDiv(|s|, limit) && x in Window(s, page, limit)
  {
    var k :| 0 <= k < |s| && s[k] == x;
    EveryMatchOnItsPage(s, limit, k);
    var page: Positive := k / limit + 1;
    assert Window(s, page, limit)[k % limit] == x;
  }

  /** No page past `totalPages` holds anything. */
  lemma PagesPastTheLastAreEmpty<T>(s: seq<T>, page: Positive, limit: Positive)
    requires page > CeilDiv(|s|, limit)
    ensures Window(s, page, limit) == []
  {
    var n := CeilDiv(|s|, limit);
    MultiplyMonotone(n, page - 1, limit);
  }

  lemma MultiplyMonotone(a: nat, b: nat, c: nat)
    requires a <= b
    ensures a * c <= b * c
  {
  }
}
