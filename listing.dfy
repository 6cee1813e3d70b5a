/**
 * The ordering and paging of the listing routes: `.sort({ date: -1 })`,
 * `.skip((page - 1) * limit).limit(limit)` and `totalPages: Math.ceil(count / limit)`.
 */
module Listing {
  import opened Wrappers

  /** Dates never increase along `xs`. */
  ghost predicate NewestFirst<T>(xs: seq<T>, date: T -> int) {
    forall i, j | 0 <= i < j < |xs| :: date(xs[i]) >= date(xs[j])
  }

  function InsertNewest<T>(x: T, xs: seq<T>, date: T -> int): (r: seq<T>)
    requires NewestFirst(xs, date)
    ensures multiset(r) == multiset(xs) + multiset{x}
    ensures |r| == |xs| + 1
    ensures r[0] == x || (|xs| > 0 && r[0] == xs[0])
    ensures NewestFirst(r, date)
  {
    if xs == [] || date(x) >= date(xs[0]) then [x] + xs
    else
      TailNewest(xs, date);
      var rest := InsertNewest(x, xs[1..], date);
      InsertBehindHead(x, xs, rest, date);
      [xs[0]] + rest
  }

  /** The recursive case of `InsertNewest`: `x` goes behind the newer head of `xs`. */
  lemma InsertBehindHead<T>(x: T, xs: seq<T>, rest: seq<T>, date: T -> int)
    requires xs != [] && date(x) < date(xs[0]) && NewestFirst(xs, date)
    requires multiset(rest) == multiset(xs[1..]) + multiset{x} && NewestFirst(rest, date)
    requires |rest| > 0 && (rest[0] == x || (|xs| > 1 && rest[0] == xs[1]))
    ensures multiset([xs[0]] + rest) == multiset(xs) + multiset{x}
    ensures NewestFirst([xs[0]] + rest, date)
  {
    assert xs == [xs[0]] + xs[1..];
    PrependNewest(xs[0], rest, date);
  }

  lemma TailNewest<T>(xs: seq<T>, date: T -> int)
    requires xs != [] && NewestFirst(xs, date)
    ensures NewestFirst(xs[1..], date)
  {
    forall i, j | 0 <= i < j < |xs| - 1 ensures date(xs[1..][i]) >= date(xs[1..][j]) {
      assert xs[1..][i] == xs[i + 1] && xs[1..][j] == xs[j + 1];
    }
  }

  lemma PrependNewest<T>(x: T, xs: seq<T>, date: T -> int)
    requires NewestFirst(xs, date)
    requires xs != [] ==> date(x) >= date(xs[0])
    ensures NewestFirst([x] + xs, date)
  {
    var r := [x] + xs;
    forall i, j | 0 <= i < j < |r| ensures date(r[i]) >= date(r[j]) {
      if i == 0 {
        assert r[j] == xs[j - 1];
        if j > 1 { assert date(xs[0]) >= date(xs[j - 1]); }
      } else {
        assert r[i] == xs[i - 1] && r[j] == xs[j - 1];
      }
    }
  }

  /** A newest-first ordering of `xs`: the same elements, dates non-increasing. */
  function SortNewestFirst<T>(xs: seq<T>, date: T -> int): (r: seq<T>)
    ensures multiset(r) == multiset(xs)
    ensures NewestFirst(r, date)
  {
    if xs == [] then []
    else
      assert xs == [xs[0]] + xs[1..];
      InsertNewest(xs[0], SortNewestFirst(xs[1..], date), date)
  }

  /** The elements of `xs` that satisfy `keep`, in their order (a query filter). */
  function Filter<T(!new)>(xs: seq<T>, keep: T -> bool): (r: seq<T>)
    ensures forall x :: multiset(r)[x] == if keep(x) then multiset(xs)[x] else 0
    ensures |r| <= |xs|
  {
    if xs == [] then []
    else
      assert xs == [xs[0]] + xs[1..];
      (if keep(xs[0]) then [xs[0]] else []) + Filter(xs[1..], keep)
  }

  /** A page of a newest-first list is itself newest first. */
  lemma PageKeepsOrder<T>(items: seq<T>, page: int, limit: int, date: T -> int)
    requires page >= 1 && limit >= 1 && NewestFirst(items, date)
    ensures NewestFirst(PageOf(items, page, limit), date)
  {
    var r, skip := PageOf(items, page, limit), (page - 1) * limit;
    forall i, j | 0 <= i < j < |r| ensures date(r[i]) >= date(r[j]) {
      assert r[i] == items[skip + i] && r[j] == items[skip + j];
    }
  }

  /** `Math.ceil(count / limit)` for a positive limit. */
  function TotalPages(count: nat, limit: int): (n: nat)
    requires limit >= 1
    ensures count <= n * limit
    ensures n > 0 ==> (n - 1) * limit < count
    ensures n == 0 <==> count == 0
  {
    var n := (count + limit - 1) / limit;
    assert n * limit <= count + limit - 1 < (n + 1) * limit;
    n
  }

  /** The documents of `.skip((page - 1) * limit).limit(limit)`. */
  function PageOf<T>(items: seq<T>, page: int, limit: int): (r: seq<T>)
    requires page >= 1 && limit >= 1
    ensures |r| <= limit
    ensures forall i | 0 <= i < |r| :: (page - 1) * limit + i < |items| && r[i] == items[(page - 1) * limit + i]
    ensures (page - 1) * limit < |items| ==> |r| == if |items| - (page - 1) * limit < limit then |items| - (page - 1) * limit else limit
    ensures (page - 1) * limit >= |items| ==> r == []
  {
    var skip := (page - 1) * limit;
    if skip >= |items| then []
    else items[skip .. if skip + limit <= |items| then skip + limit else |items|]
  }

  /** Every item is on page `i / limit + 1`, at position `i % limit`, and that page is within `TotalPages`. */
  lemma ItemOnItsPage<T>(items: seq<T>, limit: int, i: nat)
    requires limit >= 1 && i < |items|
    ensures 1 <= i / limit + 1 <= TotalPages(|items|, limit)
    ensures var page := PageOf(items, i / limit + 1, limit);
      i % limit < |page| && page[i % limit] == items[i]
  {
    var q, m := i / limit, i % limit;
    assert q * limit + m == i;
    var n := TotalPages(|items|, limit);
    if q + 1 > n {
      MulMono(n, q, limit);
      assert false;
    }
  }

  lemma MulMono(a: int, b: int, c: int)
    requires 0 <= a <= b && c >= 0
    ensures a * c <= b * c
  {
  }

  /** A page beyond the last one is empty. */
  lemma PastLastPageEmpty<T>(items: seq<T>, page: int, limit: int)
    requires limit >= 1 && page > TotalPages(|items|, limit)
    ensures PageOf(items, page, limit) == []
  {
    MulMono(TotalPages(|items|, limit), page - 1, limit);
  }

  /** What a listing route answers: one page and the page count (`currentPage` echoes the request). */
  datatype Page<T> = Page(items: seq<T>, totalPages: nat, currentPage: int)

  const DefaultPage: int := 1
  const DefaultLimit: int := 10

  /**
   * Page `page` (default 1) of `all` with `limit` (default 10) entries per page.  None when
   * the page number or the limit is below 1, which the route leaves to the database.
   */
  function Paginate<T>(all: seq<T>, page: Option<int>, limit: Option<int>): (r: Option<Page<T>>)
    ensures r.Some? <==> page.GetOr(DefaultPage) >= 1 && limit.GetOr(DefaultLimit) >= 1
    ensures r.Some? ==> r.value.currentPage == page.GetOr(DefaultPage)
    ensures r.Some? ==> r.value.items == PageOf(all, page.GetOr(DefaultPage), limit.GetOr(DefaultLimit))
    ensures r.Some? ==> r.value.totalPages == TotalPages(|all|, limit.GetOr(DefaultLimit))
  {
    var p, l := page.GetOr(DefaultPage), limit.GetOr(DefaultLimit);
    if p >= 1 && l >= 1 then Some(Page(PageOf(all, p, l), TotalPages(|all|, l), p)) else None
  }

  /**
   * A page of a newest-first list is newest first, holds only elements of the list, and is
   * never longer than the limit.
   */
  lemma PaginateKeepsOrder<T>(all: seq<T>, page: Option<int>, limit: Option<int>, date: T -> int)
    requires NewestFirst(all, date)
    ensures var r := Paginate(all, page, limit);
      r.Some? ==>
        && NewestFirst(r.value.items, date)
        && (forall x | x in r.value.items :: x in all)
        && |r.value.items| <= limit.GetOr(DefaultLimit)
  {
    var r := Paginate(all, page, limit);
    if r.Some? {
      PageKeepsOrder(all, page.GetOr(DefaultPage), limit.GetOr(DefaultLimit), date);
    }
  }
}
