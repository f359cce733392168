/** The page arithmetic of the memory object list: page count, clamping of the
    current page, the previous/next buttons, and the rows a page shows. */
module Pagination {

  /** The page-size toolbar's choices (`_pageSizeArray`). */
  const PageSizes: seq<nat> := [10, 100, 500]

  /** Number of pages of `pageSize` rows needed for `count` rows: the whole
      pages plus one for a partial last page. */
  function TotalPages(count: nat, pageSize: nat): (r: nat)
    requires pageSize > 0
    // r is the ceiling of count / pageSize: enough pages, and one fewer is not
    ensures count <= r * pageSize
    ensures r > 0 ==> (r - 1) * pageSize < count
    ensures r == 0 <==> count == 0
  {
    count / pageSize + (if count % pageSize > 0 then 1 else 0)
  }

  /** A page number past the last page moves to the last page. */
  function ClampPage(page: int, totalPages: nat): (r: int)
    requires totalPages > 0
    ensures r < totalPages
    ensures page >= totalPages ==> r == totalPages - 1
    ensures page < totalPages ==> r == page
    ensures 0 <= page ==> 0 <= r
  {
    if page >= totalPages then totalPages - 1 else page
  }

  /** The previous-page button: steps back unless on the first page. */
  function PrevPage(page: int): (r: int)
    ensures page > 0 ==> r == page - 1
    ensures page <= 0 ==> r == page
  {
    if page > 0 then page - 1 else page
  }

  /** The next-page button: steps forward unless on the last page. */
  function NextPage(page: int, totalPages: nat): (r: int)
    ensures page < totalPages - 1 ==> r == page + 1
    ensures page >= totalPages - 1 ==> r == page
  {
    if page < totalPages - 1 then page + 1 else page
  }

  /** Both buttons keep a page number inside [0, totalPages - 1]. */
  lemma StepsStayInRange(page: int, totalPages: nat)
    requires 0 <= page < totalPages
    ensures 0 <= PrevPage(page) < totalPages
    ensures 0 <= NextPage(page, totalPages) < totalPages
  {
  }

  /** Previous undoes next, and next undoes previous, away from the ends. */
  lemma PrevNextInverse(page: int, totalPages: nat)
    ensures page < totalPages - 1 && 0 <= page ==> PrevPage(NextPage(page, totalPages)) == page
    ensures 0 < page < totalPages ==> NextPage(PrevPage(page), totalPages) == page
  {
  }

  /** First row shown on `page`. */
  function PageStart(page: nat, pageSize: nat): nat {
    page * pageSize
  }

  /** One past the last row shown on `page`: a full page, cut at the list end. */
  function PageEnd(page: nat, pageSize: nat, count: nat): nat {
    var end := page * pageSize + pageSize;
    if end > count then count else end
  }

  /** The rows [start, end) a valid page shows lie inside the list, are never
      empty, and hold at most one page of rows. */
  lemma {:induction false} PageRangeInBounds(page: nat, pageSize: nat, count: nat)
    requires pageSize > 0
    requires page < TotalPages(count, pageSize)
    ensures 0 <= PageStart(page, pageSize) < PageEnd(page, pageSize, count) <= count
    ensures PageEnd(page, pageSize, count) - PageStart(page, pageSize) <= pageSize
  {
    var tp := TotalPages(count, pageSize);
    assert page * pageSize <= (tp - 1) * pageSize by {
      MultiplyMonotone(page, tp - 1, pageSize);
    }
  }

  lemma MultiplyMonotone(a: nat, b: nat, c: nat)
    requires a <= b
    ensures a * c <= b * c
  {
  }

  /** Row `k` of the list is shown on page `k / pageSize` and on no other
      page; that page is a valid one. */
  lemma RowOnExactlyOnePage(k: nat, page: nat, pageSize: nat, count: nat)
    requires pageSize > 0 && k < count
    ensures k / pageSize < TotalPages(count, pageSize)
    ensures PageStart(page, pageSize) <= k < PageEnd(page, pageSize, count) <==> page == k / pageSize
  {
    var q := k / pageSize;
    DivBounds(k, pageSize);
    RowPageIsValid(k, q, pageSize, count);
    if page < q {
      MultiplyMonotone(page + 1, q, pageSize);
      assert (page + 1) * pageSize == page * pageSize + pageSize;
    } else if page > q {
      MultiplyMonotone(q + 1, page, pageSize);
      assert (q + 1) * pageSize == q * pageSize + pageSize;
    }
  }

  lemma DivBounds(k: nat, pageSize: nat)
    requires pageSize > 0
    ensures (k / pageSize) * pageSize <= k < (k / pageSize) * pageSize + pageSize
  {
  }

  lemma RowPageIsValid(k: nat, q: nat, pageSize: nat, count: nat)
    requires pageSize > 0 && k < count && q * pageSize <= k
    ensures q < TotalPages(count, pageSize)
  {
    var tp := TotalPages(count, pageSize);
    if q >= tp {
      MultiplyMonotone(tp, q, pageSize);
    }
  }
}
