/** `paginate` and `paginate_response`: one page of a query's rows and the
    page block that describes it. The query is its list of rows, in the
    order the database returns them; the count either answers the number
    of rows or raises. */
module Pagination {
  import opened Wrappers

  /** The `pagination` block of a response. */
  datatype PageInfo = PageInfo(
    page: int,
    perPage: int,
    total: int,
    totalPages: int,
    hasNext: bool,
    hasPrev: bool,
    nextPage: Option<int>,
    prevPage: Option<int>)

  datatype Paginated<T> = Paginated(items: seq<T>, pagination: PageInfo)

  datatype Response<U> = Response(data: seq<U>, pagination: PageInfo)

  function Min(a: int, b: int): int {
    if a <= b then a else b
  }

  function Max(a: int, b: int): int {
    if a >= b then a else b
  }

  /** `query.limit(limit).offset(offset)`: the rows from index `offset` on,
      at most `limit` of them. */
  function Window<T>(rows: seq<T>, offset: nat, limit: nat): (r: seq<T>)
    ensures |r| == if offset >= |rows| then 0 else Min(limit, |rows| - offset)
    ensures forall i :: 0 <= i < |r| ==> r[i] == rows[offset + i]
  {
    if offset >= |rows| then [] else rows[offset..offset + Min(limit, |rows| - offset)]
  }

  /** The number of pages holding `total` rows, `perPage` to a page:
      `(total + per_page - 1) // per_page`. */
  function PageCount(total: nat, perPage: nat): (n: nat)
    requires perPage >= 1
  {
    (total + perPage - 1) / perPage
  }

  /** `paginate(query, page, per_page, max_per_page)`. `countOk` is false
      when `query.count()` raises. A page size that ends up 0 divides by
      zero when the page count is computed, and a negative one is an
      invalid `LIMIT`; both are `None`. */
  function Paginate<T>(rows: seq<T>, countOk: bool, page: int, perPage: int, maxPerPage: int): (r: Option<Paginated<T>>)
    ensures r.None? <==> Min(perPage, maxPerPage) <= 0
    ensures r.Some? ==>
              && r.value.pagination.perPage == Min(perPage, maxPerPage)
              && r.value.pagination.page == Max(page, 1)
  {
    var per := Min(perPage, maxPerPage);
    var pg := Max(page, 1);
    if per <= 0 then None
    else
      var items := Window(rows, (pg - 1) * per, per);
      var total := if countOk then |rows| else if pg == 1 then |items| else (pg - 1) * per + |items|;
      var totalPages := PageCount(total, per);
      var hasNext := pg < totalPages;
      var hasPrev := pg > 1;
      Some(Paginated(items, PageInfo(pg, per, total, totalPages, hasNext, hasPrev,
                                     if hasNext then Some(pg + 1) else None,
                                     if hasPrev then Some(pg - 1) else None)))
  }

  /** The page count is the ceiling of `total / perPage`: the pages hold
      every row, and the last page is not empty. */
  lemma PageCountIsCeiling(total: nat, perPage: nat)
    requires perPage >= 1
    ensures PageCount(total, perPage) * perPage >= total
    ensures total > 0 ==> (PageCount(total, perPage) - 1) * perPage < total
    ensures total == 0 ==> PageCount(total, perPage) == 0
  {
    var n := PageCount(total, perPage);
    var m := total + perPage - 1;
    assert m == n * perPage + m % perPage;
  }

  /** The page holds the rows from `(page - 1) * perPage` on, in query
      order, a full page except at the end; the navigation fields agree
      with the flags. */
  lemma PageContents<T>(rows: seq<T>, countOk: bool, page: int, perPage: int, maxPerPage: int)
    requires Min(perPage, maxPerPage) >= 1
    ensures var r := Paginate(rows, countOk, page, perPage, maxPerPage).value;
            var pg := r.pagination.page;
            var per := r.pagination.perPage;
            && |r.items| <= per
            && ((pg - 1) * per + per <= |rows| ==> |r.items| == per)
            && (forall i :: 0 <= i < |r.items| ==> r.items[i] == rows[(pg - 1) * per + i])
            && (r.pagination.hasNext <==> pg < r.pagination.totalPages)
            && (r.pagination.hasPrev <==> pg > 1)
            && (r.pagination.nextPage.Some? <==> r.pagination.hasNext)
            && (r.pagination.nextPage.Some? ==> r.pagination.nextPage.value == pg + 1)
            && (r.pagination.prevPage.Some? <==> r.pagination.hasPrev)
            && (r.pagination.prevPage.Some? ==> r.pagination.prevPage.value == pg - 1)
  {
  }

  /** With a working count, row `i` is on page `i / perPage + 1`, at
      position `i % perPage`, and that page is within the page count. */
  lemma RowIsOnItsPage<T>(rows: seq<T>, perPage: int, maxPerPage: int, i: nat)
    requires Min(perPage, maxPerPage) >= 1 && i < |rows|
    ensures var per := Min(perPage, maxPerPage);
            var r := Paginate(rows, true, i / per + 1, perPage, maxPerPage).value;
            && r.pagination.total == |rows|
            && i / per + 1 <= r.pagination.totalPages
            && i % per < |r.items|
            && r.items[i % per] == rows[i]
  {
    var per := Min(perPage, maxPerPage);
    var q, rm := i / per, i % per;
    DivisionParts(i, per);
    ItemOnPage(rows, true, q + 1, perPage, maxPerPage, rm);
    PageOfRowInRange(i, |rows|, per);
  }

  /** Position `k` of page `page` holds row `(page - 1) * perPage + k`
      whenever that row exists. */
  lemma ItemOnPage<T>(rows: seq<T>, countOk: bool, page: int, perPage: int, maxPerPage: int, k: nat)
    requires Min(perPage, maxPerPage) >= 1 && page >= 1 && k < Min(perPage, maxPerPage)
    requires (page - 1) * Min(perPage, maxPerPage) + k < |rows|
    ensures var r := Paginate(rows, countOk, page, perPage, maxPerPage).value;
            k < |r.items| && r.items[k] == rows[(page - 1) * Min(perPage, maxPerPage) + k]
  {
  }

  lemma DivisionParts(i: nat, per: nat)
    requires per >= 1
    ensures i == (i / per) * per + i % per && 0 <= i % per < per
  {
  }

  /** The page of row `i` is one of the pages holding `total` rows. */
  lemma PageOfRowInRange(i: nat, total: nat, per: nat)
    requires per >= 1 && i < total
    ensures i / per + 1 <= PageCount(total, per)
  {
    var q := i / per;
    var n := PageCount(total, per);
    PageCountIsCeiling(total, per);
    DivisionParts(i, per);
    if n < q + 1 {
      MulMonotone(n, q, per);
      assert false;
    }
  }

  /** With a working count, there is a next page exactly when rows remain
      after this one. */
  lemma HasNextIffMoreRows<T>(rows: seq<T>, page: int, perPage: int, maxPerPage: int)
    requires Min(perPage, maxPerPage) >= 1
    ensures var r := Paginate(rows, true, page, perPage, maxPerPage).value;
            r.pagination.hasNext <==> r.pagination.page * r.pagination.perPage < |rows|
  {
    var per := Min(perPage, maxPerPage);
    var pg := Max(page, 1);
    var n := PageCount(|rows|, per);
    PageCountIsCeiling(|rows|, per);
    if pg < n {
      MulMonotone(pg, n - 1, per);
    }
    if pg * per < |rows| && n <= pg {
      MulMonotone(n, pg, per);
      assert false;
    }
  }

  lemma MulMonotone(a: nat, b: nat, c: nat)
    requires a <= b
    ensures a * c <= b * c
  {
  }

  /** When the count raises, the estimate is the rows before the page plus
      the rows on it; it is the true number of rows when the page is the
      last one holding rows, and an undercount when more rows follow. */
  lemma CountEstimate<T>(rows: seq<T>, page: int, perPage: int, maxPerPage: int)
    requires Min(perPage, maxPerPage) >= 1
    ensures var r := Paginate(rows, false, page, perPage, maxPerPage).value;
            var offset := (r.pagination.page - 1) * r.pagination.perPage;
            && r.pagination.total == offset + |r.items|
            && (offset < |rows| <= offset + r.pagination.perPage ==> r.pagination.total == |rows|)
            && (offset + r.pagination.perPage < |rows| ==> r.pagination.total < |rows|)
  {
  }

  /** `paginate_response`: the serializer applied to each item, in order,
      and the page block passed through. */
  function PaginateResponse<T, U>(p: Paginated<T>, serialize: T -> U): (r: Response<U>)
    ensures |r.data| == |p.items|
    ensures forall i :: 0 <= i < |p.items| ==> r.data[i] == serialize(p.items[i])
    ensures r.pagination == p.pagination
  {
    Response(seq(|p.items|, i requires 0 <= i < |p.items| => serialize(p.items[i])), p.pagination)
  }
}
