/** `getPaginationParams`: the page/limit clamping every listing uses. The
    query-string parsing is not modelled: an absent parameter is `None`, a
    present one is the integer `parseInt` produced. */
module Pagination {
  import opened Domain

  datatype PageParams = PageParams(page: int, limit: int, skip: int)

  const DefaultLimit := 10
  const MaxLimit := 100

  function Max(a: int, b: int): int { if a < b then b else a }
  function Min(a: int, b: int): int { if a < b then a else b }

  function GetPaginationParams(page: Option<int>, limit: Option<int>): (r: PageParams)
    ensures r.page >= 1
    ensures 1 <= r.limit <= MaxLimit
    ensures page.None? ==> r.page == 1
    ensures limit.None? ==> r.limit == DefaultLimit
    ensures page.Some? && page.value >= 1 ==> r.page == page.value
    ensures limit.Some? && 1 <= limit.value <= MaxLimit ==> r.limit == limit.value
    ensures limit.Some? && limit.value > MaxLimit ==> r.limit == MaxLimit
    ensures page.Some? && page.value < 1 ==> r.page == 1
    ensures limit.Some? && limit.value < 1 ==> r.limit == 1
    ensures r.skip == (r.page - 1) * r.limit
  {
    var pageNum := Max(1, match page case Some(p) => p case None => 1);
    var limitNum := Min(MaxLimit, Max(1, match limit case Some(l) => l case None => DefaultLimit));
    PageParams(pageNum, limitNum, (pageNum - 1) * limitNum)
  }

  /** The rows a page skips are exactly the rows of the earlier pages: the
      offset is non-negative and one page short of page × limit. */
  lemma SkipIsPageOffset(page: Option<int>, limit: Option<int>)
    ensures var r := GetPaginationParams(page, limit);
      && r.skip >= 0
      && r.skip + r.limit == r.page * r.limit
  {
    var r := GetPaginationParams(page, limit);
    assert r.page - 1 >= 0 && r.limit >= 1;
    assert r.skip + r.limit == (r.page - 1) * r.limit + r.limit;
  }

  /** Clamping is idempotent: feeding the page and limit back in gives the same
      parameters. */
  lemma ClampingIsIdempotent(page: Option<int>, limit: Option<int>)
    ensures var r := GetPaginationParams(page, limit);
      GetPaginationParams(Some(r.page), Some(r.limit)) == r
  {
  }
}
