/** `PaginationHelper`: the pagination block of an API answer. */
module PaginationHelper {

  /** What a length-aware paginator reports about the page it holds. */
  datatype Paginator = Paginator(currentPage: int, lastPage: int, perPage: int, total: int)

  /** The `currentPage`, `lastPage`, `perPage` and `total` entries. */
  datatype Meta = Meta(currentPage: int, lastPage: int, perPage: int, total: int)

  /** `meta`: the paginator's four figures, unchanged. */
  function MetaOf(p: Paginator): Meta {
    Meta(p.currentPage, p.lastPage, p.perPage, p.total)
  }

  const DefaultPerPage: int := 10

  /** `empty`: the first and only page of nothing, `perPage` (by default 10)
      entries long. */
  function Empty(perPage: int := DefaultPerPage): Meta {
    Meta(1, 1, perPage, 0)
  }

  /** The number of pages a length-aware paginator counts: `total / perPage`
      rounded up, and at least one. */
  function PageCount(total: nat, perPage: int): (n: int)
    requires perPage >= 1
    ensures n >= 1
    ensures (n - 1) * perPage < total || n == 1
    ensures total <= n * perPage
  {
    var pages := (total + perPage - 1) / perPage;
    if pages < 1 then 1 else pages
  }

  /** The paginator of `total` items at page `page`. */
  function PaginatorOf(total: nat, perPage: int, page: int): Paginator
    requires perPage >= 1
  {
    Paginator(page, PageCount(total, perPage), perPage, total)
  }

  /** `meta` loses nothing: two paginators with the same meta block report
      the same page, page count, page size and total. */
  lemma MetaLossless(p: Paginator, q: Paginator)
    ensures MetaOf(p) == MetaOf(q) <==> p == q
  {
  }

  /** The meta block of a query's paginator is consistent: the current
      page is the one asked for, the last page is at least 1, and the pages
      before the last are too few for the total. */
  lemma MetaOfPaginator(total: nat, perPage: int, page: int)
    requires perPage >= 1
    ensures var m := MetaOf(PaginatorOf(total, perPage, page));
      m.currentPage == page && m.total == total && m.perPage == perPage
      && m.lastPage >= 1 && total <= m.lastPage * m.perPage
      && (m.lastPage == 1 || (m.lastPage - 1) * m.perPage < total)
  {
  }

  /** `empty` is what `meta` reports for the first page of no results, so an
      empty answer and an answer whose query found nothing agree. */
  lemma EmptyIsMetaOfNothing(perPage: int)
    requires perPage >= 1
    ensures MetaOf(PaginatorOf(0, perPage, 1)) == Empty(perPage)
  {
  }

  /** Without an argument `empty` tells ten entries per page. */
  lemma EmptyDefault()
    ensures Empty().perPage == 10 && Empty() == Empty(10)
  {
  }
}
