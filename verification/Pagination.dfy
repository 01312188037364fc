/** Page metadata, for whatever page and limit a caller asks for. */
module Pagination {

  /** A quotient that was rounded up; division by zero gives infinity or no number. */
  datatype PageCount = Pages(n: int) | Infinite | NotANumber {
    predicate Exceeds(page: int) {
      match this
      case Pages(n) => page < n
      case Infinite => true
      case NotANumber => false
    }
  }

  datatype PaginationMeta = PaginationMeta(
    page: int,
    limit: int,
    total: nat,
    totalPages: PageCount,
    hasNextPage: bool,
    hasPreviousPage: bool)

  /** The quotient for a positive limit, rounded up. */
  function CeilDiv(total: nat, limit: int): (pages: nat)
    requires limit >= 1
    ensures (pages - 1) * limit < total <= pages * limit || total == pages == 0
  {
    (total + limit - 1) / limit
  }

  /** Math.ceil(total / limit) */
  function TotalPages(total: nat, limit: int): PageCount {
    if limit > 0 then Pages(CeilDiv(total, limit))
    else if limit < 0 then Pages(-(total / -limit))
    else if total > 0 then Infinite
    else NotANumber
  }

  function BuildPaginationMeta(page: int, limit: int, total: nat): PaginationMeta {
    var totalPages := TotalPages(total, limit);
    PaginationMeta(page, limit, total, totalPages, totalPages.Exceeds(page), page > 1)
  }

  /**
   * With a positive limit, a page has a successor exactly when the pages up to it do not hold
   * everything; with none, when there is anything at all; with a negative one, when the product
   * of page and limit exceeds the total.
   */
  lemma HasNextPageIff(page: int, limit: int, total: nat)
    ensures var meta := BuildPaginationMeta(page, limit, total);
            meta.page == page && meta.limit == limit && meta.total == total && (meta.hasPreviousPage <==> page > 1)
    ensures BuildPaginationMeta(page, limit, total).hasNextPage <==>
            if limit > 0 then page * limit < total else if limit == 0 then total > 0 else page * limit > total
  {
    if limit > 0 {
      CeilDivExceedsIff(page, limit, total);
    } else if limit < 0 {
      FloorBelowIff(-page, -limit, total);
      assert -page * -limit == page * limit;
    }
  }

  lemma CeilDivExceedsIff(page: int, limit: int, total: nat)
    requires limit > 0
    ensures page < CeilDiv(total, limit) <==> page * limit < total
  {
    var pages: int := CeilDiv(total, limit);
    if page < pages {
      TimesMonotone(page, pages - 1, limit);
    } else {
      TimesMonotone(pages, page, limit);
    }
  }

  lemma FloorBelowIff(m: int, divisor: int, total: nat)
    requires divisor > 0
    ensures total / divisor < m <==> m * divisor > total
  {
    var n := total / divisor;
    Quotient(total, divisor, n);
    if n < m {
      TimesMonotone(n + 1, m, divisor);
    } else {
      TimesMonotone(m, n, divisor);
    }
  }

  lemma Quotient(total: nat, divisor: int, n: int)
    requires divisor > 0 && n == total / divisor
    ensures n * divisor <= total < (n + 1) * divisor
  {
    assert total == divisor * n + total % divisor;
  }

  lemma TimesMonotone(a: int, b: int, c: nat)
    requires a <= b
    ensures a * c <= b * c
  {
  }
}
