/**
 * Offset pagination over a Prisma model: the skip/take window a page asks
 * for and the metadata returned with the rows. The database calls are not
 * modelled: the rows and the total count are parameters.
 */
module Pagination {
  import opened Wrappers

  datatype PaginationInput = PaginationInput(page: int, perPage: int)
  datatype SkipTake = SkipTake(skip: int, take: int)
  datatype Meta = Meta(total: nat, totalPages: int, perPage: int, page: int)
  datatype PaginatedResult<T> = PaginatedResult(data: seq<T>, meta: Meta)

  /** `Math.floor(a / b)` for integers, `b` non-zero. */
  function FloorDiv(a: int, b: int): (q: int)
    requires b != 0
    ensures b > 0 ==> q * b <= a < q * b + b
    ensures b < 0 ==> q * b >= a > q * b + b
  {
    if b > 0 then a / b else (-a) / (-b)
  }

  /** `Math.ceil(a / b)` for integers, `b` non-zero. */
  function CeilDiv(a: int, b: int): (q: int)
    requires b != 0
    ensures b > 0 ==> q * b - b < a <= q * b
  {
    -FloorDiv(-a, b)
  }

  /** `toPrismaSkipTake(pagination)`: the rows before the page and the page's size. */
  function ToPrismaSkipTake(p: PaginationInput): (r: SkipTake)
    ensures r.take == p.perPage
    ensures p.page >= 1 && p.perPage >= 0 ==> r.skip >= 0
  {
    SkipTake((p.page - 1) * p.perPage, p.perPage)
  }

  /** The defaults `findManyWithPagination` applies: page 1 of 100 when no pagination is given, 0 for a falsy skip, 10 for a falsy take. */
  function QueryWindow(pagination: Option<PaginationInput>): (r: SkipTake)
    ensures pagination.None? ==> r == SkipTake(0, 100)
    ensures r.take != 0
    ensures pagination.Some? && pagination.value.perPage != 0 ==> r == ToPrismaSkipTake(pagination.value)
    ensures pagination.Some? && pagination.value.perPage == 0 ==> r == SkipTake(0, 10)
  {
    var params := ToPrismaSkipTake(pagination.GetOr(PaginationInput(1, 100)));
    var skip := if params.skip == 0 then 0 else params.skip;
    var take := if params.take == 0 then 10 else params.take;
    SkipTake(skip, take)
  }

  /**
   * `findManyWithPagination`: the rows the delegate returned for the window,
   * and `totalPages = ceil(total / take)`, `perPage = take`,
   * `page = floor(skip / take) + 1`.
   */
  function FindManyWithPagination<T>(pagination: Option<PaginationInput>, rows: seq<T>, total: nat): (r: PaginatedResult<T>)
    ensures r.data == rows && r.meta.total == total && r.meta.perPage == QueryWindow(pagination).take
  {
    var w := QueryWindow(pagination);
    PaginatedResult(rows, Meta(total, CeilDiv(total, w.take), w.take, FloorDiv(w.skip, w.take) + 1))
  }

  /** A positive multiple of a positive `b` is at least `b`. */
  lemma {:induction false} MulAtLeast(d: int, b: int)
    requires b > 0
    ensures d >= 1 ==> d * b >= b
  {
    if d >= 1 {
      assert d * b == (d - 1) * b + b;
    }
  }

  /** A negative multiple of a positive `b` is at most `-b`. */
  lemma {:induction false} MulAtMost(d: int, b: int)
    requires b > 0
    ensures d <= -1 ==> d * b + b <= 0
  {
    if d <= -1 {
      assert d * b + b == (d + 1) * b;
    }
  }

  /** Only 0 times a positive `b` lies in `(-b, 0]`. */
  lemma {:induction false} OnlyZero(d: int, b: int)
    requires b > 0 && d * b <= 0 < d * b + b
    ensures d == 0
  {
    MulAtLeast(d, b);
    MulAtMost(d, b);
  }

  lemma {:induction false} ExactFloor(a: int, b: int)
    requires b != 0
    ensures FloorDiv(a * b, b) == a
  {
    var q := FloorDiv(a * b, b);
    if b > 0 {
      assert q * b - a * b == (q - a) * b;
      OnlyZero(q - a, b);
    } else {
      assert q * b - a * b == (q - a) * b;
      assert (q - a) * (-b) == -((q - a) * b);
      OnlyZero(q - a, -b);
    }
  }

  /** The metadata gives back the page that was asked for, for any non-zero page size. */
  lemma {:induction false} MetaPageRoundTrip<T>(p: PaginationInput, rows: seq<T>, total: nat)
    requires p.perPage != 0
    ensures FindManyWithPagination(Some(p), rows, total).meta.page == p.page
    ensures FindManyWithPagination(Some(p), rows, total).meta.perPage == p.perPage
  {
    ExactFloor(p.page - 1, p.perPage);
    assert (p.page - 1) * p.perPage == ToPrismaSkipTake(p).skip;
  }

  /** A page size of 0 reads ten rows from the start and reports page 1, whatever page was asked for. */
  lemma {:induction false} ZeroPageSize<T>(p: PaginationInput, rows: seq<T>, total: nat)
    requires p.perPage == 0
    ensures var r := FindManyWithPagination(Some(p), rows, total);
      QueryWindow(Some(p)) == SkipTake(0, 10) && r.meta.page == 1 && r.meta.perPage == 10
  {
  }

  /** `totalPages` is the fewest pages of `perPage` rows that hold every row. */
  lemma {:induction false} TotalPagesLeast<T>(pagination: Option<PaginationInput>, rows: seq<T>, total: nat)
    requires QueryWindow(pagination).take > 0
    ensures var m := FindManyWithPagination(pagination, rows, total).meta;
      m.totalPages * m.perPage >= total && (m.totalPages - 1) * m.perPage < total
  {
    var m := FindManyWithPagination(pagination, rows, total).meta;
    assert m.totalPages * m.perPage - m.perPage == (m.totalPages - 1) * m.perPage;
  }
}
