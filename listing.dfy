/** The `GET` list endpoints of courses and mentors: `page`, `limit` and `search` read from the
    query string with their defaults, the count query and the page query they send, and the
    pagination block of the answer. */
module Listing {
  import opened JsValues

  /** The query-string parameters; `None` stands for a parameter that is not there. */
  datatype ListRequest = ListRequest(page: Option<string>, limit: Option<string>, search: Option<string>)

  /** `{ [field]: { contains: text, mode: "insensitive" } }`. */
  datatype Filter = Contains(field: string, text: string)

  /** A `findMany` with `orderBy: { [orderBy]: "desc" }`, `skip` and `take`. */
  datatype PageQuery = PageQuery(filter: Filter, orderBy: string, skip: int, take: int)

  datatype Pagination = Pagination(page: int, limit: int, total: nat, totalPages: int)

  /** What one list request does: the filter it counts with, the page query it sends, and the
      pagination it reports once the count is known. */
  datatype ListPlan = ListPlan(count: Filter, find: PageQuery, pagination: Pagination)

  const DefaultPage: int := 1
  const DefaultLimit: int := 9

  /** `Number(searchParams.get(name)) || fallback`: `Number(null)` is 0, and 0 and NaN are
      falsy; `toNumber` stands for the string-to-number conversion (`None` for NaN). */
  function NumberOr(text: Option<string>, toNumber: string -> Option<int>, fallback: int): (r: int)
    ensures fallback != 0 ==> r != 0
    ensures text.None? ==> r == fallback
    ensures text.Some? && toNumber(text.value).Some? && toNumber(text.value).value != 0 ==>
            r == toNumber(text.value).value
    ensures text.Some? && (toNumber(text.value).None? || toNumber(text.value) == Some(0)) ==>
            r == fallback
  {
    match text
    case None => fallback
    case Some(s) =>
      match toNumber(s)
      case Some(n) => if n != 0 then n else fallback
      case None => fallback
  }

  /** `searchParams.get("search") || ""`. */
  function SearchText(search: Option<string>): (r: string)
    ensures search.None? ==> r == ""
    ensures search.Some? ==> r == search.value
  {
    if search.None? then "" else search.value
  }

  /** `Math.ceil(total / limit)` for a limit that is not 0. */
  function CeilDiv(total: nat, limit: int): (r: int)
    requires limit != 0
    ensures limit > 0 ==> (r - 1) * limit < total <= r * limit
    ensures limit > 0 ==> r >= 0 && (total > 0 ==> r >= 1)
    ensures limit < 0 ==> r * limit <= total < (r - 1) * limit
  {
    var t: int := total;
    if limit > 0 then -((-t) / limit) else -(t / (-limit))
  }

  /** The list request on the table whose rows are searched by `field` and listed newest first
      by `orderBy`, `total` being the number of rows the count found. */
  function Plan(request: ListRequest, toNumber: string -> Option<int>, field: string, orderBy: string,
                total: nat): (r: ListPlan)
    ensures r.count == r.find.filter == Contains(field, SearchText(request.search))
    ensures r.pagination.page == NumberOr(request.page, toNumber, DefaultPage)
    ensures r.pagination.limit == NumberOr(request.limit, toNumber, DefaultLimit)
    ensures r.find.skip == (r.pagination.page - 1) * r.pagination.limit
    ensures r.find.take == r.pagination.limit && r.find.orderBy == orderBy
    ensures r.pagination.total == total && r.pagination.totalPages == CeilDiv(total, r.pagination.limit)
  {
    var page := NumberOr(request.page, toNumber, DefaultPage);
    var limit := NumberOr(request.limit, toNumber, DefaultLimit);
    var filter := Contains(field, SearchText(request.search));
    ListPlan(filter, PageQuery(filter, orderBy, (page - 1) * limit, limit),
             Pagination(page, limit, total, CeilDiv(total, limit)))
  }

  /** Without parameters a list request asks for the first nine matching rows of all rows. */
  lemma PlanDefaults(toNumber: string -> Option<int>, field: string, orderBy: string, total: nat)
    ensures var r := Plan(ListRequest(None, None, None), toNumber, field, orderBy, total);
            && r.pagination.page == 1 && r.pagination.limit == 9
            && r.find == PageQuery(Contains(field, ""), orderBy, 0, 9)
  {
  }

  /** The parameter is there and reads as a number other than 0, so `||` keeps it. */
  predicate ReadsAsNumber(text: Option<string>, toNumber: string -> Option<int>) {
    text.Some? && toNumber(text.value).Some? && toNumber(text.value).value != 0
  }

  /** A page or a limit that is missing, or reads as 0 or as NaN, falls back to its own
      default, whatever the other parameter is. */
  lemma PlanZeroFallsBack(request: ListRequest, toNumber: string -> Option<int>, field: string,
                          orderBy: string, total: nat)
    ensures var r := Plan(request, toNumber, field, orderBy, total);
            && (!ReadsAsNumber(request.page, toNumber) ==> r.pagination.page == 1 && r.find.skip == 0)
            && (!ReadsAsNumber(request.limit, toNumber) ==> r.pagination.limit == 9 && r.find.take == 9)
  {
  }

  /** A page or a limit that reads as a number is served as asked, whatever the other
      parameter is: `?page=3&limit=5` skips the first ten rows and takes five. */
  lemma PlanServesRequested(request: ListRequest, toNumber: string -> Option<int>, field: string,
                            orderBy: string, total: nat)
    ensures var r := Plan(request, toNumber, field, orderBy, total);
            && (ReadsAsNumber(request.page, toNumber) ==>
                  r.pagination.page == toNumber(request.page.value).value)
            && (ReadsAsNumber(request.limit, toNumber) ==>
                  r.pagination.limit == r.find.take == toNumber(request.limit.value).value)
            && (ReadsAsNumber(request.page, toNumber) && ReadsAsNumber(request.limit, toNumber) ==>
                  r.find.skip == (toNumber(request.page.value).value - 1) * toNumber(request.limit.value).value)
  {
  }

  /** The page query starts after the rows of the earlier pages, takes one page, and uses the
      filter of the count; with a positive limit the reported number of pages is the least
      number of pages that holds all counted rows. */
  lemma PlanPages(request: ListRequest, toNumber: string -> Option<int>, field: string,
                  orderBy: string, total: nat)
    ensures var r := Plan(request, toNumber, field, orderBy, total);
            && r.find.skip == (r.pagination.page - 1) * r.pagination.limit
            && r.count == r.find.filter == Contains(field, SearchText(request.search))
            && (r.pagination.limit > 0 ==>
                  (r.pagination.totalPages - 1) * r.pagination.limit < total
                  <= r.pagination.totalPages * r.pagination.limit)
  {
  }

  function Min(a: int, b: int): int {
    if a <= b then a else b
  }

  /** The rows a page query returns from the rows that match, newest first. */
  function PageRows<T>(rows: seq<T>, page: int, limit: int): (r: seq<T>)
    requires page >= 1 && limit >= 1
    ensures |r| <= limit
  {
    var skip := (page - 1) * limit;
    if skip >= |rows| then [] else rows[skip..Min(skip + limit, |rows|)]
  }

  /** Pages 1 to n, one after the other. */
  function FirstPages<T>(rows: seq<T>, limit: int, n: nat): seq<T>
    requires limit >= 1
  {
    if n == 0 then [] else FirstPages(rows, limit, n - 1) + PageRows(rows, n, limit)
  }

  /** The first n pages are the first n * limit rows. */
  lemma {:induction false} FirstPagesArePrefix<T>(rows: seq<T>, limit: int, n: nat)
    requires limit >= 1
    ensures FirstPages(rows, limit, n) == rows[..Min(n * limit, |rows|)]
  {
    if n > 0 {
      FirstPagesArePrefix(rows, limit, n - 1);
      var skip := (n - 1) * limit;
      assert n * limit == skip + limit;
      if skip < |rows| {
        assert rows[..skip] + rows[skip..Min(skip + limit, |rows|)] == rows[..Min(n * limit, |rows|)];
      }
    }
  }

  /** Reading pages 1 to `totalPages` returns every matching row once, in order, and the last
      of them is not empty. */
  lemma PagesCoverRows<T>(rows: seq<T>, limit: int)
    requires limit >= 1
    ensures FirstPages(rows, limit, CeilDiv(|rows|, limit)) == rows
    ensures |rows| > 0 ==> PageRows(rows, CeilDiv(|rows|, limit), limit) != []
  {
    var n := CeilDiv(|rows|, limit);
    var skip := (n - 1) * limit;
    assert n * limit == skip + limit;
    FirstPagesArePrefix(rows, limit, n);
    assert Min(n * limit, |rows|) == |rows|;
  }
}
