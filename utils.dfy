/** Response wrappers and pagination arithmetic shared by the handlers. */
module Utils {
  import opened Common

  datatype ApiResponse<T> = ApiResponse(success: bool, data: Option<T>, error: Option<string>, message: Option<string>)

  /** `successResponse`: a successful reply carrying the data. */
  function SuccessResponse<T>(data: T, message: Option<string>): (r: ApiResponse<T>)
    ensures r.success && r.data == Some(data) && r.error.None? && r.message == message
  {
    ApiResponse(true, Some(data), None, message)
  }

  /** `errorResponse`: a failed reply carrying the error and no data. */
  function ErrorResponse<T>(error: string): (r: ApiResponse<T>)
    ensures !r.success && r.error == Some(error) && r.data.None?
  {
    ApiResponse(false, None, Some(error), None)
  }

  datatype PaginationParams = PaginationParams(page: int, limit: int, skip: int)

  /** `parsePagination` on already-parsed numbers (absent or empty parameters are None):
      page at least 1 (default 1), limit clamped into [1, 100] (default 20), and
      skip the number of items on the earlier pages. */
  function ParsePagination(page: Option<int>, limit: Option<int>): (r: PaginationParams)
    ensures r.page >= 1 && 1 <= r.limit <= 100
    ensures r.page == (if page.GetOr(1) >= 1 then page.GetOr(1) else 1)
    ensures limit.None? ==> r.limit == 20
    ensures limit.Some? && 1 <= limit.value <= 100 ==> r.limit == limit.value
    ensures limit.Some? && limit.value > 100 ==> r.limit == 100
    ensures limit.Some? && limit.value < 1 ==> r.limit == 1
    ensures r.skip == (r.page - 1) * r.limit && r.skip >= 0
  {
    var p := if page.GetOr(1) >= 1 then page.GetOr(1) else 1;
    var l := if limit.GetOr(20) > 100 then 100 else if limit.GetOr(20) < 1 then 1 else limit.GetOr(20);
    MulMono(0, p - 1, l);
    PaginationParams(p, l, (p - 1) * l)
  }

  /** `Math.ceil(total / limit)` for a positive limit. */
  function CeilDiv(total: nat, limit: int): (r: nat)
    requires limit >= 1
    ensures (r - 1) * limit < total <= r * limit || (total == 0 && r == 0)
  {
    (total + limit - 1) / limit
  }

  datatype Pagination = Pagination(page: int, limit: int, total: nat, totalPages: nat, hasNext: bool, hasPrev: bool)

  /** `paginatedResponse`: the page of data with its pagination summary. */
  function PaginatedResponse<T>(data: seq<T>, total: nat, params: PaginationParams): (r: (seq<T>, Pagination))
    requires params.limit >= 1
    ensures r.0 == data
    ensures r.1.page == params.page && r.1.limit == params.limit && r.1.total == total
    ensures r.1.totalPages == CeilDiv(total, params.limit)
    ensures r.1.hasNext <==> params.page < r.1.totalPages
    ensures r.1.hasPrev <==> params.page > 1
  {
    var totalPages := CeilDiv(total, params.limit);
    (data, Pagination(params.page, params.limit, total, totalPages, params.page < totalPages, params.page > 1))
  }

  /** There is a next page exactly when the items up to the end of this page do not
      exhaust the total. */
  lemma HasNextIffMoreItems<T>(data: seq<T>, total: nat, params: PaginationParams)
    requires params.limit >= 1 && params.page >= 1
    ensures PaginatedResponse(data, total, params).1.hasNext <==> params.page * params.limit < total
  {
    var t := CeilDiv(total, params.limit);
    var p, l := params.page, params.limit;
    if p < t {
      assert p <= t - 1;
      MulMono(p, t - 1, l);
    } else if p * l < total {
      MulMono(t, p, l);
    }
  }

  lemma MulMono(a: int, b: int, c: int)
    requires a <= b && c >= 0
    ensures a * c <= b * c
  {
  }
}
