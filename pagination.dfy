/**
 * The `pagination` helper of src/repository/SQRepository.js: (page, size) to
 * (limit, offset), and a count plus rows to a page envelope. A page or size
 * counts as given only when it is present and non-zero (JavaScript truthiness).
 */
module Pagination {
  import opened Wrappers
  import opened JsValues

  const DefaultLimit: int := 10

  /** `x ? ... : ...` on an optional number: absent and `0` are both falsy. */
  predicate Given(o: Option<int>)
  {
    o.Some? && o.value != 0
  }

  datatype Paging = Paging(limit: int, offset: int)

  /** What the store answers to a count-and-list query. */
  datatype CountRows = CountRows(count: int, rows: seq<Record>)

  datatype PageEnvelope = PageEnvelope(totalItems: int, rows: seq<Record>, totalPages: int, currentPage: int)

  /** `Math.ceil(n / d)` on integers: the least integer not below the quotient. */
  function CeilDiv(n: int, d: int): (r: int)
    requires d != 0
    ensures d > 0 ==> (r - 1) * d < n <= r * d
    ensures d < 0 ==> r * d <= n < (r - 1) * d
  {
    if d > 0 then CeilPos(n, d)
    else
      var r := CeilPos(-n, -d);
      assert r * d == -(r * -d) && (r - 1) * d == -((r - 1) * -d);
      r
  }

  function CeilPos(n: int, d: int): (r: int)
    requires d > 0
    ensures (r - 1) * d < n <= r * d
  {
    var q := n / d;
    assert n == q * d + n % d;
    assert (q + 1) * d == q * d + d;
    if n % d == 0 then q else q + 1
  }

  /** `getPagination`: the size when given, else 10; the page times that limit when a page is given, else 0. */
  function GetPagination(page: Option<int>, size: Option<int>): (r: Paging)
    ensures r.limit != 0
    ensures Given(size) ==> r.limit == size.value
    ensures !Given(size) ==> r.limit == DefaultLimit
    ensures Given(page) ==> r.offset == page.value * r.limit
    ensures !Given(page) ==> r.offset == 0
  {
    var limit := if Given(size) then size.value else DefaultLimit;
    var offset := if Given(page) then page.value * limit else 0;
    Paging(limit, offset)
  }

  /**
   * `getPagingData`: count and rows pass through, the current page is the page
   * when given, else 0, and the total pages are the count divided by the limit,
   * rounded up; for a positive limit the last page is the one that holds the
   * last row.
   */
  function GetPagingData(data: CountRows, page: Option<int>, limit: int): (r: PageEnvelope)
    requires limit != 0
    ensures r.totalItems == data.count && r.rows == data.rows
    ensures r.currentPage == if Given(page) then page.value else 0
    ensures limit > 0 ==> (r.totalPages - 1) * limit < data.count <= r.totalPages * limit
    ensures limit < 0 ==> r.totalPages * limit <= data.count < (r.totalPages - 1) * limit
  {
    var totalItems := data.count;
    var currentPage := if Given(page) then page.value else 0;
    var totalPages := CeilDiv(totalItems, limit);
    PageEnvelope(totalItems, data.rows, totalPages, currentPage)
  }

  /** A missing page or size and a zero one are the same request. */
  lemma ZeroIsAbsent(page: Option<int>, size: Option<int>)
    ensures GetPagination(None, size) == GetPagination(Some(0), size)
    ensures GetPagination(page, None) == GetPagination(page, Some(0))
  {
  }

  /** Every page number, zero included, starts at that number times the limit. */
  lemma OffsetIsPageTimesLimit(p: int, size: Option<int>)
    ensures GetPagination(Some(p), size).offset == p * GetPagination(Some(p), size).limit
  {
  }

  /** Page p + 1 starts where page p ends. */
  lemma NextPageFollows(p: nat, size: Option<int>)
    ensures GetPagination(Some(p + 1), size).offset
         == GetPagination(Some(p), size).offset + GetPagination(Some(p), size).limit
  {
    var limit := GetPagination(Some(p), size).limit;
    OffsetIsPageTimesLimit(p, size);
    OffsetIsPageTimesLimit(p + 1, size);
    assert (p + 1) * limit == p * limit + limit;
  }

  /** With a positive limit, row `row` lies on page `row / limit`. */
  lemma RowOnPage(row: nat, size: Option<int>)
    requires GetPagination(None, size).limit > 0
    ensures var limit := GetPagination(None, size).limit;
            var start := GetPagination(Some(row / limit), size).offset;
            start <= row < start + limit
  {
    var limit := GetPagination(None, size).limit;
    var p := row / limit;
    OffsetIsPageTimesLimit(p, size);
    assert row == p * limit + row % limit;
  }

  /** The last page reported by the envelope starts before the last row and reaches it. */
  lemma LastPageHoldsLastRow(count: int, rows: seq<Record>, page: Option<int>, size: Option<int>)
    requires count > 0 && GetPagination(page, size).limit > 0
    ensures var limit := GetPagination(page, size).limit;
            var last := GetPagingData(CountRows(count, rows), page, limit).totalPages - 1;
            var start := GetPagination(Some(last), size).offset;
            last >= 0 && start < count <= start + limit
  {
    var limit := GetPagination(page, size).limit;
    var last := GetPagingData(CountRows(count, rows), page, limit).totalPages - 1;
    OffsetIsPageTimesLimit(last, size);
    assert (last + 1) * limit == last * limit + limit;
  }

  /** `getPagination(2, 5)` is `{ limit: 5, offset: 10 }`; with neither it is `{ limit: 10, offset: 0 }`. */
  lemma PaginationExamples()
    ensures GetPagination(Some(2), Some(5)) == Paging(5, 10)
    ensures GetPagination(None, None) == Paging(10, 0)
  {
  }

  /** 23 rows at 5 per page, page 2: five pages. */
  lemma PagingDataExample(rows: seq<Record>)
    ensures GetPagingData(CountRows(23, rows), Some(2), 5) == PageEnvelope(23, rows, 5, 2)
  {
  }
}
