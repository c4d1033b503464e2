/**
 * Listing filters and page metadata (internal/data/filters.go): validation of
 * the page, page size and sort parameters, the SQL sort column and direction,
 * the LIMIT/OFFSET window, and the metadata returned with a page of results.
 */
module Pagination {
  import opened Wrappers
  import opened Text
  import opened Validation

  datatype Filters = Filters(page: int, pageSize: int, sort: string, sortSafelist: seq<string>)

  datatype Metadata = Metadata(currentPage: int, pageSize: int, firstPage: int, lastPage: int, totalRecords: int)

  // ---------------------------------------------------------------------------
  // Validation
  // ---------------------------------------------------------------------------

  function PageError(f: Filters): Option<string>
  {
    if f.page <= 0 then Some("must be greater than 0")
    else if f.page >= 10_000_000 then Some("must be less than 10 million")
    else None
  }

  function PageSizeError(f: Filters): Option<string>
  {
    if f.pageSize <= 0 then Some("must be greater than 0")
    else if f.pageSize >= 100 then Some("must be less than 100")
    else None
  }

  function SortError(f: Filters): Option<string>
  {
    if PermittedValue(f.sort, f.sortSafelist) then None else Some("invalid sort value")
  }

  /** The entries ValidateFilters records: each failing key with the message of its first failing check. */
  function FilterErrors(f: Filters): Errors
  {
    Put(Put(Put(map[], "page", PageError(f)), "page_size", PageSizeError(f)), "sort", SortError(f))
  }

  /**
   * Runs the five checks of the source in order. Entries already in the
   * validator are kept; the new ones are FilterErrors(f).
   */
  method ValidateFilters(v: Validator, f: Filters)
    modifies v
    ensures v.errors == FilterErrors(f) + old(v.errors)
  {
    ghost var before := v.errors;
    assert map[] + before == before;
    TwoChecksNewKey(map[], before, "page", f.page > 0, "must be greater than 0", f.page < 10_000_000, "must be less than 10 million");
    v.Check(f.page > 0, "page", "must be greater than 0");
    v.Check(f.page < 10_000_000, "page", "must be less than 10 million");
    ghost var recorded := Put(map[], "page", PageError(f));

    TwoChecksNewKey(recorded, before, "page_size", f.pageSize > 0, "must be greater than 0", f.pageSize < 100, "must be less than 100");
    v.Check(f.pageSize > 0, "page_size", "must be greater than 0");
    v.Check(f.pageSize < 100, "page_size", "must be less than 100");
    recorded := Put(recorded, "page_size", PageSizeError(f));

    ReportNewKey(recorded, before, PermittedValue(f.sort, f.sortSafelist), "sort", "invalid sort value");
    v.Check(PermittedValue(f.sort, f.sortSafelist), "sort", "invalid sort value");
  }

  /** Which keys get an error, and that no error at all means every bound holds. */
  lemma FilterErrorKeys(f: Filters)
    ensures "page" in FilterErrors(f) <==> !(0 < f.page < 10_000_000)
    ensures "page_size" in FilterErrors(f) <==> !(0 < f.pageSize < 100)
    ensures "sort" in FilterErrors(f) <==> f.sort !in f.sortSafelist
    ensures FilterErrors(f).Keys <= {"page", "page_size", "sort"}
    ensures FilterErrors(f) == map[] <==> 0 < f.page < 10_000_000 && 0 < f.pageSize < 100 && f.sort in f.sortSafelist
  {
    if FilterErrors(f) == map[] {
      assert "page" !in FilterErrors(f);
      assert "page_size" !in FilterErrors(f);
      assert "sort" !in FilterErrors(f);
    }
  }

  // ---------------------------------------------------------------------------
  // Sorting
  // ---------------------------------------------------------------------------

  /**
   * The column to sort by: the sort value without one leading '-', provided
   * that is in the safelist. Otherwise the source panics with the message
   * carried by Err.
   */
  function SortColumn(f: Filters): (r: Result<string, string>)
    ensures r.Ok? <==> TrimPrefix(f.sort, "-") in f.sortSafelist
    ensures r.Ok? ==> r.value in f.sortSafelist
    ensures r.Ok? ==> f.sort == (if HasPrefix(f.sort, "-") then "-" + r.value else r.value)
    ensures r.Err? ==> r.error == "unsafe sort param" + f.sort
  {
    var column := TrimPrefix(f.sort, "-");
    if column in f.sortSafelist then Ok(column) else Err("unsafe sort param" + f.sort)
  }

  /** "DESC" exactly when the sort value starts with '-'. */
  function SortDirection(f: Filters): (r: string)
    ensures r == "DESC" || r == "ASC"
    ensures r == "DESC" <==> |f.sort| > 0 && f.sort[0] == '-'
  {
    if HasPrefix(f.sort, "-") then "DESC" else "ASC"
  }

  /** Column and direction together give back the sort value they came from. */
  lemma SortColumnDirection(f: Filters)
    requires SortColumn(f).Ok?
    ensures f.sort == (if SortDirection(f) == "DESC" then "-" else "") + SortColumn(f).value
  {
  }

  /**
   * A validated ascending sort value is its own column; a validated
   * descending one `-c` still panics unless `c` itself is in the safelist.
   */
  lemma ValidatedSortColumn(f: Filters)
    requires f.sort in f.sortSafelist
    ensures SortDirection(f) == "ASC" ==> SortColumn(f) == Ok(f.sort)
    ensures SortDirection(f) == "DESC" ==> (SortColumn(f).Ok? <==> f.sort[1..] in f.sortSafelist)
  {
  }

  // ---------------------------------------------------------------------------
  // The SQL window
  // ---------------------------------------------------------------------------

  /** The LIMIT: the page size, so it lies in 1 to 99 exactly when the page size passes validation. */
  function Limit(f: Filters): (r: int)
    ensures 0 < r < 100 <==> PageSizeError(f).None?
  {
    f.pageSize
  }

  /**
   * The OFFSET: the rows of the pages before page `page`, so that the window
   * ends where page `page` ends; never negative for a positive page and a
   * non-negative page size.
   */
  function Offset(f: Filters): (r: int)
    ensures r + Limit(f) == f.page * f.pageSize
    ensures f.page >= 1 && f.pageSize >= 0 ==> r >= 0
  {
    (f.page - 1) * f.pageSize
  }

  /**
   * For filters that pass validation the window starts at a non-negative
   * row, holds between 1 and 99 rows and ends exactly where page `page` ends.
   */
  lemma ValidatedWindow(f: Filters)
    requires FilterErrors(f) == map[]
    ensures 0 < Limit(f) < 100
    ensures 0 <= Offset(f)
    ensures Offset(f) + Limit(f) == f.page * f.pageSize
  {
    FilterErrorKeys(f);
  }

  // ---------------------------------------------------------------------------
  // Page metadata
  // ---------------------------------------------------------------------------

  /** Go's integer division, which truncates toward zero. */
  function GoQuo(a: int, b: int): int
    requires b != 0
  {
    var q := (if a < 0 then -a else a) / (if b < 0 then -b else b);
    if (a < 0) != (b < 0) then -q else q
  }

  /** The number of pages needed for `total` records, `pageSize` to a page. */
  function CeilDiv(total: nat, pageSize: nat): nat
    requires pageSize > 0
  {
    (total + pageSize - 1) / pageSize
  }

  /**
   * calculateMetadata as written, LastPage included. Division by zero, which
   * panics in Go, is excluded by the requires: total is zero or pageSize is not.
   */
  function CalculateMetadata(page: int, pageSize: int, total: int): (m: Metadata)
    requires total == 0 || pageSize != 0
    ensures total == 0 ==> m == Metadata(0, 0, 0, 0, 0)
    ensures total != 0 ==> m.currentPage == page && m.pageSize == pageSize && m.firstPage == 1 && m.totalRecords == total
    ensures total > 0 && pageSize > 0 ==> m.lastPage >= 1
  {
    if total == 0 then Metadata(0, 0, 0, 0, 0)
    else Metadata(page, pageSize, 1, GoQuo(total + pageSize + 1, pageSize), total)
  }

  lemma MulAtLeast(k: int, b: int)
    requires k >= 1 && b > 0
    ensures k * b >= b
  {
  }

  /** The quotient is the q whose multiple of b lies within b below a. */
  lemma DivIs(a: int, b: int, q: int)
    requires b > 0 && q * b <= a < q * b + b
    ensures a / b == q
  {
    var d := a / b;
    assert a == d * b + a % b;
    if d < q {
      MulAtLeast(q - d, b);
    } else if d > q {
      MulAtLeast(d - q, b);
    }
  }

  /**
   * (total + pageSize + 1) / pageSize exceeds the true page count by one for
   * each of total and total + 1 that is a multiple of pageSize, and its
   * pages always hold more than total rows.
   */
  lemma LastPageFormula(total: int, pageSize: int)
    requires total > 0 && pageSize > 0
    ensures (total + pageSize + 1) / pageSize == CeilDiv(total, pageSize)
                                                 + (if total % pageSize == 0 then 1 else 0)
                                                 + (if (total + 1) % pageSize == 0 then 1 else 0)
    ensures (total + pageSize + 1) / pageSize * pageSize > total
  {
    var q, r := total / pageSize, total % pageSize;
    assert total == q * pageSize + r;
    assert (q + 1) * pageSize == q * pageSize + pageSize;
    assert (q + 2) * pageSize == q * pageSize + pageSize + pageSize;
    if r == 0 {
      DivIs(total + pageSize - 1, pageSize, q);
    } else {
      DivIs(total + pageSize - 1, pageSize, q + 1);
    }
    if r + 1 == pageSize {
      DivIs(total + pageSize + 1, pageSize, q + 2);
      DivIs(total + 1, pageSize, q + 1);
    } else {
      DivIs(total + pageSize + 1, pageSize, q + 1);
      DivIs(total + 1, pageSize, q);
    }
  }

  /**
   * With no records the metadata is all zeros. Otherwise it reports the page,
   * page size and total it was given and starts at page 1; its LastPage
   * always reaches far enough to hold every record, and overshoots the true
   * page count by one for each of total and total + 1 that is a multiple of
   * the page size.
   */
  lemma MetadataOfTotal(page: int, pageSize: int, total: int)
    requires total >= 0 && pageSize > 0
    ensures total == 0 ==> CalculateMetadata(page, pageSize, total) == Metadata(0, 0, 0, 0, 0)
    ensures total > 0 ==>
      var m := CalculateMetadata(page, pageSize, total);
      && m.firstPage == 1 && m.currentPage == page && m.pageSize == pageSize && m.totalRecords == total
      && m.lastPage * pageSize > total
      && m.lastPage == CeilDiv(total, pageSize)
                       + (if total % pageSize == 0 then 1 else 0)
                       + (if (total + 1) % pageSize == 0 then 1 else 0)
  {
    if total > 0 {
      LastPageFormula(total, pageSize);
    }
  }

  /** LastPage stays within two pages of the true page count, within one for pages of two or more rows. */
  lemma LastPageBound(page: int, pageSize: int, total: int)
    requires total > 0 && pageSize > 0
    ensures CeilDiv(total, pageSize) <= CalculateMetadata(page, pageSize, total).lastPage <= CeilDiv(total, pageSize) + 2
    ensures pageSize >= 2 ==> CalculateMetadata(page, pageSize, total).lastPage <= CeilDiv(total, pageSize) + 1
  {
    MetadataOfTotal(page, pageSize, total);
    if pageSize >= 2 && total % pageSize == 0 {
      var q := total / pageSize;
      assert total + 1 == q * pageSize + 1;
      DivIs(total + 1, pageSize, q);
    }
  }

  /** Ten records, five to a page: the source reports three pages where two hold them all. */
  lemma LastPageOvershootExample()
    ensures CalculateMetadata(1, 5, 10).lastPage == 3
    ensures CeilDiv(10, 5) == 2
  {
  }

  /** calculateMetadata with LastPage computed as the true page count. */
  function CalculateMetadataIntended(page: int, pageSize: int, total: int): (m: Metadata)
    requires total == 0 || pageSize != 0
    ensures total == 0 ==> m == Metadata(0, 0, 0, 0, 0)
    ensures total != 0 ==> m.currentPage == page && m.pageSize == pageSize && m.firstPage == 1 && m.totalRecords == total
    ensures total > 0 && pageSize > 0 ==> m.lastPage == CeilDiv(total, pageSize)
  {
    if total == 0 then Metadata(0, 0, 0, 0, 0)
    else Metadata(page, pageSize, 1, GoQuo(total + pageSize - 1, pageSize), total)
  }

  /** The intended LastPage is the last page holding a record: earlier pages do not hold them all, it does. */
  lemma IntendedLastPageExact(page: int, pageSize: int, total: int)
    requires total > 0 && pageSize > 0
    ensures var last := CalculateMetadataIntended(page, pageSize, total).lastPage;
      (last - 1) * pageSize < total <= last * pageSize
  {
    var q, r := total / pageSize, total % pageSize;
    assert total == q * pageSize + r;
    if r == 0 {
      DivIs(total + pageSize - 1, pageSize, q);
    } else {
      DivIs(total + pageSize - 1, pageSize, q + 1);
    }
  }
}
