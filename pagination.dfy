/**
 * components/Pagination.tsx: the number of pages, the window of page
 * buttons with ellipses, the `page` query-parameter update, and when the
 * Previous and Next buttons are disabled. The current page is what the
 * pages hand over from `parseInt` of the `page` parameter, so it may be NaN.
 */
module Pagination {
  import opened Wrappers
  import opened Strs
  import opened Types
  import Seqs

  /** One entry of the button row: a page number or a "..." gap. */
  datatype PageEntry = Num(n: int) | Ellipsis

  const MaxVisible := 5

  /** `Math.ceil(totalItems / itemsPerPage)`. */
  function TotalPages(totalItems: nat, itemsPerPage: nat): (r: nat)
    requires itemsPerPage > 0
  {
    (totalItems + itemsPerPage - 1) / itemsPerPage
  }

  /** The page count is the least number of pages that holds every item. */
  lemma TotalPagesIsCeiling(totalItems: nat, itemsPerPage: nat)
    requires itemsPerPage > 0
    ensures var r := TotalPages(totalItems, itemsPerPage);
      && r * itemsPerPage >= totalItems
      && (r > 0 ==> (r - 1) * itemsPerPage < totalItems)
      && (r == 0 <==> totalItems == 0)
  {
    var r := TotalPages(totalItems, itemsPerPage);
    var m := totalItems + itemsPerPage - 1;
    assert m == r * itemsPerPage + m % itemsPerPage;
  }

  /** The component renders nothing unless there are at least two pages. */
  predicate Rendered(totalItems: nat, itemsPerPage: nat)
    requires itemsPerPage > 0
  {
    TotalPages(totalItems, itemsPerPage) > 1
  }

  /** The row appears exactly when there are more items than fit on one page. */
  lemma RenderedIffMoreThanOnePage(totalItems: nat, itemsPerPage: nat)
    requires itemsPerPage > 0
    ensures Rendered(totalItems, itemsPerPage) <==> totalItems > itemsPerPage
  {
    TotalPagesIsCeiling(totalItems, itemsPerPage);
  }

  // ---------------------------------------------------------------------------
  // getPageNumbers

  /** The buttons for pages `lo` through `hi`, in order (none when `hi < lo`). */
  function Range(lo: int, hi: int): (r: seq<PageEntry>)
    ensures |r| == if hi < lo then 0 else hi - lo + 1
    ensures forall k :: 0 <= k < |r| ==> r[k] == Num(lo + k)
  {
    seq(if hi < lo then 0 else hi - lo + 1, k => Num(lo + k))
  }

  /** `currentPage <= k`; a comparison with NaN is false. */
  predicate AtMost(currentPage: ParsedInt, k: int) {
    currentPage.Int? && currentPage.value <= k
  }

  /** `currentPage >= k`; a comparison with NaN is false. */
  predicate AtLeast(currentPage: ParsedInt, k: int) {
    currentPage.Int? && currentPage.value >= k
  }

  /** The pages `currentPage - 1` to `currentPage + 1`; with NaN bounds the loop runs zero times. */
  function Window(currentPage: ParsedInt): seq<PageEntry> {
    match currentPage
    case Int(c) => Range(c - 1, c + 1)
    case NaN => []
  }

  /** The button row for `totalPages` pages with `currentPage` selected. */
  function PageNumbers(totalPages: int, currentPage: ParsedInt): seq<PageEntry> {
    if totalPages <= MaxVisible then Range(1, totalPages)
    else if AtMost(currentPage, 3) then Range(1, 4) + [Ellipsis, Num(totalPages)]
    else if AtLeast(currentPage, totalPages - 2) then [Num(1), Ellipsis] + Range(totalPages - 3, totalPages)
    else [Num(1), Ellipsis] + Window(currentPage) + [Ellipsis, Num(totalPages)]
  }

  /** `getPageNumbers`: the row is built by pushing numbers in counting loops and "..." between them. */
  method GetPageNumbers(totalPages: int, currentPage: ParsedInt) returns (pages: seq<PageEntry>)
    ensures pages == PageNumbers(totalPages, currentPage)
  {
    pages := [];
    if totalPages <= MaxVisible {
      var i := 1;
      while i <= totalPages
        invariant 1 <= i <= (if totalPages < 1 then 1 else totalPages + 1)
        invariant pages == Range(1, i - 1)
      {
        pages := pages + [Num(i)];
        i := i + 1;
      }
    } else if AtMost(currentPage, 3) {
      for i := 1 to 5
        invariant pages == Range(1, i - 1)
      {
        pages := pages + [Num(i)];
      }
      pages := pages + [Ellipsis];
      pages := pages + [Num(totalPages)];
    } else if AtLeast(currentPage, totalPages - 2) {
      pages := pages + [Num(1)];
      pages := pages + [Ellipsis];
      for i := totalPages - 3 to totalPages + 1
        invariant pages == [Num(1), Ellipsis] + Range(totalPages - 3, i - 1)
      {
        pages := pages + [Num(i)];
      }
    } else {
      pages := pages + [Num(1)];
      pages := pages + [Ellipsis];
      match currentPage {
        case Int(c) =>
          for i := c - 1 to c + 2
            invariant pages == [Num(1), Ellipsis] + Range(c - 1, i - 1)
          {
            pages := pages + [Num(i)];
          }
        case NaN =>
          // `i <= currentPage + 1` is false from the start: nothing is pushed.
      }
      pages := pages + [Ellipsis];
      pages := pages + [Num(totalPages)];
    }
  }

  /** Page numbers in the row strictly increase from left to right. */
  predicate Increasing(row: seq<PageEntry>) {
    forall i, j :: 0 <= i < j < |row| && row[i].Num? && row[j].Num? ==> row[i].n < row[j].n
  }

  /** Every shown page exists. */
  predicate InRange(row: seq<PageEntry>, totalPages: int) {
    forall i :: 0 <= i < |row| && row[i].Num? ==> 1 <= row[i].n <= totalPages
  }

  /** "..." is never first or last, and always stands between two numbers. */
  predicate EllipsesInside(row: seq<PageEntry>) {
    forall i :: 0 <= i < |row| && row[i].Ellipsis? ==> 0 < i < |row| - 1 && row[i - 1].Num? && row[i + 1].Num?
  }

  /**
   * Neighbouring numbers are consecutive pages, and a "..." hides at least
   * one page: every page from the first shown to the last is either shown or
   * inside a gap.
   */
  predicate GapsMarked(row: seq<PageEntry>) {
    forall i :: 0 <= i < |row| - 1 ==>
      (row[i].Num? && row[i + 1].Num? ==> row[i + 1].n == row[i].n + 1)
      && (0 < i && row[i].Ellipsis? && row[i - 1].Num? && row[i + 1].Num? ==> row[i - 1].n + 1 < row[i + 1].n)
  }

  /** Up to five pages, the row is every page from 1 to the last, with no gap. */
  lemma FewPagesAllShown(totalPages: int, currentPage: ParsedInt)
    requires totalPages <= MaxVisible
    ensures var row := PageNumbers(totalPages, currentPage);
      && |row| == (if totalPages < 0 then 0 else totalPages)
      && forall k :: 0 <= k < |row| ==> row[k] == Num(k + 1)
  {
  }

  /**
   * Beyond five pages, the row runs from page 1 to the last page: six or
   * seven entries for a numeric current page, seven exactly when the page
   * lies strictly inside 4..totalPages - 3; for NaN it is the four entries
   * of the middle branch with nothing between the ellipses.
   */
  lemma ManyPagesShape(totalPages: int, currentPage: ParsedInt)
    requires totalPages > MaxVisible
    ensures var row := PageNumbers(totalPages, currentPage);
      && row[0] == Num(1) && row[|row| - 1] == Num(totalPages)
      && (currentPage.Int? ==> |row| == 6 || |row| == 7)
      && (|row| == 7 <==> currentPage.Int? && 3 < currentPage.value < totalPages - 2)
      && (currentPage.NaN? ==> |row| == 4)
  {
  }

  /** A row that is ordered, in range, with every "..." between two numbers and hiding a page. */
  predicate WellFormedRow(row: seq<PageEntry>, totalPages: int) {
    Increasing(row) && InRange(row, totalPages) && EllipsesInside(row) && GapsMarked(row)
  }

  /**
   * For every numeric current page, and for any current page when there are
   * at most five pages, the row is ordered, in range, and its gaps are
   * marked; the one exception is a NaN page beyond five pages (`NaNPageRow`).
   */
  lemma PageNumbersWellFormed(totalPages: int, currentPage: ParsedInt)
    ensures currentPage.Int? || totalPages <= MaxVisible ==>
      WellFormedRow(PageNumbers(totalPages, currentPage), totalPages)
  {
    var row := PageNumbers(totalPages, currentPage);
    if currentPage.Int? || totalPages <= MaxVisible {
      if totalPages <= MaxVisible {
        FewRowWellFormed(totalPages, currentPage);
      } else if currentPage.value <= 3 {
        HeadRowWellFormed(totalPages, currentPage.value);
      } else if currentPage.value >= totalPages - 2 {
        TailRowWellFormed(totalPages, currentPage.value);
      } else {
        MiddleRowWellFormed(totalPages, currentPage.value);
      }
      LocallyOrderedIsIncreasing(row);
    }
  }

  /**
   * As written, a NaN current page beyond five pages falls through both
   * comparisons to the middle branch, whose loop pushes nothing: the row is
   * page 1, two "..." side by side, and the last page.
   */
  lemma NaNPageRow(totalPages: int)
    requires totalPages > MaxVisible
    ensures var row := PageNumbers(totalPages, NaN);
      && row == [Num(1), Ellipsis, Ellipsis, Num(totalPages)]
      && !EllipsesInside(row)
  {
    var row := PageNumbers(totalPages, NaN);
    assert row == [Num(1), Ellipsis, Ellipsis, Num(totalPages)];
    assert row[1].Ellipsis? && !row[2].Num?;
  }

  /** The evidently intended reading of the page: a `page` that does not parse counts as page 1, as a missing one does. */
  function PageOrFirst(currentPage: ParsedInt): (r: int)
    ensures currentPage.Int? ==> r == currentPage.value
    ensures currentPage.NaN? ==> r == 1
  {
    match currentPage
    case Int(c) => c
    case NaN => 1
  }

  /** The corrected row: the row of `PageOrFirst(currentPage)`. */
  function CorrectedPageNumbers(totalPages: int, currentPage: ParsedInt): seq<PageEntry> {
    PageNumbers(totalPages, Int(PageOrFirst(currentPage)))
  }

  /**
   * The corrected row is well formed for every parsed page, NaN included,
   * has six or seven entries beyond five pages, and shows page 1 for NaN.
   */
  lemma CorrectedRowWellFormed(totalPages: int, currentPage: ParsedInt)
    ensures WellFormedRow(CorrectedPageNumbers(totalPages, currentPage), totalPages)
    ensures totalPages > MaxVisible ==> |CorrectedPageNumbers(totalPages, currentPage)| in {6, 7}
    ensures currentPage.NaN? && totalPages >= 1 ==> Num(1) in CorrectedPageNumbers(totalPages, currentPage)
    ensures currentPage.Int? ==> CorrectedPageNumbers(totalPages, currentPage) == PageNumbers(totalPages, currentPage)
  {
    var page := Int(PageOrFirst(currentPage));
    PageNumbersWellFormed(totalPages, page);
    if totalPages > MaxVisible {
      ManyPagesShape(totalPages, page);
    }
    if currentPage.NaN? && totalPages >= 1 {
      CurrentPageShown(totalPages, 1);
    }
  }

  lemma FewRowWellFormed(totalPages: int, currentPage: ParsedInt)
    requires totalPages <= MaxVisible
    ensures var row := PageNumbers(totalPages, currentPage);
      InRange(row, totalPages) && EllipsesInside(row) && GapsMarked(row)
  {
  }

  lemma HeadRowWellFormed(totalPages: int, currentPage: int)
    requires totalPages > MaxVisible && currentPage <= 3
    ensures var row := PageNumbers(totalPages, Int(currentPage));
      InRange(row, totalPages) && EllipsesInside(row) && GapsMarked(row)
  {
    var row := PageNumbers(totalPages, Int(currentPage));
    assert row == [Num(1), Num(2), Num(3), Num(4), Ellipsis, Num(totalPages)];
    HeadRowGaps(row, totalPages);
  }

  /** The six-entry row that starts at page 1, one predicate at a time. */
  lemma HeadRowGaps(row: seq<PageEntry>, totalPages: int)
    requires totalPages > MaxVisible
    requires row == [Num(1), Num(2), Num(3), Num(4), Ellipsis, Num(totalPages)]
    ensures InRange(row, totalPages) && EllipsesInside(row) && GapsMarked(row)
  {
  }

  lemma TailRowWellFormed(totalPages: int, currentPage: int)
    requires totalPages > MaxVisible && 3 < currentPage && currentPage >= totalPages - 2
    ensures var row := PageNumbers(totalPages, Int(currentPage));
      InRange(row, totalPages) && EllipsesInside(row) && GapsMarked(row)
  {
    var row := PageNumbers(totalPages, Int(currentPage));
    assert row == [Num(1), Ellipsis, Num(totalPages - 3), Num(totalPages - 2), Num(totalPages - 1), Num(totalPages)];
    TailRowGaps(row, totalPages);
  }

  /** The six-entry row that ends at the last page, one predicate at a time. */
  lemma TailRowGaps(row: seq<PageEntry>, totalPages: int)
    requires totalPages > MaxVisible
    requires row == [Num(1), Ellipsis, Num(totalPages - 3), Num(totalPages - 2), Num(totalPages - 1), Num(totalPages)]
    ensures InRange(row, totalPages) && EllipsesInside(row) && GapsMarked(row)
  {
  }

  lemma MiddleRowWellFormed(totalPages: int, currentPage: int)
    requires totalPages > MaxVisible && 3 < currentPage < totalPages - 2
    ensures var row := PageNumbers(totalPages, Int(currentPage));
      InRange(row, totalPages) && EllipsesInside(row) && GapsMarked(row)
  {
    var row := PageNumbers(totalPages, Int(currentPage));
    assert row == [Num(1), Ellipsis, Num(currentPage - 1), Num(currentPage),
                   Num(currentPage + 1), Ellipsis, Num(totalPages)];
    MiddleRowGaps(row, totalPages, currentPage);
  }

  /** The seven-entry row, one predicate at a time. */
  lemma MiddleRowGaps(row: seq<PageEntry>, totalPages: int, currentPage: int)
    requires 3 < currentPage < totalPages - 2
    requires row == [Num(1), Ellipsis, Num(currentPage - 1), Num(currentPage),
                     Num(currentPage + 1), Ellipsis, Num(totalPages)]
    ensures InRange(row, totalPages) && EllipsesInside(row) && GapsMarked(row)
  {
  }

  /**
   * In a row whose ellipses sit between numbers and whose neighbouring
   * numbers increase, all numbers increase.
   */
  lemma LocallyOrderedIsIncreasing(row: seq<PageEntry>)
    requires EllipsesInside(row) && GapsMarked(row)
    ensures Increasing(row)
  {
    forall i, j | 0 <= i < j < |row| && row[i].Num? && row[j].Num? ensures row[i].n < row[j].n {
      IncreasingUpTo(row, i, j);
    }
  }

  lemma {:induction false} IncreasingUpTo(row: seq<PageEntry>, i: nat, j: nat)
    requires EllipsesInside(row) && GapsMarked(row)
    requires i < j < |row| && row[i].Num? && row[j].Num?
    ensures row[i].n < row[j].n
    decreases j
  {
    var prev := if row[j - 1].Num? then j - 1 else j - 2;
    assert row[prev].Num? && row[prev].n < row[j].n;
    if i < prev {
      IncreasingUpTo(row, i, prev);
    }
  }

  /** A current page that exists always has its own button. */
  lemma CurrentPageShown(totalPages: int, currentPage: int)
    requires 1 <= currentPage <= totalPages
    ensures Num(currentPage) in PageNumbers(totalPages, Int(currentPage))
  {
    var row := PageNumbers(totalPages, Int(currentPage));
    if totalPages <= MaxVisible {
      assert row[currentPage - 1] == Num(currentPage);
    } else if currentPage <= 3 {
      assert row[currentPage - 1] == Num(currentPage);
    } else if currentPage >= totalPages - 2 {
      assert row[2 + currentPage - (totalPages - 3)] == Num(currentPage);
    } else {
      assert row[3] == Num(currentPage);
    }
  }

  // ---------------------------------------------------------------------------
  // goToPage

  /** The query string as its ordered list of name/value pairs. */
  type Params = seq<(string, string)>

  /** `params.delete(name)`: every pair with that name goes. */
  function Delete(params: Params, name: string): Params {
    Seqs.Filter(params, (p: (string, string)) => p.0 != name)
  }

  /**
   * `params.set(name, value)`: the first pair with that name takes the value,
   * later ones go; without one, the pair is appended.
   */
  function SetParam(params: Params, name: string, value: string): Params
    decreases |params|
  {
    if params == [] then [(name, value)]
    else if params[0].0 == name then [(name, value)] + Delete(params[1..], name)
    else [params[0]] + SetParam(params[1..], name, value)
  }

  /** `page.toString()`: NaN prints as "NaN". */
  function PageString(page: ParsedInt): string {
    match page
    case Int(v) => IntToString(v)
    case NaN => "NaN"
  }

  /** `goToPage(page)`: page 1 is the default and drops the parameter; any other page, NaN included, sets it. */
  function GoToPage(params: Params, page: ParsedInt): Params {
    if page == Int(1) then Delete(params, "page") else SetParam(params, "page", PageString(page))
  }

  /** The values of the pairs named `name`, in order. */
  function ValuesOf(params: Params, name: string): seq<string>
    decreases |params|
  {
    if params == [] then []
    else (if params[0].0 == name then [params[0].1] else []) + ValuesOf(params[1..], name)
  }

  /**
   * After `goToPage`, the `page` parameter is absent for page 1 and holds
   * exactly the page number otherwise; every other parameter is kept, in
   * order.
   */
  lemma GoToPageRules(params: Params, page: ParsedInt)
    ensures var r := GoToPage(params, page);
      && (page == Int(1) ==> ValuesOf(r, "page") == [])
      && (page.Int? && page.value != 1 ==> ValuesOf(r, "page") == [IntToString(page.value)])
      && (page.NaN? ==> ValuesOf(r, "page") == ["NaN"])
      && Delete(r, "page") == Delete(params, "page")
  {
    if page == Int(1) {
      DeleteClears(params, "page");
      DeleteTwice(params, "page");
    } else {
      SetParamRules(params, "page", PageString(page));
    }
  }

  lemma {:induction false} DeleteClears(params: Params, name: string)
    ensures ValuesOf(Delete(params, name), name) == []
    decreases |params|
  {
    if params != [] {
      DeleteClears(params[1..], name);
      var rest := Delete(params[1..], name);
      if params[0].0 != name {
        assert Delete(params, name) == [params[0]] + rest;
        assert ([params[0]] + rest)[1..] == rest;
      } else {
        assert Delete(params, name) == rest;
      }
    }
  }

  lemma DeleteTwice(params: Params, name: string)
    ensures Delete(Delete(params, name), name) == Delete(params, name)
  {
    Seqs.FilterAll(Delete(params, name), (p: (string, string)) => p.0 != name);
  }

  lemma {:induction false} SetParamRules(params: Params, name: string, value: string)
    ensures ValuesOf(SetParam(params, name, value), name) == [value]
    ensures Delete(SetParam(params, name, value), name) == Delete(params, name)
    decreases |params|
  {
    var f := (p: (string, string)) => p.0 != name;
    var r := SetParam(params, name, value);
    if params == [] {
      assert Delete(r, name) == [];
    } else if params[0].0 == name {
      var rest := Delete(params[1..], name);
      DeleteClears(params[1..], name);
      assert r[1..] == rest;
      DeleteTwice(params[1..], name);
      Seqs.FilterAppend([(name, value)], rest, f);
      Seqs.FilterAppend([params[0]], params[1..], f);
      assert params == [params[0]] + params[1..];
    } else {
      SetParamRules(params[1..], name, value);
      assert r[1..] == SetParam(params[1..], name, value);
      Seqs.FilterAppend([params[0]], SetParam(params[1..], name, value), f);
      Seqs.FilterAppend([params[0]], params[1..], f);
      assert params == [params[0]] + params[1..];
      assert r == [params[0]] + SetParam(params[1..], name, value);
    }
  }

  // ---------------------------------------------------------------------------
  // Previous / Next

  /** `currentPage === 1`: false for NaN. */
  predicate PrevDisabled(currentPage: ParsedInt) {
    currentPage == Int(1)
  }

  /** `currentPage === totalPages`: false for NaN. */
  predicate NextDisabled(currentPage: ParsedInt, totalPages: int) {
    currentPage == Int(totalPages)
  }

  /** `currentPage - 1` or `currentPage + 1`: NaN stays NaN. */
  function Neighbour(currentPage: ParsedInt, delta: int): ParsedInt {
    match currentPage
    case Int(c) => Int(c + delta)
    case NaN => NaN
  }

  /**
   * From an existing page, an enabled Previous or Next button leads to an
   * existing page, and on every page but the first and last both are
   * enabled. With a NaN page both are enabled and lead to `page=NaN`.
   */
  lemma NeighbourButtonsStayInRange(currentPage: ParsedInt, totalPages: int)
    ensures currentPage.Int? && 1 <= currentPage.value <= totalPages ==>
      && (!PrevDisabled(currentPage) ==> 1 <= Neighbour(currentPage, -1).value <= totalPages)
      && (!NextDisabled(currentPage, totalPages) ==> 1 <= Neighbour(currentPage, 1).value <= totalPages)
      && (1 < currentPage.value < totalPages ==> !PrevDisabled(currentPage) && !NextDisabled(currentPage, totalPages))
    ensures currentPage.NaN? ==>
      && !PrevDisabled(currentPage) && !NextDisabled(currentPage, totalPages)
      && Neighbour(currentPage, -1) == NaN && Neighbour(currentPage, 1) == NaN
  {
  }
}
