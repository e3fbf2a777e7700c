/** The dashboard's pagination bar: whether it is drawn, the window of
    page numbers it offers, and how its buttons move the current page. */
module Pagination {
  const MaxVisible: int := 5

  /** The bar is drawn unless there is at most one page and no count. */
  predicate Renders(totalPages: int, totalCount: int) {
    !(totalPages <= 1 && totalCount == 0)
  }

  /** The navigation buttons and page numbers appear only with several
      pages. */
  predicate ShowsControls(totalPages: int) {
    totalPages > 1
  }

  /** The integers lo..hi, ascending; empty when lo > hi. */
  function Range(lo: int, hi: int): (r: seq<int>)
    ensures |r| == if lo <= hi then hi - lo + 1 else 0
    ensures forall k :: 0 <= k < |r| ==> r[k] == lo + k
  {
    if lo > hi then [] else seq(hi - lo + 1, k => lo + k)
  }

  /** The first and the last number of the window. */
  function WindowBounds(page: int, totalPages: int): (int, int) {
    if totalPages <= MaxVisible then (1, totalPages)
    else if page <= 3 then (1, MaxVisible)
    else if page >= totalPages - 2 then (totalPages - 4, totalPages)
    else (page - 2, page + 2)
  }

  function Window(page: int, totalPages: int): seq<int> {
    Range(WindowBounds(page, totalPages).0, WindowBounds(page, totalPages).1)
  }

  /** Appends lo..hi one number at a time. */
  method PushRange(pages: seq<int>, lo: int, hi: int) returns (r: seq<int>)
    ensures r == pages + Range(lo, hi)
  {
    r := pages;
    var i := lo;
    while i <= hi
      invariant lo <= i <= if lo <= hi then hi + 1 else lo
      invariant r == pages + Range(lo, i - 1)
      decreases hi - i
    {
      r := r + [i];
      i := i + 1;
    }
  }

  /** The page numbers offered: all of them when there are at most five,
      otherwise five consecutive pages around the current one. */
  method PageNumbers(page: int, totalPages: int) returns (pages: seq<int>)
    ensures totalPages <= MaxVisible ==> pages == Range(1, totalPages)
    ensures totalPages > MaxVisible ==>
      |pages| == 5 && 1 <= pages[0] && pages[4] <= totalPages &&
      (forall k :: 0 <= k < 5 ==> pages[k] == pages[0] + k)
    ensures 1 <= page <= totalPages ==> page in pages
    ensures pages == Window(page, totalPages)
  {
    if totalPages <= MaxVisible {
      pages := PushRange([], 1, totalPages);
    } else if page <= 3 {
      pages := PushRange([], 1, MaxVisible);
    } else if page >= totalPages - 2 {
      pages := PushRange([], totalPages - 4, totalPages);
    } else {
      pages := PushRange([], page - 2, page + 2);
    }
    if 1 <= page <= totalPages {
      WindowContainsPage(page, totalPages);
    }
  }

  /** The window holds the current page whenever that page exists. */
  lemma WindowContainsPage(page: int, totalPages: int)
    requires 1 <= page <= totalPages
    ensures page in Window(page, totalPages)
  {
    var (lo, hi) := WindowBounds(page, totalPages);
    assert Window(page, totalPages)[page - lo] == page;
  }

  /** Past the first three pages and before the last three, the current
      page sits in the middle of the window. */
  lemma WindowCentred(page: int, totalPages: int)
    requires totalPages > MaxVisible && 3 < page < totalPages - 2
    ensures |Window(page, totalPages)| == 5 && Window(page, totalPages)[2] == page
  {
  }

  /** Every page number in the window exists. */
  lemma WindowWithinPages(page: int, totalPages: int)
    ensures forall k :: 0 <= k < |Window(page, totalPages)| ==> 1 <= Window(page, totalPages)[k] <= totalPages
  {
  }

  /** The current page and page size, as the bar's buttons change them. */
  class Pager {
    var page: int
    var pageSize: int
    var totalPages: int
    var totalCount: int

    /** The page is one of the pages that exist. */
    predicate Valid()
      reads this
    {
      totalPages >= 1 ==> 1 <= page <= totalPages
    }

    constructor (pageSize: int, totalPages: int, totalCount: int)
      ensures page == 1 && this.pageSize == pageSize
      ensures this.totalPages == totalPages && this.totalCount == totalCount
      ensures Valid()
    {
      page := 1;
      this.pageSize := pageSize;
      this.totalPages := totalPages;
      this.totalCount := totalCount;
    }

    /** A new page size also jumps back to the first page. */
    method ChangePageSize(size: int)
      modifies this
      ensures pageSize == size && page == 1
      ensures totalPages == old(totalPages) && totalCount == old(totalCount)
      ensures Valid()
    {
      pageSize := size;
      page := 1;
    }

    /** The first-page button, disabled on page 1. */
    method First()
      requires Valid()
      modifies this
      ensures page == if ShowsControls(totalPages) && old(page) != 1 then 1 else old(page)
      ensures pageSize == old(pageSize) && totalPages == old(totalPages) && totalCount == old(totalCount)
      ensures Valid()
    {
      if ShowsControls(totalPages) && page != 1 {
        page := 1;
      }
    }

    /** The previous-page button, disabled on page 1. */
    method Previous()
      requires Valid()
      modifies this
      ensures page == if ShowsControls(totalPages) && old(page) != 1 then old(page) - 1 else old(page)
      ensures pageSize == old(pageSize) && totalPages == old(totalPages) && totalCount == old(totalCount)
      ensures Valid()
    {
      if ShowsControls(totalPages) && page != 1 {
        page := page - 1;
      }
    }

    /** The next-page button, disabled on the last page. */
    method Next()
      requires Valid()
      modifies this
      ensures page == if ShowsControls(totalPages) && old(page) != totalPages then old(page) + 1 else old(page)
      ensures pageSize == old(pageSize) && totalPages == old(totalPages) && totalCount == old(totalCount)
      ensures Valid()
    {
      if ShowsControls(totalPages) && page != totalPages {
        page := page + 1;
      }
    }

    /** The last-page button, disabled on the last page. */
    method Last()
      requires Valid()
      modifies this
      ensures page == if ShowsControls(totalPages) && old(page) != totalPages then totalPages else old(page)
      ensures pageSize == old(pageSize) && totalPages == old(totalPages) && totalCount == old(totalCount)
      ensures Valid()
    {
      if ShowsControls(totalPages) && page != totalPages {
        page := totalPages;
      }
    }

    /** A page-number button. */
    method Choose(n: int)
      requires Valid() && n in Window(page, totalPages)
      modifies this
      ensures page == if ShowsControls(totalPages) then n else old(page)
      ensures pageSize == old(pageSize) && totalPages == old(totalPages) && totalCount == old(totalCount)
      ensures Valid()
    {
      WindowWithinPages(page, totalPages);
      if ShowsControls(totalPages) {
        page := n;
      }
    }
  }
}
