/** The pagination control of the item list: which page buttons it shows,
    the "Showing X to Y of Z items" line, and the Previous and Next buttons. */
module Pagination {
  import opened Common
  import opened Items

  /** `maxVisiblePages`: at most this many page buttons are shown. */
  const MaxVisiblePages: int := 5

  /** The control renders nothing when there is at most one page. */
  predicate Renders(totalPages: int)
  {
    totalPages > 1
  }

  /** `generatePageNumbers`: a window of consecutive page numbers around
      `page`, moved back from the end so that it stays full when it can.
      The window has `min(5, totalPages)` pages, all of them real pages;
      it holds the current page when that is a real page, is centred on it
      away from both ends, starts at page 1 near the start and ends at the
      last page near the end. */
  method PageNumbers(page: int, totalPages: int) returns (pages: seq<int>)
    ensures |pages| == Max(0, Min(MaxVisiblePages, totalPages))
    ensures forall k :: 0 <= k < |pages| ==> 1 <= pages[k] <= totalPages
    ensures forall k :: 0 < k < |pages| ==> pages[k] == pages[k - 1] + 1
    ensures 1 <= page <= totalPages ==> page in pages
    ensures |pages| > 0 && page <= 3 ==> pages[0] == 1
    ensures 3 <= page <= totalPages - 2 ==> |pages| > 0 && pages[0] == page - 2
    ensures |pages| > 0 && page >= totalPages - 2 ==> pages[|pages| - 1] == totalPages
  {
    var startPage := Max(1, page - MaxVisiblePages / 2);
    var endPage := Min(totalPages, startPage + MaxVisiblePages - 1);

    // Near the end, move the start back so that the window stays full.
    if endPage - startPage + 1 < MaxVisiblePages {
      startPage := Max(1, endPage - MaxVisiblePages + 1);
    }

    pages := [];
    var i := startPage;
    while i <= endPage
      invariant startPage <= i <= Max(startPage, endPage + 1)
      invariant |pages| == i - startPage
      invariant forall k :: 0 <= k < |pages| ==> pages[k] == startPage + k
    {
      pages := pages + [i];
      i := i + 1;
    }
    if 1 <= page <= totalPages {
      assert pages[page - startPage] == page;
    }
  }

  /** The "Showing X to Y" line: the 1-based numbers of the first and the last
      item of the page, the last one cut off at `total`. */
  function ShowingRange(page: int, limit: int, total: int): (r: (int, int))
    ensures r.0 == (page - 1) * limit + 1
    ensures r.1 <= total && r.1 <= page * limit
    ensures r.1 == total || r.1 == page * limit
  {
    ((page - 1) * limit + 1, Min(page * limit, total))
  }

  /** For a page that exists, the "Showing" line names exactly the items the
      listing answers for that page: as many as it returns, starting at the
      first of them. */
  lemma ShowingMatchesPage(results: seq<Item>, page: nat, limit: nat)
    requires limit >= 1 && 1 <= page <= CeilDiv(|results|, limit)
    ensures var (first, last) := ShowingRange(page, limit, |results|);
      var items := Paginate(results, page, limit).items;
      && 1 <= first <= last <= |results|
      && last - first + 1 == |items|
      && items[0] == results[first - 1]
      && items[|items| - 1] == results[last - 1]
  {
    var t := CeilDiv(|results|, limit);
    assert (page - 1) * limit <= (t - 1) * limit < |results| by {
      MulMonotone(page - 1, t - 1, limit);
    }
    assert page * limit == (page - 1) * limit + limit;
  }

  /** Previous is disabled on the first page (and before it). */
  predicate PreviousDisabled(page: int)
  {
    page <= 1
  }

  /** Next is disabled on the last page (and after it). */
  predicate NextDisabled(page: int, totalPages: int)
  {
    page >= totalPages
  }

  /** From a real page, an enabled Previous or Next asks for a real page,
      and when the control renders at least one of them is enabled. */
  lemma NavigationStaysInRange(page: int, totalPages: int)
    requires 1 <= page <= totalPages
    ensures !PreviousDisabled(page) ==> 1 <= page - 1 <= totalPages
    ensures !NextDisabled(page, totalPages) ==> 1 <= page + 1 <= totalPages
    ensures Renders(totalPages) <==> !PreviousDisabled(page) || !NextDisabled(page, totalPages)
  {
  }
}
