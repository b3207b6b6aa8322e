/**
 * The product list's pagination bar: the window of page numbers with "..."
 * markers, the "Showing x-y of n" bounds, which buttons are disabled, and the
 * query string a page change navigates to.
 */
module Pagination {
  import opened Wrappers
  import JsString
  import SearchParams

  const MaxVisiblePages: int := 5

  /** One button of the page list: a page number or the "..." marker. */
  datatype PageEntry = Number(n: int) | Ellipsis

  function Max(a: int, b: int): int { if a >= b then a else b }
  function Min(a: int, b: int): int { if a <= b then a else b }

  /** The entries lo, lo+1, ..., hi (empty when hi < lo). */
  function Range(lo: int, hi: int): (r: seq<PageEntry>)
    ensures |r| == if hi < lo then 0 else hi - lo + 1
    ensures forall k :: 0 <= k < |r| ==> r[k] == Number(lo + k)
    decreases hi - lo
  {
    if hi < lo then [] else [Number(lo)] + Range(lo + 1, hi)
  }

  function LeftMarker(currentPage: int): seq<PageEntry> {
    if currentPage > 3 then [Ellipsis] else []
  }

  function RightMarker(currentPage: int, totalPages: int): seq<PageEntry> {
    if currentPage < totalPages - 2 then [Ellipsis] else []
  }

  function Window(currentPage: int, totalPages: int): seq<PageEntry> {
    Range(Max(2, currentPage - 1), Min(totalPages - 1, currentPage + 1))
  }

  /** The list `getPageNumbers` produces: every page when there are at most five;
      otherwise the first page, the neighbours of the current page and the last
      page, with "..." where pages are skipped. */
  function PageList(currentPage: int, totalPages: int): seq<PageEntry> {
    if totalPages <= MaxVisiblePages then Range(1, totalPages)
    else [Number(1)] + LeftMarker(currentPage) + Window(currentPage, totalPages)
         + RightMarker(currentPage, totalPages) + [Number(totalPages)]
  }

  lemma RangeSnoc(lo: int, hi: int)
    requires lo <= hi + 1
    ensures Range(lo, hi) + [Number(hi + 1)] == Range(lo, hi + 1)
  {
  }

  /** `getPageNumbers`, built by pushing onto a list as the component does. */
  method GetPageNumbers(currentPage: int, totalPages: int) returns (pages: seq<PageEntry>)
    ensures pages == PageList(currentPage, totalPages)
  {
    pages := [];
    if totalPages <= MaxVisiblePages {
      var i := 1;
      while i <= totalPages
        invariant 1 <= i <= Max(totalPages, 0) + 1
        invariant pages == Range(1, i - 1)
      {
        RangeSnoc(1, i - 1);
        pages := pages + [Number(i)];
        i := i + 1;
      }
    } else {
      pages := pages + [Number(1)];
      if currentPage > 3 {
        pages := pages + [Ellipsis];
      }
      assert pages == [Number(1)] + LeftMarker(currentPage);
      pages := PushWindow(pages, Max(2, currentPage - 1), Min(totalPages - 1, currentPage + 1), totalPages);
      assert pages == [Number(1)] + LeftMarker(currentPage) + Window(currentPage, totalPages);
      if currentPage < totalPages - 2 {
        pages := pages + [Ellipsis];
      }
      assert pages == [Number(1)] + LeftMarker(currentPage) + Window(currentPage, totalPages)
                      + RightMarker(currentPage, totalPages);
      if totalPages > 1 {
        pages := pages + [Number(totalPages)];
      }
    }
  }

  /** The window loop of `getPageNumbers`: push start..end, skipping the first and
      the last page, which the window never reaches. */
  method PushWindow(pages: seq<PageEntry>, start: int, end: int, totalPages: int) returns (r: seq<PageEntry>)
    requires 2 <= start && end <= totalPages - 1
    ensures r == pages + Range(start, end)
  {
    r := pages;
    var i := start;
    while i <= end
      invariant start <= i <= Max(end + 1, start)
      invariant r == pages + Range(start, i - 1)
    {
      if i != 1 && i != totalPages {
        RangeSnoc(start, i - 1);
        r := r + [Number(i)];
      } else {
        assert false;
      }
      i := i + 1;
    }
  }

  /** The page numbers of a list only go up. */
  predicate Increasing(s: seq<PageEntry>) {
    forall i, j :: 0 <= i < j < |s| && s[i].Number? && s[j].Number? ==> s[i].n < s[j].n
  }

  /** Every page number of a list is between lo and hi. */
  predicate Within(s: seq<PageEntry>, lo: int, hi: int) {
    forall i :: 0 <= i < |s| && s[i].Number? ==> lo <= s[i].n <= hi
  }

  lemma ConcatIncreasing(a: seq<PageEntry>, b: seq<PageEntry>, lo1: int, hi1: int, lo2: int, hi2: int)
    requires Increasing(a) && Within(a, lo1, hi1)
    requires Increasing(b) && Within(b, lo2, hi2)
    requires hi1 < lo2 && lo1 <= lo2 && hi1 <= hi2
    ensures Increasing(a + b) && Within(a + b, lo1, hi2)
  {
    var s := a + b;
    forall i, j | 0 <= i < j < |s| && s[i].Number? && s[j].Number? ensures s[i].n < s[j].n {
      if j < |a| {
        assert s[i] == a[i] && s[j] == a[j];
      } else if i >= |a| {
        assert s[i] == b[i - |a|] && s[j] == b[j - |a|];
      } else {
        assert s[i] == a[i] && s[j] == b[j - |a|];
      }
    }
    forall i | 0 <= i < |s| && s[i].Number? ensures lo1 <= s[i].n <= hi2 {
      if i < |a| {
        assert s[i] == a[i];
      } else {
        assert s[i] == b[i - |a|];
      }
    }
  }

  /** Each page appears at most once and the numbers are in ascending order, for
      any current page; and all of them are real pages. */
  lemma PageListIncreasing(currentPage: int, totalPages: int)
    ensures Increasing(PageList(currentPage, totalPages))
    ensures Within(PageList(currentPage, totalPages), 1, totalPages)
  {
    if totalPages > MaxVisiblePages {
      var c, t := currentPage, totalPages;
      ConcatIncreasing([Number(1)], LeftMarker(c), 1, 1, 2, 1);
      ConcatIncreasing([Number(1)] + LeftMarker(c), Window(c, t), 1, 1, 2, t - 1);
      var w := [Number(1)] + LeftMarker(c) + Window(c, t);
      ConcatIncreasing(w, RightMarker(c, t), 1, t - 1, t, t - 1);
      ConcatIncreasing(w + RightMarker(c, t), [Number(t)], 1, t - 1, t, t);
    }
  }

  /** With at most five pages the list is exactly 1, 2, ..., totalPages. */
  lemma SmallPageList(currentPage: int, totalPages: int)
    requires totalPages <= MaxVisiblePages
    ensures |PageList(currentPage, totalPages)| == Max(totalPages, 0)
    ensures forall k :: 0 <= k < |PageList(currentPage, totalPages)| ==>
              PageList(currentPage, totalPages)[k] == Number(k + 1)
  {
  }

  /** For more than five pages and a current page in range, the entry at each
      index: the first page, an optional "...", the window start..end, an
      optional "..." and the last page. */
  lemma {:induction false} LargePageListShape(c: int, t: int)
    requires t > MaxVisiblePages && 1 <= c <= t
    ensures var r := PageList(c, t);
            var a := if c > 3 then 1 else 0;
            var b := if c < t - 2 then 1 else 0;
            var s := Max(2, c - 1);
            var e := Min(t - 1, c + 1);
            s <= e && e - s <= 2
            && |r| == 2 + a + (e - s + 1) + b
            && r[0] == Number(1)
            && (a == 1 ==> r[1] == Ellipsis)
            && (forall k :: 1 + a <= k < 1 + a + (e - s + 1) ==> r[k] == Number(s + k - 1 - a))
            && (b == 1 ==> r[|r| - 2] == Ellipsis)
            && r[|r| - 1] == Number(t)
  {
    var r := PageList(c, t);
    var left := LeftMarker(c);
    var win := Window(c, t);
    var right := RightMarker(c, t);
    assert r == [Number(1)] + left + win + right + [Number(t)];
    forall k | 1 + |left| <= k < 1 + |left| + |win|
      ensures r[k] == win[k - 1 - |left|]
    {
    }
  }

  /** The list for more than five pages begins with page 1 and ends with the last page. */
  lemma LargePageListEnds(currentPage: int, totalPages: int)
    requires totalPages > MaxVisiblePages
    ensures |PageList(currentPage, totalPages)| >= 2
    ensures PageList(currentPage, totalPages)[0] == Number(1)
    ensures PageList(currentPage, totalPages)[|PageList(currentPage, totalPages)| - 1] == Number(totalPages)
  {
    var r := PageList(currentPage, totalPages);
    assert r[0] == Number(1);
    assert r == ([Number(1)] + LeftMarker(currentPage) + Window(currentPage, totalPages)
                 + RightMarker(currentPage, totalPages)) + [Number(totalPages)];
  }

  /** With more than five pages: the left "..." is there iff the current page is past 3,
      the right one iff it is before the third-to-last page, "..." appears nowhere else,
      and there are at most seven entries. */
  lemma EllipsisRule(c: int, t: int)
    requires t > MaxVisiblePages && 1 <= c <= t
    ensures |PageList(c, t)| <= 7
    ensures PageList(c, t)[1] == Ellipsis <==> c > 3
    ensures PageList(c, t)[|PageList(c, t)| - 2] == Ellipsis <==> c < t - 2
    ensures forall k :: 0 <= k < |PageList(c, t)| && PageList(c, t)[k] == Ellipsis ==>
              k == 1 || k == |PageList(c, t)| - 2
  {
    LargePageListShape(c, t);
  }

  /** Pages shown next to each other are consecutive, and a "..." always stands
      between two shown pages and hides at least one page. With the first page 1,
      the last page totalPages and increasing numbers, every page is either shown
      or hidden behind exactly one "...". */
  predicate GapsMarked(r: seq<PageEntry>) {
    ShownConsecutive(r) && EllipsisHides(r)
  }

  predicate ShownConsecutive(r: seq<PageEntry>) {
    forall k :: 0 <= k < |r| - 1 && r[k].Number? && r[k + 1].Number? ==> r[k + 1].n == r[k].n + 1
  }

  predicate EllipsisHides(r: seq<PageEntry>) {
    forall k :: 0 <= k < |r| && r[k].Ellipsis? ==>
      0 < k < |r| - 1 && r[k - 1].Number? && r[k + 1].Number? && r[k - 1].n + 1 < r[k + 1].n
  }

  lemma PageListConsecutive(currentPage: int, totalPages: int)
    requires 1 <= currentPage <= totalPages
    ensures ShownConsecutive(PageList(currentPage, totalPages))
  {
    if totalPages > MaxVisiblePages {
      LargePageListShape(currentPage, totalPages);
    }
  }

  lemma PageListEllipsisHides(currentPage: int, totalPages: int)
    requires 1 <= currentPage <= totalPages
    ensures EllipsisHides(PageList(currentPage, totalPages))
  {
    if totalPages > MaxVisiblePages {
      LargePageListShape(currentPage, totalPages);
    }
  }

  lemma PageListGapsMarked(currentPage: int, totalPages: int)
    requires 1 <= currentPage <= totalPages
    ensures GapsMarked(PageList(currentPage, totalPages))
  {
    PageListConsecutive(currentPage, totalPages);
    PageListEllipsisHides(currentPage, totalPages);
  }

  /** The current page is among the numbers shown iff it is a real page. */
  lemma CurrentPageShown(currentPage: int, totalPages: int)
    ensures (exists k :: 0 <= k < |PageList(currentPage, totalPages)| &&
               PageList(currentPage, totalPages)[k] == Number(currentPage))
            <==> 1 <= currentPage <= totalPages
  {
    var r := PageList(currentPage, totalPages);
    PageListIncreasing(currentPage, totalPages);
    if 1 <= currentPage <= totalPages {
      if totalPages <= MaxVisiblePages {
        assert r[currentPage - 1] == Number(currentPage);
      } else {
        LargePageListShape(currentPage, totalPages);
        var a := if currentPage > 3 then 1 else 0;
        var s := Max(2, currentPage - 1);
        if currentPage == 1 {
          assert r[0] == Number(currentPage);
        } else if currentPage == totalPages {
          assert r[|r| - 1] == Number(currentPage);
        } else {
          assert r[1 + a + currentPage - s] == Number(currentPage);
        }
      }
    }
  }

  /** The component renders nothing unless there are at least two pages. */
  predicate Rendered(totalPages: int) {
    !(totalPages <= 1)
  }

  /** The first item shown on the current page, counted from 1. */
  function StartItem(currentPage: int, itemsPerPage: int): int {
    (currentPage - 1) * itemsPerPage + 1
  }

  /** The last item shown on the current page. */
  function EndItem(currentPage: int, itemsPerPage: int, totalItems: int): int {
    Min(currentPage * itemsPerPage, totalItems)
  }

  /** On a page that holds at least one item, "Showing x-y of n" is a non-empty range
      of at most itemsPerPage items inside 1..n, the page's own slice of the items. */
  lemma ShowingBounds(currentPage: int, itemsPerPage: int, totalItems: int)
    requires currentPage >= 1 && itemsPerPage >= 1
    requires (currentPage - 1) * itemsPerPage < totalItems
    ensures 1 <= StartItem(currentPage, itemsPerPage)
    ensures StartItem(currentPage, itemsPerPage) <= EndItem(currentPage, itemsPerPage, totalItems) <= totalItems
    ensures EndItem(currentPage, itemsPerPage, totalItems) - StartItem(currentPage, itemsPerPage) + 1 <= itemsPerPage
    ensures EndItem(currentPage, itemsPerPage, totalItems) == totalItems
            || EndItem(currentPage, itemsPerPage, totalItems) - StartItem(currentPage, itemsPerPage) + 1 == itemsPerPage
  {
  }

  /** Consecutive pages show adjacent, non-overlapping ranges. */
  lemma ShowingAdjacent(currentPage: int, itemsPerPage: int, totalItems: int)
    requires currentPage >= 1 && itemsPerPage >= 1
    requires currentPage * itemsPerPage < totalItems
    ensures StartItem(currentPage + 1, itemsPerPage) == EndItem(currentPage, itemsPerPage, totalItems) + 1
  {
  }

  predicate PrevDisabled(currentPage: int) {
    currentPage == 1
  }

  predicate NextDisabled(currentPage: int, totalPages: int) {
    currentPage == totalPages
  }

  predicate EntryDisabled(entry: PageEntry) {
    entry == Ellipsis
  }

  predicate EntryActive(entry: PageEntry, currentPage: int) {
    entry == Number(currentPage)
  }

  /** The page a click on an entry navigates to; None when the click does nothing. */
  function EntryTarget(entry: PageEntry): (r: Option<int>)
    ensures r.None? <==> EntryDisabled(entry)
  {
    match entry
    case Number(n) => Some(n)
    case Ellipsis => None
  }

  /** Every enabled button of the bar, for a current page in range, leads to a real page. */
  lemma EnabledTargetsInRange(currentPage: int, totalPages: int)
    requires 1 <= currentPage <= totalPages
    ensures !PrevDisabled(currentPage) ==> 1 <= currentPage - 1 <= totalPages
    ensures !NextDisabled(currentPage, totalPages) ==> 1 <= currentPage + 1 <= totalPages
    ensures forall k :: (0 <= k < |PageList(currentPage, totalPages)|
                         && EntryTarget(PageList(currentPage, totalPages)[k]).Some?) ==>
              1 <= EntryTarget(PageList(currentPage, totalPages)[k]).value <= totalPages
  {
    PageListIncreasing(currentPage, totalPages);
  }

  /** Exactly one entry is highlighted as the current page, for a current page in range. */
  lemma OneActiveEntry(currentPage: int, totalPages: int, i: int, j: int)
    requires 0 <= i < |PageList(currentPage, totalPages)| && 0 <= j < |PageList(currentPage, totalPages)|
    requires EntryActive(PageList(currentPage, totalPages)[i], currentPage)
    requires EntryActive(PageList(currentPage, totalPages)[j], currentPage)
    ensures i == j
  {
    PageListIncreasing(currentPage, totalPages);
  }

  /** `handlePageChange(page)`: copy the current query, set its `page` parameter and
      navigate to "/products?" followed by the new query. */
  function PageChangeParams(current: SearchParams.Params, page: int): SearchParams.Params {
    var params := SearchParams.FromString(SearchParams.ToString(current));
    SearchParams.Set(params, "page", JsString.IntToString(page))
  }

  function PageChangeUrl(current: SearchParams.Params, page: int): string {
    "/products?" + SearchParams.ToString(PageChangeParams(current, page))
  }

  /** A page change sets `page` to the new page and keeps every other parameter, in order. */
  lemma PageChangeKeepsOthers(current: SearchParams.Params, page: int)
    ensures SearchParams.Get(PageChangeParams(current, page), "page") == Some(JsString.IntToString(page))
    ensures SearchParams.Without(PageChangeParams(current, page), "page") == SearchParams.Without(current, "page")
    ensures forall other :: other != "page" ==>
              SearchParams.Get(PageChangeParams(current, page), other) == SearchParams.Get(current, other)
  {
    SearchParams.FromToString(current);
    SearchParams.SetGet(current, "page", JsString.IntToString(page));
    SearchParams.SetKeepsOthers(current, "page", JsString.IntToString(page));
    forall other | other != "page"
      ensures SearchParams.Get(PageChangeParams(current, page), other) == SearchParams.Get(current, other)
    {
      SearchParams.SetGetOther(current, "page", JsString.IntToString(page), other);
    }
  }

  /** The URL a page change navigates to reads back as the new parameters. */
  lemma PageChangeUrlReadsBack(current: SearchParams.Params, page: int)
    ensures JsString.StartsWith(PageChangeUrl(current, page), "/products?")
    ensures SearchParams.FromString(PageChangeUrl(current, page)[|"/products?"|..]) == PageChangeParams(current, page)
  {
    var url := PageChangeUrl(current, page);
    assert url[|"/products?"|..] == SearchParams.ToString(PageChangeParams(current, page));
    assert url[..|"/products?"|] == "/products?";
    SearchParams.FromToString(PageChangeParams(current, page));
  }
}
