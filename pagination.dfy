/** The pagination control under the paper lists: the "Showing x to y of n"
    counters and the strip of page buttons, which shows the first and the
    last page, a window of two pages either side of the current one, and an
    ellipsis marker wherever pages are skipped. */
module Pagination {
  import opened Wrappers
  import opened Numeric

  /** An entry of the page strip: a page button or the `'...'` marker. */
  datatype PageEntry = PageNumber(n: int) | Ellipsis

  /** The number of pages shown on each side of the current page (`delta`). */
  const Delta := 2

  /** The ascending run lo, lo + 1, ..., hi (empty when hi < lo). */
  function Run(lo: int, hi: int): (r: seq<int>)
    ensures |r| == if hi < lo then 0 else hi - lo + 1
    ensures forall k :: 0 <= k < |r| ==> r[k] == lo + k
    decreases hi - lo
  {
    if hi < lo then [] else Run(lo, hi - 1) + [hi]
  }

  /** Page numbers as page buttons, in the same order. */
  function AsEntries(ns: seq<int>): (r: seq<PageEntry>)
    ensures |r| == |ns|
    ensures forall k :: 0 <= k < |r| ==> r[k] == PageNumber(ns[k])
  {
    if ns == [] then [] else [PageNumber(ns[0])] + AsEntries(ns[1..])
  }

  /** First and last page of the window around the current page. */
  function WindowLow(currentPage: int): int { IntMax(2, currentPage - Delta) }
  function WindowHigh(currentPage: int, totalPages: int): int { IntMin(totalPages - 1, currentPage + Delta) }

  /** The strip opens with a marker when pages between 1 and the window are hidden. */
  predicate LeadingDots(currentPage: int) { currentPage - Delta > 2 }
  /** The strip closes with a marker when pages between the window and the last are hidden. */
  predicate TrailingDots(currentPage: int, totalPages: int) { currentPage + Delta < totalPages - 1 }

  /** The page strip: page 1, the window, the last page, with the markers. */
  function VisiblePages(currentPage: int, totalPages: int): seq<PageEntry> {
    (if LeadingDots(currentPage) then [PageNumber(1), Ellipsis] else [PageNumber(1)])
    + AsEntries(Run(WindowLow(currentPage), WindowHigh(currentPage, totalPages)))
    + (if TrailingDots(currentPage, totalPages) then [Ellipsis, PageNumber(totalPages)] else [PageNumber(totalPages)])
  }

  /** `getVisiblePages`: collects the window with a loop, then adds the
      first page, the markers and the last page around it. */
  method GetVisiblePages(currentPage: int, totalPages: int) returns (pages: seq<PageEntry>)
    ensures pages == VisiblePages(currentPage, totalPages)
  {
    var lo, hi := WindowLow(currentPage), WindowHigh(currentPage, totalPages);
    var range: seq<int> := [];
    var i := lo;
    while i <= hi
      invariant i == lo || lo <= i <= hi + 1
      invariant range == Run(lo, i - 1)
      decreases hi - i
    {
      range := range + [i];
      i := i + 1;
    }
    assert range == Run(lo, hi);
    var withDots: seq<PageEntry>;
    if currentPage - Delta > 2 {
      withDots := [PageNumber(1), Ellipsis];
    } else {
      withDots := [PageNumber(1)];
    }
    withDots := withDots + AsEntries(range);
    if currentPage + Delta < totalPages - 1 {
      withDots := withDots + [Ellipsis, PageNumber(totalPages)];
    } else {
      withDots := withDots + [PageNumber(totalPages)];
    }
    pages := withDots;
  }

  /** A page the control can be on: at least two pages, current one in range. */
  predicate Showable(currentPage: int, totalPages: int) {
    2 <= totalPages && 1 <= currentPage <= totalPages
  }

  /** The window between the ends holds at most five pages, strictly inside 1..totalPages. */
  lemma WindowBounds(currentPage: int, totalPages: int)
    requires Showable(currentPage, totalPages)
    ensures |Run(WindowLow(currentPage), WindowHigh(currentPage, totalPages))| <= 2 * Delta + 1
    ensures forall k :: 0 <= k < |Run(WindowLow(currentPage), WindowHigh(currentPage, totalPages))| ==>
      1 < Run(WindowLow(currentPage), WindowHigh(currentPage, totalPages))[k] < totalPages
  {
  }

  /** The strip starts with page 1, ends with the last page, never starts or
      ends with a marker, and has at most nine entries. */
  lemma VisiblePagesEnds(currentPage: int, totalPages: int)
    requires Showable(currentPage, totalPages)
    ensures var r := VisiblePages(currentPage, totalPages);
      2 <= |r| <= 9 && r[0] == PageNumber(1) && r[|r| - 1] == PageNumber(totalPages)
  {
    WindowBounds(currentPage, totalPages);
  }

  /** The page numbers on the strip are strictly increasing. */
  lemma VisiblePagesIncreasing(currentPage: int, totalPages: int)
    requires Showable(currentPage, totalPages)
    ensures var r := VisiblePages(currentPage, totalPages);
      forall i, j :: 0 <= i < j < |r| && r[i].PageNumber? && r[j].PageNumber? ==> r[i].n < r[j].n
  {
    var r := VisiblePages(currentPage, totalPages);
    var front := if LeadingDots(currentPage) then [PageNumber(1), Ellipsis] else [PageNumber(1)];
    var mid := AsEntries(Run(WindowLow(currentPage), WindowHigh(currentPage, totalPages)));
    var back := if TrailingDots(currentPage, totalPages) then [Ellipsis, PageNumber(totalPages)] else [PageNumber(totalPages)];
    assert r == front + mid + back;
    WindowBounds(currentPage, totalPages);
    forall i, j | 0 <= i < j < |r| && r[i].PageNumber? && r[j].PageNumber? ensures r[i].n < r[j].n {
      if i < |front| {
        assert r[i] == PageNumber(1);
      } else if i < |front| + |mid| {
        assert r[i] == mid[i - |front|];
        if j < |front| + |mid| { assert r[j] == mid[j - |front|]; } else { assert r[j] == PageNumber(totalPages); }
      }
    }
  }

  /** The current page is always on the strip. */
  lemma VisiblePagesHasCurrent(currentPage: int, totalPages: int)
    requires Showable(currentPage, totalPages)
    ensures PageNumber(currentPage) in VisiblePages(currentPage, totalPages)
  {
    var r := VisiblePages(currentPage, totalPages);
    var run := Run(WindowLow(currentPage), WindowHigh(currentPage, totalPages));
    var front := if LeadingDots(currentPage) then [PageNumber(1), Ellipsis] else [PageNumber(1)];
    var back := if TrailingDots(currentPage, totalPages) then [Ellipsis, PageNumber(totalPages)] else [PageNumber(totalPages)];
    assert r == front + AsEntries(run) + back;
    if 1 < currentPage < totalPages {
      var k := currentPage - WindowLow(currentPage);
      assert run[k] == currentPage;
      assert r[|front| + k] == AsEntries(run)[k];
    } else if currentPage == 1 {
      assert r[0] == PageNumber(1);
    } else {
      assert r[|r| - 1] == PageNumber(totalPages);
    }
  }

  /** The strip without its two ends: the markers and the window. */
  function Interior(currentPage: int, totalPages: int): seq<PageEntry> {
    (if LeadingDots(currentPage) then [Ellipsis] else [])
    + AsEntries(Run(WindowLow(currentPage), WindowHigh(currentPage, totalPages)))
    + (if TrailingDots(currentPage, totalPages) then [Ellipsis] else [])
  }

  lemma InteriorShape(currentPage: int, totalPages: int)
    ensures var r := VisiblePages(currentPage, totalPages);
      |r| >= 2 && r[1..|r| - 1] == Interior(currentPage, totalPages)
  {
    var r := VisiblePages(currentPage, totalPages);
    var mid := AsEntries(Run(WindowLow(currentPage), WindowHigh(currentPage, totalPages)));
    var front := if LeadingDots(currentPage) then [Ellipsis] else [];
    var back := if TrailingDots(currentPage, totalPages) then [Ellipsis] else [];
    assert r == [PageNumber(1)] + (front + mid + back) + [PageNumber(totalPages)];
  }

  /** Every page of the window is shown between the two ends. */
  lemma InteriorHasWindow(currentPage: int, totalPages: int, n: int)
    requires WindowLow(currentPage) <= n <= WindowHigh(currentPage, totalPages)
    ensures PageNumber(n) in Interior(currentPage, totalPages)
  {
    var mid := AsEntries(Run(WindowLow(currentPage), WindowHigh(currentPage, totalPages)));
    var front := if LeadingDots(currentPage) then [Ellipsis] else [];
    var back := if TrailingDots(currentPage, totalPages) then [Ellipsis] else [];
    var k := n - WindowLow(currentPage);
    assert mid[k] == PageNumber(n);
    assert (front + mid + back)[|front| + k] == PageNumber(n);
  }

  /** Every page shown between the two ends lies in the window. */
  lemma InteriorInWindow(currentPage: int, totalPages: int, n: int)
    requires PageNumber(n) in Interior(currentPage, totalPages)
    ensures WindowLow(currentPage) <= n <= WindowHigh(currentPage, totalPages)
  {
    var mid := AsEntries(Run(WindowLow(currentPage), WindowHigh(currentPage, totalPages)));
    var front := if LeadingDots(currentPage) then [Ellipsis] else [];
    var back := if TrailingDots(currentPage, totalPages) then [Ellipsis] else [];
    var inner := front + mid + back;
    var k :| 0 <= k < |inner| && inner[k] == PageNumber(n);
    assert |front| <= k < |front| + |mid|;
    assert mid[k - |front|] == PageNumber(n);
  }

  /** Between the two ends the strip shows exactly the pages
      max(2, p - 2) .. min(totalPages - 1, p + 2). */
  lemma VisiblePagesInterior(currentPage: int, totalPages: int, n: int)
    requires Showable(currentPage, totalPages)
    ensures var r := VisiblePages(currentPage, totalPages);
      PageNumber(n) in r[1..|r| - 1] <==> WindowLow(currentPage) <= n <= WindowHigh(currentPage, totalPages)
  {
    InteriorShape(currentPage, totalPages);
    if WindowLow(currentPage) <= n <= WindowHigh(currentPage, totalPages) {
      InteriorHasWindow(currentPage, totalPages, n);
    }
    if PageNumber(n) in Interior(currentPage, totalPages) {
      InteriorInWindow(currentPage, totalPages, n);
    }
  }

  /** A marker sits right after page 1 exactly when pages 2 .. p - 3 are
      hidden, right before the last page exactly when pages p + 3 .. last - 1
      are hidden, and nowhere else; so there are at most two of them. */
  lemma VisiblePagesDots(currentPage: int, totalPages: int)
    requires Showable(currentPage, totalPages)
    ensures var r := VisiblePages(currentPage, totalPages);
      |r| >= 3 ==>
        (r[1] == Ellipsis <==> LeadingDots(currentPage)) &&
        (r[|r| - 2] == Ellipsis <==> TrailingDots(currentPage, totalPages))
    ensures var r := VisiblePages(currentPage, totalPages);
      forall k :: 0 <= k < |r| && r[k] == Ellipsis ==> k == 1 || k == |r| - 2
  {
    var r := VisiblePages(currentPage, totalPages);
    var run := Run(WindowLow(currentPage), WindowHigh(currentPage, totalPages));
    var mid := AsEntries(run);
    var front := if LeadingDots(currentPage) then [PageNumber(1), Ellipsis] else [PageNumber(1)];
    var back := if TrailingDots(currentPage, totalPages) then [Ellipsis, PageNumber(totalPages)] else [PageNumber(totalPages)];
    assert r == front + mid + back;
    if TrailingDots(currentPage, totalPages) || LeadingDots(currentPage) {
      assert run != [] by { assert WindowLow(currentPage) <= WindowHigh(currentPage, totalPages); }
    }
    forall k | |front| <= k < |front| + |mid| ensures r[k].PageNumber? {
      assert r[k] == mid[k - |front|];
    }
    if |r| >= 3 {
      if !LeadingDots(currentPage) {
        assert r[1] == mid[0];
      }
      if !TrailingDots(currentPage, totalPages) {
        assert r[|r| - 2] == mid[|mid| - 1];
      }
    }
  }

  /** The first item shown on a page (`startItem`). */
  function StartItem(currentPage: int, itemsPerPage: int): int { (currentPage - 1) * itemsPerPage + 1 }

  /** The last item shown on a page (`endItem`). */
  function EndItem(currentPage: int, itemsPerPage: int, totalItems: int): int {
    IntMin(currentPage * itemsPerPage, totalItems)
  }

  /** On a page that holds items, the counters number exactly that page's
      items: they lie within 1..totalItems and span at most one page. */
  lemma ItemCounters(currentPage: int, itemsPerPage: int, totalItems: int)
    requires 1 <= currentPage && 1 <= itemsPerPage && (currentPage - 1) * itemsPerPage < totalItems
    ensures var s, e := StartItem(currentPage, itemsPerPage), EndItem(currentPage, itemsPerPage, totalItems);
      1 <= s <= e <= totalItems &&
      e - s + 1 == IntMin(itemsPerPage, totalItems - (currentPage - 1) * itemsPerPage)
  {
    assert currentPage * itemsPerPage == (currentPage - 1) * itemsPerPage + itemsPerPage;
    assert (currentPage - 1) * itemsPerPage >= 0;
  }

  /** What the control renders: the two counters and the page strip. */
  datatype View = View(startItem: int, endItem: int, pages: seq<PageEntry>)

  /** The component: nothing when there is at most one page. */
  method Render(currentPage: int, totalPages: int, totalItems: int, itemsPerPage: int) returns (view: Option<View>)
    ensures view.None? <==> totalPages <= 1
    ensures view.Some? ==> view.value == View(StartItem(currentPage, itemsPerPage),
      EndItem(currentPage, itemsPerPage, totalItems), VisiblePages(currentPage, totalPages))
  {
    if totalPages <= 1 {
      return None;
    }
    var pages := GetVisiblePages(currentPage, totalPages);
    view := Some(View(StartItem(currentPage, itemsPerPage), EndItem(currentPage, itemsPerPage, totalItems), pages));
  }
}
