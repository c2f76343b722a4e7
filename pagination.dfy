/** The pagination control: a window of page buttons with shortcuts, ellipses and Previous/Next. */
module Pagination {
  import opened Domain
  import opened Paging

  const MaxVisiblePages: int := 5

  /** One rendered element of the page-number strip. */
  datatype PageItem =
    | Num(page: int, active: bool)   // a window button; `active` is the highlighted current page
    | Shortcut(page: int)            // the first- or last-page button outside the window
    | Ellipsis                       // a "..." marker

  /** A Previous or Next button: the page it requests and whether it is disabled. */
  datatype NavButton = NavButton(target: int, disabled: bool)

  /** The whole control when it is rendered. */
  datatype Controls = Controls(previous: NavButton, items: seq<PageItem>, next: NavButton)

  /** The last page of the window (computed once, before the start is moved back). */
  function WindowEnd(current: int, total: int): int {
    Min(total, Max(1, current - MaxVisiblePages / 2) + MaxVisiblePages - 1)
  }

  /** The first page of the window: centred on the current page, moved back when the end is clamped. */
  function WindowStart(current: int, total: int): int {
    var start := Max(1, current - MaxVisiblePages / 2);
    var end := WindowEnd(current, total);
    if end - start + 1 < MaxVisiblePages then Max(1, end - MaxVisiblePages + 1) else start
  }

  /** The window buttons for pages `lo` to `hi`. */
  function WindowItems(lo: int, hi: int, current: int): seq<PageItem>
    decreases hi - lo
  {
    if hi < lo then [] else WindowItems(lo, hi - 1, current) + [Num(hi, current == hi)]
  }

  /** The shortcut to page 1 and the leading ellipsis. */
  function Leading(start: int): seq<PageItem> {
    if start > 1 then [Shortcut(1)] + (if start > 2 then [Ellipsis] else []) else []
  }

  /** The trailing ellipsis and the shortcut to the last page. */
  function Trailing(end: int, total: int): seq<PageItem> {
    if end < total then (if end < total - 1 then [Ellipsis] else []) + [Shortcut(total)] else []
  }

  /** The strip the control renders for the current page. */
  function Layout(current: int, total: int): seq<PageItem> {
    var start := WindowStart(current, total);
    var end := WindowEnd(current, total);
    Leading(start) + WindowItems(start, end, current) + Trailing(end, total)
  }

  /** The `for` loop of `renderPageNumbers`: pushes a button for each page from `lo` to `hi`. */
  method AppendWindow(pages: seq<PageItem>, lo: int, hi: int, current: int) returns (r: seq<PageItem>)
    ensures r == pages + WindowItems(lo, hi, current)
  {
    r := pages;
    var i := lo;
    while i <= hi
      invariant lo <= i && (i <= hi + 1 || i == lo)
      invariant r == pages + WindowItems(lo, i - 1, current)
    {
      r := r + [Num(i, current == i)];
      i := i + 1;
    }
    assert WindowItems(lo, i - 1, current) == WindowItems(lo, hi, current);
  }

  /** `renderPageNumbers`: builds the strip with `push`, filling the window in a loop. */
  method RenderPageNumbers(currentPage: int, totalPages: int) returns (pages: seq<PageItem>)
    ensures pages == Layout(currentPage, totalPages)
  {
    pages := [];
    var startPage := Max(1, currentPage - MaxVisiblePages / 2);
    var endPage := Min(totalPages, startPage + MaxVisiblePages - 1);
    if endPage - startPage + 1 < MaxVisiblePages {
      startPage := Max(1, endPage - MaxVisiblePages + 1);
    }
    assert startPage == WindowStart(currentPage, totalPages) && endPage == WindowEnd(currentPage, totalPages);
    if startPage > 1 {
      pages := pages + [Shortcut(1)];
      if startPage > 2 {
        pages := pages + [Ellipsis];
      }
    }
    assert pages == Leading(startPage);
    pages := AppendWindow(pages, startPage, endPage, currentPage);
    ghost var strip := pages;
    if endPage < totalPages {
      if endPage < totalPages - 1 {
        pages := pages + [Ellipsis];
      }
      pages := pages + [Shortcut(totalPages)];
    }
    assert pages == strip + Trailing(endPage, totalPages);
  }

  /** The Previous button: requests the page before and is disabled on page 1. */
  function Previous(current: int): NavButton {
    NavButton(current - 1, current == 1)
  }

  /** The Next button: requests the page after and is disabled on the last page. */
  function Next(current: int, total: int): NavButton {
    NavButton(current + 1, current == total)
  }

  /** The component: nothing for at most one page, otherwise Previous, the strip and Next. */
  method Render(currentPage: int, totalPages: int) returns (r: Option<Controls>)
    ensures r.None? <==> totalPages <= 1
    ensures r.Some? ==> r.value.items == Layout(currentPage, totalPages)
    ensures r.Some? ==> (r.value.previous.disabled <==> currentPage == 1)
    ensures r.Some? ==> (r.value.next.disabled <==> currentPage == totalPages)
    ensures r.Some? ==> r.value.previous.target == currentPage - 1 && r.value.next.target == currentPage + 1
  {
    if totalPages <= 1 {
      return None;
    }
    var pages := RenderPageNumbers(currentPage, totalPages);
    r := Some(Controls(Previous(currentPage), pages, Next(currentPage, totalPages)));
  }

  // ---- properties of the strip ----

  /** The page an item requests when clicked, if it is a button. */
  function Target(item: PageItem): Option<int> {
    match item
    case Num(p, _) => Some(p)
    case Shortcut(p) => Some(p)
    case Ellipsis => None
  }

  /** The window lies in `[1, total]` around the current page and holds `min(5, total)` pages. */
  lemma WindowBounds(current: int, total: int)
    requires 1 <= current <= total
    ensures 1 <= WindowStart(current, total) <= current <= WindowEnd(current, total) <= total
    ensures WindowEnd(current, total) - WindowStart(current, total) + 1 == Min(MaxVisiblePages, total)
  {
  }

  lemma {:induction false} WindowItemsAt(lo: int, hi: int, current: int)
    ensures |WindowItems(lo, hi, current)| == Max(0, hi - lo + 1)
    ensures forall k :: 0 <= k < |WindowItems(lo, hi, current)| ==>
      WindowItems(lo, hi, current)[k] == Num(lo + k, current == lo + k)
    decreases hi - lo
  {
    if hi >= lo {
      WindowItemsAt(lo, hi - 1, current);
    }
  }

  /** The page-1 shortcut leads the strip exactly when the window starts after page 1, and
      the leading ellipsis follows it exactly when the window starts after page 2. */
  lemma LeadingShortcuts(current: int, total: int)
    requires 1 <= current <= total
    ensures Layout(current, total)[0] == Shortcut(1) <==> WindowStart(current, total) > 1
    ensures (|Layout(current, total)| > 1 && Layout(current, total)[1] == Ellipsis)
        <==> WindowStart(current, total) > 2
  {
    var start, end := WindowStart(current, total), WindowEnd(current, total);
    WindowBounds(current, total);
    WindowItemsAt(start, end, current);
    var w := WindowItems(start, end, current);
    var l := Layout(current, total);
    assert l == Leading(start) + w + Trailing(end, total);
    if start == 1 {
      assert l[0] == w[0];
      if |w| > 1 {
        assert l[1] == w[1];
      }
    } else if start == 2 {
      assert l[1] == w[0];
    }
  }

  /** The last-page shortcut ends the strip exactly when the window ends before the last page, and
      the trailing ellipsis precedes it exactly when the window ends before the page before that. */
  lemma TrailingShortcuts(current: int, total: int)
    requires 1 <= current <= total
    ensures Layout(current, total)[|Layout(current, total)| - 1] == Shortcut(total)
        <==> WindowEnd(current, total) < total
    ensures (|Layout(current, total)| > 1 && Layout(current, total)[|Layout(current, total)| - 2] == Ellipsis)
        <==> WindowEnd(current, total) < total - 1
  {
    var start, end := WindowStart(current, total), WindowEnd(current, total);
    WindowBounds(current, total);
    WindowItemsAt(start, end, current);
    var w := WindowItems(start, end, current);
    var l := Layout(current, total);
    var lead := Leading(start);
    assert l == lead + w + Trailing(end, total);
    var n := |l|;
    if end == total {
      assert l[n - 1] == w[|w| - 1];
      if |w| > 1 {
        assert l[n - 2] == w[|w| - 2];
      }
    } else if end == total - 1 {
      assert l[n - 2] == w[|w| - 1];
    }
  }

  /** The button pages of the strip rise strictly (so none repeats), stay in `[1, total]`, and the
      current page is among them as the one highlighted button. */
  lemma StripPages(current: int, total: int)
    requires 1 <= current <= total
    ensures forall i, j ::
      (0 <= i < j < |Layout(current, total)| &&
       Target(Layout(current, total)[i]).Some? && Target(Layout(current, total)[j]).Some?) ==>
      Target(Layout(current, total)[i]).value < Target(Layout(current, total)[j]).value
    ensures forall i :: 0 <= i < |Layout(current, total)| && Target(Layout(current, total)[i]).Some? ==>
      1 <= Target(Layout(current, total)[i]).value <= total
    ensures Num(current, true) in Layout(current, total)
    ensures forall i :: 0 <= i < |Layout(current, total)| && Layout(current, total)[i].Num? ==>
      (Layout(current, total)[i].active <==> Layout(current, total)[i].page == current)
  {
    var start, end := WindowStart(current, total), WindowEnd(current, total);
    WindowBounds(current, total);
    LayoutAt(current, total);
    assert Layout(current, total)[|Leading(start)| + current - start] == Num(current, true);
  }

  /** Where each item of the strip sits: the leading shortcut, then the window in page order,
      then the trailing shortcut. */
  lemma LayoutAt(current: int, total: int)
    requires 1 <= current <= total
    ensures var start, l := WindowStart(current, total), Layout(current, total);
      && |l| == |Leading(start)| + (WindowEnd(current, total) - start + 1) + |Trailing(WindowEnd(current, total), total)|
      && (forall i :: 0 <= i < |Leading(start)| && Target(l[i]).Some? ==> l[i] == Shortcut(1))
      && (forall i :: |Leading(start)| <= i < |l| - |Trailing(WindowEnd(current, total), total)| ==>
            l[i] == Num(start + i - |Leading(start)|, current == start + i - |Leading(start)|))
      && (forall i :: |l| - |Trailing(WindowEnd(current, total), total)| <= i < |l| && Target(l[i]).Some? ==>
            l[i] == Shortcut(total))
  {
    var start, end := WindowStart(current, total), WindowEnd(current, total);
    WindowBounds(current, total);
    WindowItemsAt(start, end, current);
    var w := WindowItems(start, end, current);
    var lead, trail := Leading(start), Trailing(end, total);
    var l := Layout(current, total);
    assert l == lead + w + trail;
    assert forall i :: |lead| <= i < |lead| + |w| ==> l[i] == w[i - |lead|];
  }

  /** Every page the rendered control can request (an enabled Previous or Next, or any button of the
      strip) is a real page, so the index page never navigates out of `[1, total]`. */
  lemma RequestsStayInRange(current: int, total: int)
    requires 2 <= total && 1 <= current <= total
    ensures !Previous(current).disabled ==> 1 <= Previous(current).target <= total
    ensures !Next(current, total).disabled ==> 1 <= Next(current, total).target <= total
    ensures forall item :: item in Layout(current, total) && Target(item).Some? ==>
      1 <= Target(item).value <= total
  {
    StripPages(current, total);
    var l := Layout(current, total);
    forall item | item in l && Target(item).Some? ensures 1 <= Target(item).value <= total {
      var i :| 0 <= i < |l| && l[i] == item;
    }
  }

  /** On the fifth of ten pages the strip reads `1 ... 3 4 [5] 6 7 ... 10`. */
  lemma FifthOfTen()
    ensures Layout(5, 10) == [Shortcut(1), Ellipsis, Num(3, false), Num(4, false), Num(5, true),
                              Num(6, false), Num(7, false), Ellipsis, Shortcut(10)]
  {
  }
}
