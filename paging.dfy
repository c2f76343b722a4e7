/** The page window of the index page: the slice effect and the page count. */
module Paging {

  /** The fixed number of products on one page. */
  const ProductsPerPage: nat := 8

  function Min(a: int, b: int): int { if a <= b then a else b }
  function Max(a: int, b: int): int { if a >= b then a else b }

  /**
   * `Array.prototype.slice(start, end)`: a negative bound counts back from the end, every bound
   * is clamped to `[0, |s|]`, and a start at or past the end gives the empty array.
   */
  function JsSlice<T>(s: seq<T>, start: int, end: int): (r: seq<T>)
    ensures |r| <= |s|
    ensures 0 <= start <= end ==> r == s[Min(start, |s|)..Min(end, |s|)]
    ensures 0 <= end <= start ==> r == []
  {
    var from := if start < 0 then Max(|s| + start, 0) else Min(start, |s|);
    var to := if end < 0 then Max(|s| + end, 0) else Min(end, |s|);
    if from < to then s[from..to] else []
  }

  /** The pagination effect: `filteredProducts.slice((page - 1) * 8, page * 8)`. */
  function PageSlice<T>(s: seq<T>, page: int): seq<T> {
    var indexOfLastProduct := page * ProductsPerPage;
    var indexOfFirstProduct := indexOfLastProduct - ProductsPerPage;
    JsSlice(s, indexOfFirstProduct, indexOfLastProduct)
  }

  /** `Math.ceil(n / 8)`. */
  function TotalPages(n: nat): (r: nat)
    ensures r * ProductsPerPage >= n
    ensures r * ProductsPerPage < n + ProductsPerPage
  {
    (n + ProductsPerPage - 1) / ProductsPerPage
  }

  /** A page from 1 on is the window `[(page - 1) * 8, min(page * 8, n))`, empty once it starts past the end. */
  lemma PageSliceWindow<T>(s: seq<T>, page: int)
    requires page >= 1
    ensures |PageSlice(s, page)| <= ProductsPerPage
    ensures (page - 1) * ProductsPerPage < |s| ==>
      PageSlice(s, page) == s[(page - 1) * ProductsPerPage..Min(page * ProductsPerPage, |s|)]
    ensures (page - 1) * ProductsPerPage >= |s| ==> PageSlice(s, page) == []
  {
  }

  /** A page from 1 on is non-empty exactly when it is one of the `TotalPages` pages. */
  lemma PageNonEmptyIffInRange<T>(s: seq<T>, page: int)
    requires page >= 1
    ensures PageSlice(s, page) != [] <==> page <= TotalPages(|s|)
  {
    PageSliceWindow(s, page);
    var n := TotalPages(|s|);
    if page <= n {
      assert (page - 1) * ProductsPerPage <= (n - 1) * ProductsPerPage < |s|;
    } else {
      assert (page - 1) * ProductsPerPage >= n * ProductsPerPage >= |s|;
    }
  }

  /** Element `i` is on page `i / 8 + 1`, at offset `i % 8`. */
  lemma PageOfIndex<T>(s: seq<T>, i: int)
    requires 0 <= i < |s|
    ensures i % ProductsPerPage < |PageSlice(s, i / ProductsPerPage + 1)|
    ensures PageSlice(s, i / ProductsPerPage + 1)[i % ProductsPerPage] == s[i]
  {
    var page := i / ProductsPerPage + 1;
    assert (page - 1) * ProductsPerPage + i % ProductsPerPage == i;
    PageSliceWindow(s, page);
  }

  /** Pages 1 to `k`, one after the other. */
  function Pages<T>(s: seq<T>, k: nat): seq<T> {
    if k == 0 then [] else Pages(s, k - 1) + PageSlice(s, k)
  }

  lemma {:induction false} PagesPrefix<T>(s: seq<T>, k: nat)
    ensures Pages(s, k) == s[..Min(k * ProductsPerPage, |s|)]
  {
    if k > 0 {
      PagesPrefix(s, k - 1);
      PageSliceWindow(s, k);
      var lo := Min((k - 1) * ProductsPerPage, |s|);
      if (k - 1) * ProductsPerPage < |s| {
        assert s[..lo] + s[lo..Min(k * ProductsPerPage, |s|)] == s[..Min(k * ProductsPerPage, |s|)];
      }
    }
  }

  /** Reading the pages 1 to `TotalPages` in order gives back the whole list, each product once. */
  lemma PagesReassemble<T>(s: seq<T>)
    ensures Pages(s, TotalPages(|s|)) == s
  {
    PagesPrefix(s, TotalPages(|s|));
  }

  /** Seventeen products make three pages, the last holding one product. */
  lemma SeventeenProducts<T>(s: seq<T>)
    requires |s| == 17
    ensures TotalPages(|s|) == 3
    ensures PageSlice(s, 3) == [s[16]]
  {
    PageSliceWindow(s, 3);
  }
}
