/** The sliding window of page numbers shown by the paginator widget
    (`make_pagination_range`, result key `'pagination'`).

    Given the pages `1..N`, a window size `qty` and the current page, the
    window is `qty` consecutive page numbers. The current page sits at
    position `qty / 2` of the window (counting from 1); when that would run
    off the first page the window is anchored to page 1, when it would run
    off the last page it is anchored to page N, and a current page past N is
    clamped to the last window. */
module Pagination {

  /** Python's `list(range(lo, hi))`. */
  function Range(lo: int, hi: int): (r: seq<int>)
    ensures |r| == if lo < hi then hi - lo else 0
    ensures forall i :: 0 <= i < |r| ==> r[i] == lo + i
  {
    seq(if lo < hi then hi - lo else 0, i => lo + i)
  }

  /** `pages` is the page list `1..N` that the paginator passes in. */
  predicate IsPageList(pages: seq<int>) {
    forall i :: 0 <= i < |pages| ==> pages[i] == i + 1
  }

  /** The calls whose outcome the window is defined for: an even window
      size between 2 and the number of pages, and a current page of at
      least 1 (a current page past the last page is allowed). */
  predicate WellFormed(pageCount: int, qty: int, current: int) {
    qty % 2 == 0 && 2 <= qty <= pageCount && 1 <= current
  }

  /** A contiguous ascending run of page numbers inside `1..pageCount`. */
  predicate IsWindowOf(w: seq<int>, pageCount: int) {
    (forall i :: 0 <= i < |w| ==> 1 <= w[i] <= pageCount)
    && (forall i :: 0 < i < |w| ==> w[i] == w[i - 1] + 1)
  }

  /** First page of the window: centre on the current page, then anchor to
      page 1, then anchor to the last page. */
  function WindowStart(pageCount: int, qty: int, current: int): (lo: int)
    requires WellFormed(pageCount, qty, current)
    ensures 1 <= lo && lo + qty - 1 <= pageCount
  {
    var centred := current - qty / 2 + 1;
    var lo := if centred < 1 then 1 else centred;
    if lo + qty - 1 > pageCount then pageCount - qty + 1 else lo
  }

  /** The `'pagination'` entry of `make_pagination_range(pageRange, qty, current)`. */
  function MakePaginationRange(pageRange: seq<int>, qty: int, current: int): (pagination: seq<int>)
    requires IsPageList(pageRange) && WellFormed(|pageRange|, qty, current)
    ensures |pagination| == qty
    ensures IsWindowOf(pagination, |pageRange|)
    ensures current <= |pageRange| ==> current in pagination
  {
    var lo := WindowStart(|pageRange|, qty, current);
    var pagination := pageRange[lo - 1..lo - 1 + qty];
    assert current <= |pageRange| ==> pagination[current - lo] == current;
    pagination
  }

  /** The window is the run of `qty` pages starting at `WindowStart`. */
  lemma WindowIsRange(pageRange: seq<int>, qty: int, current: int)
    requires IsPageList(pageRange) && WellFormed(|pageRange|, qty, current)
    ensures var lo := WindowStart(|pageRange|, qty, current);
            MakePaginationRange(pageRange, qty, current) == Range(lo, lo + qty)
  {
  }

  /** Start anchoring: the window is `[1..qty]` exactly when the current
      page is at or before the middle of the first window (or the window
      covers every page). */
  lemma AnchoredAtFirstPage(pageRange: seq<int>, qty: int, current: int)
    requires IsPageList(pageRange) && WellFormed(|pageRange|, qty, current)
    ensures MakePaginationRange(pageRange, qty, current) == Range(1, qty + 1)
            <==> current <= qty / 2 || qty == |pageRange|
  {
    WindowIsRange(pageRange, qty, current);
    var lo := WindowStart(|pageRange|, qty, current);
    if MakePaginationRange(pageRange, qty, current) == Range(1, qty + 1) {
      assert Range(lo, lo + qty)[0] == lo;
    }
  }

  /** End anchoring: the window is `[N-qty+1..N]` exactly when the current
      page is within `qty / 2` pages of the last page or past it (or the
      window covers every page). */
  lemma AnchoredAtLastPage(pageRange: seq<int>, qty: int, current: int)
    requires IsPageList(pageRange) && WellFormed(|pageRange|, qty, current)
    ensures var n := |pageRange|;
            MakePaginationRange(pageRange, qty, current) == Range(n - qty + 1, n + 1)
            <==> current >= n - qty / 2 || qty == n
  {
    var n := |pageRange|;
    WindowIsRange(pageRange, qty, current);
    var lo := WindowStart(n, qty, current);
    if MakePaginationRange(pageRange, qty, current) == Range(n - qty + 1, n + 1) {
      assert Range(lo, lo + qty)[0] == lo;
    }
  }

  /** Centring: the current page is the `qty / 2`-th entry of the window
      exactly when `qty/2 <= current <= N - qty/2`, and then the window is
      `[current - qty/2 + 1 .. current + qty/2]`. At both ends of that range
      the centred window is also the anchored one. */
  lemma CentredOnCurrentPage(pageRange: seq<int>, qty: int, current: int)
    requires IsPageList(pageRange) && WellFormed(|pageRange|, qty, current)
    ensures var pagination := MakePaginationRange(pageRange, qty, current);
            pagination[qty / 2 - 1] == current <==> qty / 2 <= current <= |pageRange| - qty / 2
    ensures qty / 2 <= current <= |pageRange| - qty / 2 ==>
            MakePaginationRange(pageRange, qty, current) == Range(current - qty / 2 + 1, current + qty / 2 + 1)
  {
    WindowIsRange(pageRange, qty, current);
  }

  /** A current page past the last page gives the last page's window. */
  lemma OutOfRangeClamps(pageRange: seq<int>, qty: int, current: int)
    requires IsPageList(pageRange) && WellFormed(|pageRange|, qty, current)
    requires current > |pageRange|
    ensures MakePaginationRange(pageRange, qty, current)
            == MakePaginationRange(pageRange, qty, |pageRange|)
            == Range(|pageRange| - qty + 1, |pageRange| + 1)
  {
    AnchoredAtLastPage(pageRange, qty, current);
    AnchoredAtLastPage(pageRange, qty, |pageRange|);
  }

  /** Moving to a later page never moves the window back. */
  lemma WindowMonotone(pageRange: seq<int>, qty: int, c1: int, c2: int)
    requires IsPageList(pageRange) && WellFormed(|pageRange|, qty, c1)
    requires c1 <= c2
    ensures var w1 := MakePaginationRange(pageRange, qty, c1);
            var w2 := MakePaginationRange(pageRange, qty, c2);
            w1[0] <= w2[0]
  {
  }

  /** Between the anchors the window follows the current page one for one. */
  lemma WindowSlidesByOne(pageRange: seq<int>, qty: int, current: int)
    requires IsPageList(pageRange) && WellFormed(|pageRange|, qty, current)
    requires qty / 2 <= current && current + 1 <= |pageRange| - qty / 2
    ensures var w := MakePaginationRange(pageRange, qty, current);
            var w' := MakePaginationRange(pageRange, qty, current + 1);
            forall i :: 0 <= i < qty ==> w'[i] == w[i] + 1
  {
  }

  // The asserted cases, for the pages 1..20 and a window of 4.

  /** The window of 4 over the pages 1..20, written out from its first page. */
  lemma WindowOfFourOverTwenty(current: int)
    requires 1 <= current
    ensures var lo := WindowStart(20, 4, current);
            MakePaginationRange(Range(1, 21), 4, current) == [lo, lo + 1, lo + 2, lo + 3]
  {
    var pages := Range(1, 21);
    WindowIsRange(pages, 4, current);
  }

  lemma FirstPageWindow()
    ensures MakePaginationRange(Range(1, 21), 4, 1) == [1, 2, 3, 4]
  {
    WindowOfFourOverTwenty(1);
    assert WindowStart(20, 4, 1) == 1;
  }

  lemma FirstWindowIsStatic()
    ensures MakePaginationRange(Range(1, 21), 4, 1) == [1, 2, 3, 4]
    ensures MakePaginationRange(Range(1, 21), 4, 2) == [1, 2, 3, 4]
    ensures MakePaginationRange(Range(1, 21), 4, 3) == [2, 3, 4, 5]
    ensures MakePaginationRange(Range(1, 21), 4, 4) == [3, 4, 5, 6]
  {
    WindowOfFourOverTwenty(1);
    assert WindowStart(20, 4, 1) == 1;
    WindowOfFourOverTwenty(2);
    assert WindowStart(20, 4, 2) == 1;
    WindowOfFourOverTwenty(3);
    assert WindowStart(20, 4, 3) == 2;
    WindowOfFourOverTwenty(4);
    assert WindowStart(20, 4, 4) == 3;
  }

  lemma MiddleWindows()
    ensures MakePaginationRange(Range(1, 21), 4, 10) == [9, 10, 11, 12]
    ensures MakePaginationRange(Range(1, 21), 4, 12) == [11, 12, 13, 14]
  {
    WindowOfFourOverTwenty(10);
    assert WindowStart(20, 4, 10) == 9;
    WindowOfFourOverTwenty(12);
    assert WindowStart(20, 4, 12) == 11;
  }

  lemma LastWindowIsStatic()
    ensures MakePaginationRange(Range(1, 21), 4, 19) == [17, 18, 19, 20]
    ensures MakePaginationRange(Range(1, 21), 4, 20) == [17, 18, 19, 20]
    ensures MakePaginationRange(Range(1, 21), 4, 21) == [17, 18, 19, 20]
  {
    WindowOfFourOverTwenty(19);
    assert WindowStart(20, 4, 19) == 17;
    WindowOfFourOverTwenty(20);
    assert WindowStart(20, 4, 20) == 17;
    WindowOfFourOverTwenty(21);
    assert WindowStart(20, 4, 21) == 17;
  }
}
