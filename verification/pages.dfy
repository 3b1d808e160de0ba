/** Page windows over a filtered list, in the machine's 64-bit integers. */
module Pages {

  const MAX := 0x7FFF_FFFF_FFFF_FFFF

  /** Two's complement wrap-around. */
  function Wrap(x: int): int {
    (x + MAX + 1) % (2 * MAX + 2) - MAX - 1
  }

  predicate Machine(x: int) {
    -MAX - 1 <= x <= MAX
  }

  lemma WrapFixed(x: int)
    ensures Machine(x) ==> Wrap(x) == x
    ensures Machine(Wrap(x))
    ensures MAX < x <= 2 * MAX ==> Wrap(x) < 0
  {
  }

  function Min(a: int, b: int): int {
    if a < b then a else b
  }

  /** The half-open window of a page, computed as the code computes it. */
  function PageWindow(total: int, page: int, pageSize: int): (int, int) {
    var start := Wrap(Wrap(page - 1) * pageSize);
    if start >= total then (total, total)
    else
      var end := Wrap(start + pageSize);
      (start, if end > total then total else end)
  }

  /** The window in unbounded arithmetic. */
  function IdealWindow(total: int, page: int, pageSize: int): (int, int) {
    (Min((page - 1) * pageSize, total), Min(page * pageSize, total))
  }

  /** A window that can be sliced out of a list of this length. */
  predicate Sliceable(window: (int, int), total: int) {
    0 <= window.0 <= window.1 <= total
  }

  /**
   * The machine's window is the intended one exactly when neither the product nor the sum overflows, or the
   * wrapped start happens to lie beyond the list; it can be sliced exactly when the wrapped start is not negative.
   */
  lemma WindowExact(total: int, page: int, pageSize: int)
    requires 0 <= total <= MAX && 1 <= page <= MAX && 1 <= pageSize <= MAX
    ensures var p := (page - 1) * pageSize;
            PageWindow(total, page, pageSize) == IdealWindow(total, page, pageSize) <==>
              Wrap(p) >= total || (p <= MAX && p + pageSize <= MAX)
    ensures var start := Wrap((page - 1) * pageSize);
            Sliceable(PageWindow(total, page, pageSize), total) <==>
              start >= total || (start >= 0 && start + pageSize <= MAX)
  {
    var p := (page - 1) * pageSize;
    WrapFixed(page - 1);
    WrapFixed(p);
    WrapFixed(Wrap(p) + pageSize);
    assert p >= 0 by { ProductNonnegative(page - 1, pageSize); }
    assert page * pageSize == p + pageSize;
  }

  lemma ProductNonnegative(a: int, b: int)
    requires a >= 0 && b >= 0
    ensures a * b >= 0
  {
  }

  /** A page number the query parser can return, for which the window starts below zero. */
  lemma HugePageOverflows()
    ensures PageWindow(1, MAX, 20).0 < 0
  {
  }

  // ---------------------------------------------------------------- pages cover the list

  /** Inside the machine's range the window is the intended one and can be sliced out. */
  lemma PageFits(total: int, page: int, pageSize: int)
    requires 0 <= total <= MAX && page >= 1 && pageSize >= 1 && page * pageSize <= MAX
    ensures page <= MAX && pageSize <= MAX && Machine((page - 1) * pageSize)
    ensures PageWindow(total, page, pageSize) == IdealWindow(total, page, pageSize)
    ensures Sliceable(PageWindow(total, page, pageSize), total)
  {
    ProductNonnegative(page - 1, pageSize);
    ProductNonnegative(page - 1, pageSize - 1);
    assert page * pageSize == (page - 1) * pageSize + pageSize;
    assert (page - 1) * (pageSize - 1) == page * pageSize - page - pageSize + 1;
    WindowExact(total, page, pageSize);
    WrapFixed((page - 1) * pageSize);
  }

  /** The page the machine slices out of the list. */
  function Page<T>(list: seq<T>, page: int, pageSize: int): seq<T>
    requires Sliceable(PageWindow(|list|, page, pageSize), |list|)
  {
    var w := PageWindow(|list|, page, pageSize);
    list[w.0..w.1]
  }

  /** Pages 1 to n, one after the other. */
  function FirstPages<T>(list: seq<T>, n: nat, pageSize: int): seq<T>
    requires |list| <= MAX && pageSize >= 1 && n * pageSize <= MAX
  {
    if n == 0 then []
    else
      assert (n - 1) * pageSize + pageSize == n * pageSize;
      PageFits(|list|, n, pageSize);
      FirstPages(list, n - 1, pageSize) + Page(list, n, pageSize)
  }

  lemma {:induction false} FirstPagesArePrefix<T>(list: seq<T>, n: nat, pageSize: int)
    requires |list| <= MAX && pageSize >= 1 && n * pageSize <= MAX
    ensures n * pageSize >= 0
    ensures FirstPages(list, n, pageSize) == list[..Min(n * pageSize, |list|)]
  {
    if n > 0 {
      assert n * pageSize == (n - 1) * pageSize + pageSize;
      FirstPagesArePrefix(list, n - 1, pageSize);
      PageFits(|list|, n, pageSize);
      var a, b := Min((n - 1) * pageSize, |list|), Min(n * pageSize, |list|);
      assert list[..a] + list[a..b] == list[..b];
    }
  }

  /**
   * In the machine's integers, the first ceil(total / pageSize) pages give the list exactly once, in order, and
   * every later page whose start does not overflow is empty.
   */
  lemma PagesCover<T>(list: seq<T>, n: nat, pageSize: int, later: int)
    requires |list| <= MAX && pageSize >= 1 && |list| <= n * pageSize <= MAX
    requires later > n && (later - 1) * pageSize <= MAX
    ensures FirstPages(list, n, pageSize) == list
    ensures PageWindow(|list|, later, pageSize) == (|list|, |list|) && Page(list, later, pageSize) == []
  {
    FirstPagesArePrefix(list, n, pageSize);
    LaterStart(n, pageSize, later);
    WrapFixed(later - 1);
    WrapFixed((later - 1) * pageSize);
  }

  lemma LaterStart(n: nat, pageSize: int, later: int)
    requires pageSize >= 1 && later > n && (later - 1) * pageSize <= MAX
    ensures (later - 1) * pageSize >= n * pageSize && Machine(later - 1) && Machine((later - 1) * pageSize)
  {
    ProductNonnegative(later - 1 - n, pageSize);
    ProductNonnegative(n, pageSize);
    ProductNonnegative(later - 1, pageSize - 1);
    assert (later - 1) * pageSize == n * pageSize + (later - 1 - n) * pageSize;
    assert (later - 1) * (pageSize - 1) == (later - 1) * pageSize - (later - 1);
  }

  /** Rounding the division up is enough pages. */
  lemma EnoughPages(total: nat, pageSize: int)
    requires pageSize >= 1
    ensures (total + pageSize - 1) / pageSize * pageSize >= total
  {
    var q, r := (total + pageSize - 1) / pageSize, (total + pageSize - 1) % pageSize;
    assert total + pageSize - 1 == q * pageSize + r;
  }
}
