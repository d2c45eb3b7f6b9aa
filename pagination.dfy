/**
 * The page selector (`components/Pagination.tsx`): which page buttons and
 * gaps it lists around the current page, and when Previous and Next are
 * enabled and where they lead.
 */
module Pagination {
  import opened Wrappers

  /** One entry of the selector: a page button, or a `'...'` gap. */
  datatype PageItem = Page(n: int) | Ellipsis

  /** How many pages are shown on each side of the current one. */
  const Delta := 2

  function Max(a: int, b: int): int { if a < b then b else a }
  function Min(a: int, b: int): int { if a < b then a else b }

  /** The consecutive pages `lo..hi`, empty when `lo > hi`. */
  function Window(lo: int, hi: int): (w: seq<int>)
    ensures |w| == if lo <= hi then hi - lo + 1 else 0
    ensures forall k :: 0 <= k < |w| ==> w[k] == lo + k
  {
    if lo <= hi then seq(hi - lo + 1, k => lo + k) else []
  }

  function Pages(ns: seq<int>): (r: seq<PageItem>)
    ensures |r| == |ns| && forall k :: 0 <= k < |ns| ==> r[k] == Page(ns[k])
  {
    seq(|ns|, k requires 0 <= k < |ns| => Page(ns[k]))
  }

  /** The first entries: page 1, then a gap when the window starts after page 3. */
  function Head(current: int): seq<PageItem>
  {
    if current - Delta > 2 then [Page(1), Ellipsis] else [Page(1)]
  }

  /** The last entries: a gap when the window ends before the next-to-last page, then the last page. */
  function Tail(current: int, total: int): seq<PageItem>
  {
    if current + Delta < total - 1 then [Ellipsis, Page(total)]
    else if total > 1 then [Page(total)]
    else []
  }

  /** The pages around the current one, without the first and the last page. */
  function Middle(current: int, total: int): seq<int>
  {
    Window(Max(2, current - Delta), Min(total - 1, current + Delta))
  }

  /** What `getVisiblePages` returns. */
  function VisiblePages(current: int, total: int): seq<PageItem>
  {
    Head(current) + Pages(Middle(current, total)) + Tail(current, total)
  }

  /** `getVisiblePages()`: collects the window with a loop, then adds the ends and the gaps. */
  method GetVisiblePages(currentPage: int, totalPages: int) returns (pages: seq<PageItem>)
    ensures pages == VisiblePages(currentPage, totalPages)
  {
    var range: seq<int> := [];
    var lo := Max(2, currentPage - Delta);
    var hi := Min(totalPages - 1, currentPage + Delta);
    var i := lo;
    while i <= hi
      invariant lo <= i && (lo <= hi ==> i <= hi + 1) && (lo > hi ==> i == lo)
      invariant range == Window(lo, i - 1)
      decreases hi - i
    {
      range := range + [i];
      i := i + 1;
    }
    assert range == Window(lo, hi);
    var withDots: seq<PageItem>;
    if currentPage - Delta > 2 {
      withDots := [Page(1), Ellipsis];
    } else {
      withDots := [Page(1)];
    }
    withDots := withDots + Pages(range);
    if currentPage + Delta < totalPages - 1 {
      withDots := withDots + [Ellipsis, Page(totalPages)];
    } else if totalPages > 1 {
      withDots := withDots + [Page(totalPages)];
    }
    pages := withDots;
  }

  /** The selector as rendered: nothing at all for a single page or none. */
  function Render(current: int, total: int): (r: Option<seq<PageItem>>)
    ensures r.None? <==> total <= 1
  {
    if total <= 1 then None else Some(VisiblePages(current, total))
  }

  /** The page numbers listed strictly increase, so no page is listed twice. */
  predicate Increasing(r: seq<PageItem>)
  {
    forall i, j :: 0 <= i < j < |r| && r[i].Page? && r[j].Page? ==> r[i].n < r[j].n
  }

  /** Every entry's place in the list, by part. */
  lemma Layout(current: int, total: int)
    ensures var h, m, r := Head(current), Middle(current, total), VisiblePages(current, total);
      && |r| == |h| + |m| + |Tail(current, total)|
      && (forall i :: 0 <= i < |h| ==> r[i] == h[i])
      && (forall i :: |h| <= i < |h| + |m| ==> r[i] == Page(m[i - |h|]))
      && (forall i :: |h| + |m| <= i < |r| ==> r[i] == Tail(current, total)[i - |h| - |m|])
  {
  }

  /** For two pages or more the list starts at page 1 and ends at the last page. */
  lemma VisibleEnds(current: int, total: int)
    requires total >= 2
    ensures var r := VisiblePages(current, total); |r| >= 2 && r[0] == Page(1) && r[|r| - 1] == Page(total)
  {
    Layout(current, total);
  }

  /** For two pages or more the listed page numbers strictly increase, whatever the current page. */
  lemma {:induction false} VisibleIncreasing(current: int, total: int)
    requires total >= 2
    ensures Increasing(VisiblePages(current, total))
  {
    Layout(current, total);
    var r := VisiblePages(current, total);
    var h, m, t := Head(current), Middle(current, total), Tail(current, total);
    var lo, hi := Max(2, current - Delta), Min(total - 1, current + Delta);
    forall i, j | 0 <= i < j < |r| && r[i].Page? && r[j].Page?
      ensures r[i].n < r[j].n
    {
      // Page numbers grow from part to part: 1, then lo..hi with 2 <= lo, then total > hi.
      if i < |h| {
        assert r[i] == Page(1);
        if j < |h| + |m| {
          assert r[j].n == lo + (j - |h|);
        } else {
          assert r[j] == Page(total);
        }
      } else if i < |h| + |m| {
        assert r[i].n == lo + (i - |h|) && r[i].n <= hi;
        if j < |h| + |m| {
          assert r[j].n == lo + (j - |h|);
        } else {
          assert r[j] == Page(total);
        }
      } else {
        assert false;
      }
    }
  }

  /** Every page within two of the current one, and inside the range, is listed. */
  lemma VisibleCoversWindow(current: int, total: int, p: int)
    requires 1 <= p <= total && -Delta <= p - current <= Delta
    ensures Page(p) in VisiblePages(current, total)
  {
    Layout(current, total);
    var r := VisiblePages(current, total);
    var h, m := Head(current), Middle(current, total);
    if p == 1 {
      assert r[0] == Page(1);
    } else if p == total {
      assert r[|r| - 1] == Page(total);
    } else {
      var lo := Max(2, current - Delta);
      assert r[|h| + (p - lo)] == Page(p);
    }
  }

  /** At most nine entries, at most two gaps, and never two gaps side by side, whatever the current page. */
  lemma VisibleBounded(current: int, total: int)
    ensures |VisiblePages(current, total)| <= 9
    ensures forall i :: 0 <= i < |VisiblePages(current, total)| && VisiblePages(current, total)[i] == Ellipsis ==>
      i == 1 || i == |VisiblePages(current, total)| - 2
    ensures forall i :: 0 <= i < |VisiblePages(current, total)| - 1 ==>
      !(VisiblePages(current, total)[i] == Ellipsis && VisiblePages(current, total)[i + 1] == Ellipsis)
  {
    Layout(current, total);
    if current - Delta > 2 && current + Delta < total - 1 {
      assert |Middle(current, total)| == 5;
    }
  }

  /**
   * For a current page inside the range: a gap follows page 1 exactly when
   * the window starts after page 3, and precedes the last page exactly when
   * it ends before the next-to-last page.
   */
  lemma GapPlacement(current: int, total: int)
    requires 1 <= current <= total && total >= 2
    ensures var r := VisiblePages(current, total);
      && |r| >= 2
      && (r[1] == Ellipsis <==> current - Delta > 2)
      && (r[|r| - 2] == Ellipsis <==> current + Delta < total - 1)
  {
    Layout(current, total);
    var h, m := Head(current), Middle(current, total);
    if current - Delta <= 2 && current + Delta < total - 1 {
      assert |m| >= 1;
    }
    if current - Delta > 2 && current + Delta >= total - 1 {
      assert |m| >= 1;
    }
  }

  /**
   * For a current page inside the range, each gap stands between two pages
   * it really hides (at least one page apart), and two neighbouring page
   * entries are consecutive pages.
   */
  lemma {:induction false} GapsHidePages(current: int, total: int)
    requires 1 <= current <= total && total >= 2
    ensures var r := VisiblePages(current, total);
      forall i :: 0 <= i < |r| - 1 ==>
        && (r[i].Page? && r[i + 1].Page? ==> r[i + 1].n == r[i].n + 1)
        && (r[i] == Ellipsis ==> 0 < i && r[i - 1].Page? && r[i + 1].Page? && r[i + 1].n > r[i - 1].n + 1)
  {
    Layout(current, total);
    var r := VisiblePages(current, total);
    var h, m, t := Head(current), Middle(current, total), Tail(current, total);
    var lo, hi := Max(2, current - Delta), Min(total - 1, current + Delta);
    assert |m| >= 1 || total == 2;
    forall i | 0 <= i < |r| - 1
      ensures r[i].Page? && r[i + 1].Page? ==> r[i + 1].n == r[i].n + 1
      ensures r[i] == Ellipsis ==> 0 < i && r[i - 1].Page? && r[i + 1].Page? && r[i + 1].n > r[i - 1].n + 1
    {
      if i < |h| {
        if i + 1 < |h| {
          assert r[i] == Page(1) && r[i + 1] == Ellipsis;
        } else if i + 1 < |h| + |m| {
          assert r[i + 1] == Page(lo);
          if |h| == 2 {
            assert r[i - 1] == Page(1) && r[i] == Ellipsis;
          }
        } else {
          assert |m| == 0 && total == 2 && r[i + 1] == Page(2);
        }
      } else if i < |h| + |m| {
        assert r[i] == Page(lo + (i - |h|));
        if i + 1 < |h| + |m| {
          assert r[i + 1] == Page(lo + (i + 1 - |h|));
        } else if |t| == 2 {
          assert r[i + 1] == Ellipsis;
        } else {
          assert r[i + 1] == Page(total) && hi == total - 1;
        }
      } else {
        assert |t| == 2 && r[i] == Ellipsis && r[i + 1] == Page(total);
        assert r[i - 1] == Page(hi) && hi == current + Delta;
      }
    }
  }

  /** A current page outside the range can yield a gap that hides nothing: with two pages and page 5 current. */
  lemma OutOfRangeGap()
    ensures VisiblePages(5, 2) == [Page(1), Ellipsis, Page(2)]
  {
    assert Middle(5, 2) == [];
  }

  /** The Previous and Next buttons, and the button of each listed page. */
  datatype Control = Control(disabled: bool, target: int)

  /** Previous: disabled on page 1 or while loading; it asks for the page before. */
  function Previous(current: int, loading: bool): (c: Control)
    ensures c.disabled <==> current == 1 || loading
    ensures c.target == current - 1
  {
    Control(current == 1 || loading, current - 1)
  }

  /** Next: disabled on the last page or while loading; it asks for the page after. */
  function Next(current: int, total: int, loading: bool): (c: Control)
    ensures c.disabled <==> current == total || loading
    ensures c.target == current + 1
  {
    Control(current == total || loading, current + 1)
  }

  /** A listed page's button: disabled only while loading; it asks for that page. */
  function PageButton(p: int, loading: bool): (c: Control)
    ensures c.disabled <==> loading
    ensures c.target == p
  {
    Control(loading, p)
  }

  /** From a page inside the range, an enabled Previous or Next leads to a page inside the range. */
  lemma EnabledTargetsInRange(current: int, total: int, loading: bool)
    requires 1 <= current <= total
    ensures !Previous(current, loading).disabled ==> 1 <= Previous(current, loading).target <= total
    ensures !Next(current, total, loading).disabled ==> 1 <= Next(current, total, loading).target <= total
  {
  }
}
