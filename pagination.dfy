/**
 * The page links of the paginated palette list: how many pages there are,
 * which page numbers are shown (all of them up to five pages, otherwise the
 * first, the last and a window around the current page, with ellipses for
 * the gaps), which one is active and where "previous" and "next" lead.
 * Building the link URLs and the rows-per-page selector are not modelled.
 */
module Pagination {

  /**
   * One rendered item: a link showing page `number`, whose click reports
   * page `target` and which is highlighted when `active`, or an ellipsis.
   */
  datatype Item = Link(number: int, target: int, active: bool) | Ellipsis

  /** At most this many pages are all shown. */
  const MaxVisiblePages: int := 5

  /** `Math.ceil(totalCount / pageSize)` for a whole count and a positive page size. */
  function TotalPageCount(totalCount: nat, pageSize: int): (r: nat)
    requires pageSize >= 1
    ensures (r - 1) * pageSize < totalCount <= r * pageSize || (r == 0 && totalCount == 0)
  {
    (totalCount + pageSize - 1) / pageSize
  }

  function Max(a: int, b: int): int { if a >= b then a else b }
  function Min(a: int, b: int): int { if a <= b then a else b }

  /** Links to pages lo..hi, each reporting its own number. */
  function Window(page: int, lo: int, hi: int): (r: seq<Item>)
    ensures |r| == if hi >= lo then hi - lo + 1 else 0
    decreases hi - lo
  {
    if hi < lo then [] else Window(page, lo, hi - 1) + [Link(hi, hi, page == hi)]
  }

  /**
   * The items of `renderPageNumbers` with every link reporting its own
   * page: pages 1..total when there are at most five; otherwise page 1, an
   * ellipsis when the window starts after page 2, the pages next to `page`
   * strictly between 1 and total, an ellipsis when the window ends before
   * total - 1, and the last page.
   */
  function PageItems(page: int, total: int): seq<Item> {
    if total <= MaxVisiblePages then Window(page, 1, total)
    else
      [Link(1, 1, page == 1)]
      + (if page > 3 then [Ellipsis] else [])
      + Window(page, Max(2, page - 1), Min(total - 1, page + 1))
      + (if page < total - 2 then [Ellipsis] else [])
      + [Link(total, total, page == total)]
  }

  /**
   * `renderPageNumbers` as written: in the branch for at most five pages
   * every link's click reports the current `page` rather than its own number.
   */
  function PageItemsAsWritten(page: int, total: int): (r: seq<Item>)
    ensures total > MaxVisiblePages ==> r == PageItems(page, total)
  {
    if total <= MaxVisiblePages then seq(if total >= 1 then total else 0, j => Link(j + 1, page, page == j + 1))
    else PageItems(page, total)
  }

  /** The loop of `renderPageNumbers`, with the evidently intended click target. */
  method RenderPageNumbers(page: int, totalPageCount: int) returns (items: seq<Item>)
    ensures items == PageItems(page, totalPageCount)
  {
    items := [];
    if totalPageCount <= MaxVisiblePages {
      var i := 1;
      while i <= totalPageCount
        invariant 1 <= i <= Max(totalPageCount + 1, 1)
        decreases totalPageCount - i
        invariant items == Window(page, 1, i - 1)
      {
        items := items + [Link(i, i, page == i)];
        i := i + 1;
      }
      assert i == totalPageCount + 1 || (totalPageCount < 1 && i == 1);
      assert items == Window(page, 1, totalPageCount);
    } else {
      items := items + [Link(1, 1, page == 1)];
      ghost var pre: seq<Item> := if page > 3 then [Ellipsis] else [];
      if page > 3 {
        items := items + [Ellipsis];
      }
      assert items == [Link(1, 1, page == 1)] + pre;
      var start := Max(2, page - 1);
      var end := Min(totalPageCount - 1, page + 1);
      ghost var head := items;
      var i := start;
      while i <= end
        invariant start <= i <= Max(end + 1, start)
        decreases end - i
        invariant items == head + Window(page, start, i - 1)
      {
        items := items + [Link(i, i, page == i)];
        i := i + 1;
      }
      assert i - 1 == end || (end < start && i == start);
      assert items == [Link(1, 1, page == 1)] + pre + Window(page, start, end);
      ghost var post: seq<Item> := if page < totalPageCount - 2 then [Ellipsis] else [];
      if page < totalPageCount - 2 {
        items := items + [Ellipsis];
      }
      assert items == [Link(1, 1, page == 1)] + pre + Window(page, start, end) + post;
      items := items + [Link(totalPageCount, totalPageCount, page == totalPageCount)];
    }
  }

  /** The "previous" link's page. */
  function PrevTarget(page: int): (r: int)
    ensures r >= 1 && (page >= 1 ==> r <= page)
    ensures r == page <==> page == 1
  {
    Max(page - 1, 1)
  }

  /** The "next" link's page. */
  function NextTarget(page: int, total: int): (r: int)
    ensures r <= total && (page <= total ==> r >= page)
    ensures r == page <==> page == total
  {
    Min(page + 1, total)
  }

  // ---------------------------------------------------------------------------
  // What the items show
  // ---------------------------------------------------------------------------

  /** The page numbers of the links among `items`, in order. */
  function Numbers(items: seq<Item>): seq<int> {
    if items == [] then []
    else
      var last := items[|items| - 1];
      Numbers(items[..|items| - 1]) + (if last.Link? then [last.number] else [])
  }

  /** How many ellipses `items` holds. */
  function Ellipses(items: seq<Item>): nat {
    if items == [] then 0
    else Ellipses(items[..|items| - 1]) + (if items[|items| - 1].Ellipsis? then 1 else 0)
  }

  /** The pages lo..hi. */
  function Range(lo: int, hi: int): (r: seq<int>)
    ensures |r| == if hi >= lo then hi - lo + 1 else 0
    decreases hi - lo
  {
    if hi < lo then [] else Range(lo, hi - 1) + [hi]
  }

  lemma {:induction false} RangeAt(lo: int, hi: int)
    ensures forall j :: 0 <= j < |Range(lo, hi)| ==> Range(lo, hi)[j] == lo + j
    decreases hi - lo
  {
    if hi >= lo { RangeAt(lo, hi - 1); }
  }

  lemma {:induction false} NumbersAppend(a: seq<Item>, b: seq<Item>)
    ensures Numbers(a + b) == Numbers(a) + Numbers(b)
    ensures Ellipses(a + b) == Ellipses(a) + Ellipses(b)
    decreases |b|
  {
    if b == [] {
      assert a + b == a;
    } else {
      var b' := b[..|b| - 1];
      assert (a + b)[..|a + b| - 1] == a + b';
      NumbersAppend(a, b');
    }
  }

  lemma {:induction false} WindowNumbers(page: int, lo: int, hi: int)
    ensures Numbers(Window(page, lo, hi)) == Range(lo, hi)
    ensures Ellipses(Window(page, lo, hi)) == 0
    decreases hi - lo
  {
    if hi >= lo {
      var w := Window(page, lo, hi);
      assert w[..|w| - 1] == Window(page, lo, hi - 1);
      WindowNumbers(page, lo, hi - 1);
    }
  }

  /** Strictly increasing, hence without a repeated page. */
  predicate Increasing(s: seq<int>) {
    forall i, j :: 0 <= i < j < |s| ==> s[i] < s[j]
  }

  /**
   * The page numbers shown run strictly upwards from 1 to the last page,
   * so no page is shown twice: all of 1..total up to five pages, otherwise
   * 1, the window max(2, page-1)..min(total-1, page+1) and total.
   */
  lemma PageNumbersShown(page: int, total: int)
    ensures total <= MaxVisiblePages ==> Numbers(PageItems(page, total)) == Range(1, total)
    ensures total > MaxVisiblePages ==>
      Numbers(PageItems(page, total)) == [1] + Range(Max(2, page - 1), Min(total - 1, page + 1)) + [total]
    ensures Increasing(Numbers(PageItems(page, total)))
    ensures forall n :: n in Numbers(PageItems(page, total)) ==> 1 <= n <= total
  {
    if total <= MaxVisiblePages {
      WindowNumbers(page, 1, total);
      RangeAt(1, total);
      var r := Range(1, total);
      forall n | n in r ensures 1 <= n <= total {
        var k :| 0 <= k < |r| && r[k] == n;
      }
    } else {
      LargeNumbers(page, total);
      FramedIncreasing(Max(2, page - 1), Min(total - 1, page + 1), total);
    }
  }

  lemma LargeNumbers(page: int, total: int)
    requires total > MaxVisiblePages
    ensures Numbers(PageItems(page, total)) == [1] + Range(Max(2, page - 1), Min(total - 1, page + 1)) + [total]
  {
    var lo, hi := Max(2, page - 1), Min(total - 1, page + 1);
    var first, last := [Link(1, 1, page == 1)], [Link(total, total, page == total)];
    var pre: seq<Item> := if page > 3 then [Ellipsis] else [];
    var post: seq<Item> := if page < total - 2 then [Ellipsis] else [];
    var w := Window(page, lo, hi);
    var a := first + pre;
    var b := a + w;
    var c := b + post;
    assert PageItems(page, total) == c + last;
    NumbersOne(first[0]);
    NumbersOne(last[0]);
    assert first == [first[0]] && last == [last[0]];
    assert Numbers(pre) == [] by { if pre != [] { NumbersOne(Ellipsis); } }
    assert Numbers(post) == [] by { if post != [] { NumbersOne(Ellipsis); } }
    NumbersAppend(first, pre);
    assert Numbers(a) == [1];
    NumbersAppend(a, w);
    WindowNumbers(page, lo, hi);
    assert Numbers(b) == [1] + Range(lo, hi);
    NumbersAppend(b, post);
    assert Numbers(c) == [1] + Range(lo, hi);
    NumbersAppend(c, last);
  }

  lemma NumbersOne(it: Item)
    ensures Numbers([it]) == if it.Link? then [it.number] else []
    ensures Ellipses([it]) == if it.Ellipsis? then 1 else 0
  {
    assert [it][..0] == [];
  }

  /** A run of pages strictly between 1 and total, framed by both, runs strictly upwards within 1..total. */
  lemma FramedIncreasing(lo: int, hi: int, total: int)
    requires 1 < lo && hi < total && 1 < total
    ensures Increasing([1] + Range(lo, hi) + [total])
    ensures forall n :: n in [1] + Range(lo, hi) + [total] ==> 1 <= n <= total
  {
    var r := Range(lo, hi);
    var ns := [1] + r + [total];
    RangeAt(lo, hi);
    assert forall k :: 0 <= k < |r| ==> lo <= r[k] <= hi;
    assert forall k :: 0 < k < |ns| - 1 ==> ns[k] == r[k - 1];
    assert ns[0] == 1 && ns[|ns| - 1] == total;
    forall n | n in ns ensures 1 <= n <= total {
      var k :| 0 <= k < |ns| && ns[k] == n;
    }
  }

  /**
   * Beyond five pages there is a leading ellipsis exactly when page > 3 and
   * a trailing one exactly when page < total - 2 (for a page in range, right
   * after the first link and right before the last); up to five, none.
   */
  lemma EllipsesShown(page: int, total: int)
    ensures total <= MaxVisiblePages ==> Ellipses(PageItems(page, total)) == 0
    ensures total > MaxVisiblePages ==>
      Ellipses(PageItems(page, total)) == (if page > 3 then 1 else 0) + (if page < total - 2 then 1 else 0)
    ensures total > MaxVisiblePages && 1 <= page <= total ==>
      (PageItems(page, total)[1] == Ellipsis <==> page > 3)
      && (PageItems(page, total)[|PageItems(page, total)| - 2] == Ellipsis <==> page < total - 2)
  {
    if total <= MaxVisiblePages {
      WindowNumbers(page, 1, total);
    } else {
      LargeEllipses(page, total);
      if 1 <= page <= total {
        EllipsesPlaced(page, total);
      }
    }
  }

  lemma LargeEllipses(page: int, total: int)
    requires total > MaxVisiblePages
    ensures Ellipses(PageItems(page, total)) == (if page > 3 then 1 else 0) + (if page < total - 2 then 1 else 0)
  {
    var lo, hi := Max(2, page - 1), Min(total - 1, page + 1);
    var first, last := [Link(1, 1, page == 1)], [Link(total, total, page == total)];
    var pre: seq<Item> := if page > 3 then [Ellipsis] else [];
    var post: seq<Item> := if page < total - 2 then [Ellipsis] else [];
    var w := Window(page, lo, hi);
    var a := first + pre;
    var b := a + w;
    var c := b + post;
    assert PageItems(page, total) == c + last;
    assert Ellipses(first) == 0 by { NumbersOne(first[0]); assert first == [first[0]]; }
    assert Ellipses(last) == 0 by { NumbersOne(last[0]); assert last == [last[0]]; }
    assert Ellipses(pre) == |pre| by { if pre != [] { NumbersOne(Ellipsis); } }
    assert Ellipses(post) == |post| by { if post != [] { NumbersOne(Ellipsis); } }
    assert Ellipses(a) == |pre| by { NumbersAppend(first, pre); }
    assert Ellipses(b) == |pre| by { NumbersAppend(a, w); WindowNumbers(page, lo, hi); }
    assert Ellipses(c) == |pre| + |post| by { NumbersAppend(b, post); }
    NumbersAppend(c, last);
  }

  lemma EllipsesPlaced(page: int, total: int)
    requires total > MaxVisiblePages && 1 <= page <= total
    ensures PageItems(page, total)[1] == Ellipsis <==> page > 3
    ensures PageItems(page, total)[|PageItems(page, total)| - 2] == Ellipsis <==> page < total - 2
  {
    var lo, hi := Max(2, page - 1), Min(total - 1, page + 1);
    var first, last := [Link(1, 1, page == 1)], [Link(total, total, page == total)];
    var pre: seq<Item> := if page > 3 then [Ellipsis] else [];
    var post: seq<Item> := if page < total - 2 then [Ellipsis] else [];
    var w := Window(page, lo, hi);
    var items := PageItems(page, total);
    assert items == first + pre + w + post + last;
    assert w != [];
    WindowLinks(page, lo, hi);
    assert w[0] in w && w[|w| - 1] in w;
    if page <= 3 { assert items[1] == w[0]; }
    if page >= total - 2 { assert items[|items| - 2] == w[|w| - 1]; }
  }

  /** Every link reports its own page, and exactly the link showing `page` is active. */
  lemma LinksReportTheirPage(page: int, total: int)
    ensures forall it :: it in PageItems(page, total) && it.Link? ==>
      it.target == it.number && (it.active <==> it.number == page)
  {
    forall lo, hi ensures forall it :: it in Window(page, lo, hi) ==> it.Link? && it.target == it.number && (it.active <==> it.number == page) {
      WindowLinks(page, lo, hi);
    }
  }

  lemma {:induction false} WindowLinks(page: int, lo: int, hi: int)
    ensures forall it :: it in Window(page, lo, hi) ==> it.Link? && it.target == it.number && (it.active <==> it.number == page)
    decreases hi - lo
  {
    if hi >= lo { WindowLinks(page, lo, hi - 1); }
  }

  /** As written, with three pages and page 1 current, the link to page 2 reports page 1. */
  lemma SmallBranchReportsCurrentPage()
    ensures PageItemsAsWritten(1, 3)[1] == Link(2, 1, false)
    ensures PageItems(1, 3)[1] == Link(2, 2, false)
  {
    assert Window(1, 1, 3) == Window(1, 1, 2) + [Link(3, 3, false)];
    assert Window(1, 1, 2) == Window(1, 1, 1) + [Link(2, 2, false)];
  }
}
