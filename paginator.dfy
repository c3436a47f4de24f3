/** Page-number windowing of the paginator control.

    Given the current page and the page count, the control renders a row of
    page buttons, with an ellipsis wherever page numbers are skipped. Up to
    seven pages are all listed; beyond that the row keeps the first two and
    the last two pages and one page in between, chosen near the current one.
    The prev/next arrows are disabled at the ends and while loading. */
module Paginator {

  /** One rendered item: a page button (highlighted when active) or an ellipsis. */
  datatype Entry = Btn(n: int, active: bool) | Dots

  /** Buttons lo..hi in increasing order, each active iff it is the current page. */
  function Buttons(lo: int, hi: int, page: int): (r: seq<Entry>)
    ensures |r| == if hi < lo then 0 else hi - lo + 1
    decreases hi - lo
  {
    if hi < lo then [] else Buttons(lo, hi - 1, page) + [Btn(hi, hi == page)]
  }

  /** The group between the first two and the last two buttons, when there are
      more than seven pages. */
  function Middle(page: int, pageCount: int): seq<Entry>
  {
    if page > 3 && page < pageCount - 2 then
      [Dots, Btn(page, true), Dots]
    else if page <= 3 then
      [Btn(3, 3 == page), Dots]
    else
      [Dots, Btn(pageCount - 2, pageCount - 2 == page)]
  }

  /** The row of entries rendered for `page` out of `pageCount` pages. */
  function PageEntries(page: int, pageCount: int): seq<Entry>
  {
    if pageCount <= 7 then
      Buttons(1, pageCount, page)
    else
      Buttons(1, 2, page) + Middle(page, pageCount) + Buttons(pageCount - 1, pageCount, page)
  }

  /** Builds the row the way the control does: push the buttons and ellipses
      one at a time, branch by branch. */
  method RenderPageNumbers(page: int, pageCount: int) returns (pageNumbers: seq<Entry>)
    ensures pageNumbers == PageEntries(page, pageCount)
  {
    pageNumbers := [];
    if pageCount <= 7 {
      var i := 1;
      while i <= pageCount
        invariant 1 <= i && (i <= pageCount + 1 || i == 1)
        invariant pageNumbers == Buttons(1, i - 1, page)
      {
        pageNumbers := pageNumbers + [Btn(i, i == page)];
        i := i + 1;
      }
    } else {
      // always the first two pages
      var i := 1;
      while i <= 2
        invariant 1 <= i <= 3
        invariant pageNumbers == Buttons(1, i - 1, page)
      {
        pageNumbers := pageNumbers + [Btn(i, i == page)];
        i := i + 1;
      }
      if page > 3 && page < pageCount - 2 {
        pageNumbers := pageNumbers + [Dots];
        pageNumbers := pageNumbers + [Btn(page, true)];
        pageNumbers := pageNumbers + [Dots];
      } else if page <= 3 {
        pageNumbers := pageNumbers + [Btn(3, 3 == page)];
        pageNumbers := pageNumbers + [Dots];
      } else {
        pageNumbers := pageNumbers + [Dots];
        pageNumbers := pageNumbers + [Btn(pageCount - 2, pageCount - 2 == page)];
      }
      assert pageNumbers == Buttons(1, 2, page) + Middle(page, pageCount);
      // always the last two pages
      ghost var front := pageNumbers;
      i := pageCount - 1;
      while i <= pageCount
        invariant pageCount - 1 <= i <= pageCount + 1
        invariant pageNumbers == front + Buttons(pageCount - 1, i - 1, page)
      {
        pageNumbers := pageNumbers + [Btn(i, i == page)];
        i := i + 1;
      }
      assert pageNumbers == front + Buttons(pageCount - 1, pageCount, page);
    }
  }

  /** The prev arrow is disabled on the first page and while loading. */
  function PrevDisabled(page: int, isLoading: bool): (r: bool)
    ensures isLoading ==> r
    ensures !isLoading ==> (r <==> page == 1)
  {
    page == 1 || isLoading
  }

  /** The next arrow is disabled on the last page and while loading. */
  function NextDisabled(page: int, pageCount: int, isLoading: bool): (r: bool)
    ensures isLoading ==> r
    ensures !isLoading ==> (r <==> page == pageCount)
  {
    page == pageCount || isLoading
  }

  // ---------------------------------------------------------------------------
  // An independent description of the row

  /** `x` moved into [lo, hi]. */
  function Clamp(x: int, lo: int, hi: int): int
  {
    if x < lo then lo else if x > hi then hi else x
  }

  /** Whether page `n` gets a button: every page up to seven pages; otherwise
      the first two, the last two, and the current page pulled into
      [3, pageCount - 2]. */
  predicate IsShown(page: int, pageCount: int, n: int)
  {
    if pageCount <= 7 then
      1 <= n <= pageCount
    else
      n in {1, 2, Clamp(page, 3, pageCount - 2), pageCount - 1, pageCount}
  }

  /** The page numbers carried by the buttons of a row. */
  ghost function ButtonSet(r: seq<Entry>): set<int>
  {
    set k | 0 <= k < |r| && r[k].Btn? :: r[k].n
  }

  /** Buttons appear in strictly increasing order of page number. */
  ghost predicate Increasing(r: seq<Entry>)
  {
    forall i, j :: 0 <= i < j < |r| && r[i].Btn? && r[j].Btn? ==> r[i].n < r[j].n
  }

  /** An ellipsis sits exactly where page numbers are skipped: between two
      buttons whose numbers are not consecutive, and nowhere else. */
  ghost predicate DotsMarkGaps(r: seq<Entry>)
  {
    (forall k :: 0 <= k < |r| && r[k].Dots? ==>
       0 < k < |r| - 1 && r[k - 1].Btn? && r[k + 1].Btn? && r[k - 1].n + 1 < r[k + 1].n) &&
    (forall k :: 0 <= k < |r| - 1 && r[k].Btn? && r[k + 1].Btn? ==> r[k + 1].n == r[k].n + 1)
  }

  /** Exactly the button of the current page is highlighted. */
  ghost predicate ActiveIsCurrent(r: seq<Entry>, page: int)
  {
    forall k :: 0 <= k < |r| && r[k].Btn? ==> (r[k].active <==> r[k].n == page)
  }

  // ---------------------------------------------------------------------------
  // Properties of the row

  lemma {:induction false} ButtonsAt(lo: int, hi: int, page: int, k: int)
    requires lo <= hi && 0 <= k <= hi - lo
    ensures Buttons(lo, hi, page)[k] == Btn(lo + k, lo + k == page)
    decreases hi - lo
  {
    if k < hi - lo {
      ButtonsAt(lo, hi - 1, page, k);
    }
  }

  /** With at most seven pages the row is buttons 1..pageCount in order, with
      no ellipsis; with no pages it is empty. */
  lemma {:induction false} FewPagesListsAll(page: int, pageCount: int)
    requires pageCount <= 7
    ensures |PageEntries(page, pageCount)| == if pageCount <= 0 then 0 else pageCount
    ensures forall k :: 0 <= k < |PageEntries(page, pageCount)| ==>
              PageEntries(page, pageCount)[k] == Btn(k + 1, k + 1 == page)
  {
    forall k | 0 <= k < |PageEntries(page, pageCount)|
      ensures PageEntries(page, pageCount)[k] == Btn(k + 1, k + 1 == page)
    {
      ButtonsAt(1, pageCount, page, k);
    }
  }

  lemma PairOfButtons(lo: int, page: int)
    ensures Buttons(lo, lo + 1, page) == [Btn(lo, lo == page), Btn(lo + 1, lo + 1 == page)]
  {
    assert Buttons(lo, lo - 1, page) == [];
  }

  /** With more than seven pages the row starts with buttons 1, 2 and ends with
      buttons pageCount - 1, pageCount, with the middle group in between. */
  lemma ManyPagesLayout(page: int, pageCount: int)
    requires pageCount > 7
    ensures var r := PageEntries(page, pageCount);
      r == [Btn(1, page == 1), Btn(2, page == 2)] + Middle(page, pageCount) +
           [Btn(pageCount - 1, page == pageCount - 1), Btn(pageCount, page == pageCount)]
  {
    PairOfButtons(1, page);
    PairOfButtons(pageCount - 1, page);
  }

  /** The row for more than seven pages, written out for each of the three groups. */
  lemma ManyPagesRow(page: int, pageCount: int)
    requires pageCount > 7
    ensures var r := PageEntries(page, pageCount);
      if 3 < page < pageCount - 2 then
        r == [Btn(1, page == 1), Btn(2, page == 2), Dots, Btn(page, true), Dots,
              Btn(pageCount - 1, page == pageCount - 1), Btn(pageCount, page == pageCount)]
      else if page <= 3 then
        r == [Btn(1, page == 1), Btn(2, page == 2), Btn(3, page == 3), Dots,
              Btn(pageCount - 1, page == pageCount - 1), Btn(pageCount, page == pageCount)]
      else
        r == [Btn(1, page == 1), Btn(2, page == 2), Dots, Btn(pageCount - 2, page == pageCount - 2),
              Btn(pageCount - 1, page == pageCount - 1), Btn(pageCount, page == pageCount)]
  {
    ManyPagesLayout(page, pageCount);
  }

  /** Everything the row promises: at most seven entries; buttons carrying
      increasing page numbers within [1, pageCount], exactly the shown pages;
      the current page alone highlighted; ellipses marking the skips. */
  ghost predicate WellLaidOut(r: seq<Entry>, page: int, pageCount: int)
  {
    |r| <= 7 &&
    (forall k :: 0 <= k < |r| && r[k].Btn? ==> 1 <= r[k].n <= pageCount) &&
    Increasing(r) && DotsMarkGaps(r) && ActiveIsCurrent(r, page) &&
    (forall n :: n in ButtonSet(r) <==> IsShown(page, pageCount, n))
  }

  lemma {:induction false} FewPagesShape(page: int, pageCount: int)
    requires pageCount <= 7
    ensures WellLaidOut(PageEntries(page, pageCount), page, pageCount)
  {
    var r := PageEntries(page, pageCount);
    FewPagesListsAll(page, pageCount);
    forall n | IsShown(page, pageCount, n) ensures n in ButtonSet(r) {
      assert r[n - 1].Btn?;
    }
  }

  lemma ShownPagesAre(page: int, pageCount: int, s: set<int>)
    requires pageCount > 7 && s == {1, 2, Clamp(page, 3, pageCount - 2), pageCount - 1, pageCount}
    ensures forall n :: n in s <==> IsShown(page, pageCount, n)
  {
  }

  // With more than seven pages, each property in turn, over the three middle groups.

  lemma ManyPagesIncreasing(page: int, pageCount: int)
    requires pageCount > 7
    ensures Increasing(PageEntries(page, pageCount))
  {
    ManyPagesRow(page, pageCount);
    // one case per middle group
    if 3 < page < pageCount - 2 {
    } else if page <= 3 {
    } else {
    }
  }

  lemma ManyPagesDotsMarkGaps(page: int, pageCount: int)
    requires pageCount > 7
    ensures DotsMarkGaps(PageEntries(page, pageCount))
  {
    var r := PageEntries(page, pageCount);
    ManyPagesRow(page, pageCount);
    // one case per middle group, the ellipses first and then the neighbours
    if 3 < page < pageCount - 2 {
      assert forall k :: 0 <= k < |r| && r[k].Dots? ==> k == 2 || k == 4;
    } else if page <= 3 {
      assert forall k :: 0 <= k < |r| && r[k].Dots? ==> k == 3;
    } else {
      assert forall k :: 0 <= k < |r| && r[k].Dots? ==> k == 2;
    }
  }

  lemma ManyPagesActive(page: int, pageCount: int)
    requires pageCount > 7
    ensures ActiveIsCurrent(PageEntries(page, pageCount), page)
  {
    ManyPagesRow(page, pageCount);
    // one case per middle group
    if 3 < page < pageCount - 2 {
    } else if page <= 3 {
    } else {
    }
  }

  lemma ManyPagesButtons(page: int, pageCount: int)
    requires pageCount > 7
    ensures var r := PageEntries(page, pageCount);
      |r| <= 7 &&
      (forall k :: 0 <= k < |r| && r[k].Btn? ==> 1 <= r[k].n <= pageCount) &&
      (forall n :: n in ButtonSet(r) <==> IsShown(page, pageCount, n))
  {
    var r := PageEntries(page, pageCount);
    ManyPagesRow(page, pageCount);
    assert ButtonSet(r) == {1, 2, Clamp(page, 3, pageCount - 2), pageCount - 1, pageCount} by {
      assert r[0].Btn? && r[1].Btn? && r[|r| - 2].Btn? && r[|r| - 1].Btn?;
      if 3 < page < pageCount - 2 {
        assert r[3].Btn?;
      } else if page <= 3 {
        assert r[2].Btn?;
      } else {
        assert r[3].Btn?;
      }
    }
    ShownPagesAre(page, pageCount, ButtonSet(r));
  }

  /** Whatever the inputs, the row is well laid out. */
  lemma RowShape(page: int, pageCount: int)
    ensures WellLaidOut(PageEntries(page, pageCount), page, pageCount)
  {
    if pageCount <= 7 {
      FewPagesShape(page, pageCount);
    } else {
      ManyPagesIncreasing(page, pageCount);
      ManyPagesDotsMarkGaps(page, pageCount);
      ManyPagesActive(page, pageCount);
      ManyPagesButtons(page, pageCount);
    }
  }

  /** Every page-number button leads to a page within [1, pageCount]. */
  lemma ShownButtonInRange(page: int, pageCount: int, e: Entry)
    requires e in PageEntries(page, pageCount) && e.Btn?
    ensures 1 <= e.n <= pageCount
  {
    RowShape(page, pageCount);
    var r := PageEntries(page, pageCount);
    var k :| 0 <= k < |r| && r[k] == e;
  }

  /** A current page within range always gets a button, and it is highlighted. */
  lemma CurrentPageShown(page: int, pageCount: int)
    requires 1 <= page <= pageCount
    ensures Btn(page, true) in PageEntries(page, pageCount)
  {
    RowShape(page, pageCount);
    var r := PageEntries(page, pageCount);
    assert IsShown(page, pageCount, page);
    assert page in ButtonSet(r);
    var k :| 0 <= k < |r| && r[k].Btn? && r[k].n == page;
    assert r[k] == Btn(page, true);
  }

  /** Past the last page, or with no pages at all, the next arrow is only
      disabled while loading: moving further keeps it enabled. */
  lemma NextEnabledPastLastPage(page: int, pageCount: int)
    requires page > pageCount
    ensures !NextDisabled(page, pageCount, false) && !NextDisabled(page + 1, pageCount, false)
  {
  }

  /** From a page within range, an enabled arrow leads to a page within range;
      while loading both arrows are disabled. */
  lemma EnabledArrowStaysInRange(page: int, pageCount: int, isLoading: bool)
    requires 1 <= page <= pageCount
    ensures !PrevDisabled(page, isLoading) ==> 1 <= page - 1 <= pageCount
    ensures !NextDisabled(page, pageCount, isLoading) ==> 1 <= page + 1 <= pageCount
    ensures isLoading ==> PrevDisabled(page, isLoading) && NextDisabled(page, pageCount, isLoading)
  {
  }
}
