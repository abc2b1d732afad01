/** The page selector under the content list and the user table: the first
    and last page, the current page with its neighbours, and an ellipsis for
    each gap, between a "previous" and a "next" button. */
module Pagination {
  import opened Wrappers
  import opened Js

  datatype PageItem = Page(n: int) | Ellipsis

  /** `pages.includes(x)`. */
  function Includes(pages: seq<PageItem>, x: PageItem): bool {
    if pages == [] then false
    else Includes(pages[..|pages| - 1], x) || pages[|pages| - 1] == x
  }

  lemma {:induction false} IncludesIn(pages: seq<PageItem>, x: PageItem)
    ensures Includes(pages, x) <==> x in pages
  {
    if pages != [] {
      assert pages == pages[..|pages| - 1] + [pages[|pages| - 1]];
      IncludesIn(pages[..|pages| - 1], x);
    }
  }

  /** The last page number shown so far, 0 before any. */
  function Top(pages: seq<PageItem>): int {
    if pages == [] then 0
    else if pages[|pages| - 1].Page? then pages[|pages| - 1].n
    else Top(pages[..|pages| - 1])
  }

  /** Every page number is larger than the ones before it. */
  predicate Ascending(pages: seq<PageItem>) {
    pages == [] ||
      (Ascending(pages[..|pages| - 1])
       && (pages[|pages| - 1].Page? ==> pages[|pages| - 1].n > Top(pages[..|pages| - 1])))
  }

  /** What one `push` does to the three functions above. */
  lemma Pushed(pages: seq<PageItem>, x: PageItem)
    ensures forall y :: Includes(pages + [x], y) <==> Includes(pages, y) || x == y
    ensures Top(pages + [x]) == if x.Page? then x.n else Top(pages)
    ensures Ascending(pages + [x]) <==> Ascending(pages) && (x.Page? ==> x.n > Top(pages))
  {
    assert (pages + [x])[..|pages|] == pages;
  }

  /** Ascending page numbers are pairwise ordered, hence each shown once. */
  lemma {:induction false} AscendingOrdered(pages: seq<PageItem>, a: nat, b: nat)
    requires Ascending(pages) && a < b < |pages| && pages[a].Page? && pages[b].Page?
    ensures pages[a].n < pages[b].n
    decreases |pages|
  {
    var init := pages[..|pages| - 1];
    if b < |pages| - 1 {
      AscendingOrdered(init, a, b);
    } else {
      TopAtLeast(init, a);
    }
  }

  lemma {:induction false} TopAtLeast(pages: seq<PageItem>, a: nat)
    requires Ascending(pages) && a < |pages| && pages[a].Page?
    ensures pages[a].n <= Top(pages)
    decreases |pages|
  {
    var init := pages[..|pages| - 1];
    if a < |pages| - 1 {
      TopAtLeast(init, a);
      if pages[|pages| - 1].Page? {
        assert Top(pages) > Top(init);
      }
    }
  }

  /** A page number is shown exactly when it is the first or the last page,
      page 2 while the current page is among the first three, a neighbour of
      the current page, or the last-but-one page while the current page is
      among the last three. */
  predicate Expected(currentPage: int, totalPages: int, n: int) {
    || n == 1
    || n == totalPages
    || (currentPage <= 3 && n == 2)
    || (Max(2, currentPage - 1) <= n <= Min(totalPages - 1, currentPage + 1))
    || (currentPage >= totalPages - 2 && totalPages > 2 && n == totalPages - 1)
  }

  /** `getPageNumbers`, which the component only calls with more than one page. */
  method GetPageNumbers(currentPage: int, totalPages: int) returns (pages: seq<PageItem>)
    requires totalPages > 1
    ensures |pages| >= 2 && pages[0] == Page(1)
    ensures Ascending(pages)
    ensures forall n :: Includes(pages, Page(n)) <==> Expected(currentPage, totalPages, n)
    ensures pages[1] == Ellipsis <==> currentPage > 3
    ensures currentPage >= 1 ==> pages[|pages| - 1] == Page(totalPages)
    ensures currentPage >= 1 ==> forall k :: 1 < k < |pages| - 2 ==> pages[k].Page?
    ensures 1 <= currentPage <= totalPages ==>
      (currentPage < totalPages - 2 <==> pages[|pages| - 2] == Ellipsis)
  {
    var showEllipsisStart := currentPage > 3;
    var showEllipsisEnd := currentPage < totalPages - 2;
    pages := [Page(1)];
    Pushed([], Page(1));
    var second := if showEllipsisStart then Ellipsis else Page(2);
    Pushed(pages, second);
    pages := pages + [second];
    var head := if showEllipsisStart then 1 else 2;

    var lo, hi := Max(2, currentPage - 1), Min(totalPages - 1, currentPage + 1);
    var i := lo;
    while i <= hi
      invariant lo <= i <= Max(lo, hi + 1)
      invariant |pages| >= 2 && pages[0] == Page(1) && pages[1] == second
      invariant forall k :: 1 < k < |pages| ==> pages[k].Page?
      invariant Ascending(pages) && Top(pages) <= Max(i - 1, head)
      invariant forall n :: Includes(pages, Page(n)) <==> n == 1 || n == head || lo <= n < i
    {
      if i > 1 && i < totalPages && !Includes(pages, Page(i)) {
        Pushed(pages, Page(i));
        pages := pages + [Page(i)];
      }
      i := i + 1;
    }
    pages := PushTail(pages, currentPage, totalPages, second, head);
  }

  /** The end of `getPageNumbers`: the trailing ellipsis or the last-but-one
      page, then the last page, after the pages up to the current page's
      right neighbour. */
  method PushTail(middle: seq<PageItem>, currentPage: int, totalPages: int, second: PageItem, head: int)
    returns (pages: seq<PageItem>)
    requires totalPages > 1
    requires second == (if currentPage > 3 then Ellipsis else Page(2))
    requires head == (if currentPage > 3 then 1 else 2)
    requires |middle| >= 2 && middle[0] == Page(1) && middle[1] == second
    requires forall k :: 1 < k < |middle| ==> middle[k].Page?
    requires Ascending(middle) && Top(middle) <= Max(Min(totalPages - 1, currentPage + 1), head)
    requires forall n :: Includes(middle, Page(n)) <==>
      n == 1 || n == head || Max(2, currentPage - 1) <= n <= Min(totalPages - 1, currentPage + 1)
    ensures |pages| >= 2 && pages[0] == Page(1)
    ensures Ascending(pages)
    ensures forall n :: Includes(pages, Page(n)) <==> Expected(currentPage, totalPages, n)
    ensures pages[1] == Ellipsis <==> currentPage > 3
    ensures currentPage >= 1 ==> pages[|pages| - 1] == Page(totalPages)
    ensures currentPage >= 1 ==> forall k :: 1 < k < |pages| - 2 ==> pages[k].Page?
    ensures 1 <= currentPage <= totalPages ==>
      (currentPage < totalPages - 2 <==> pages[|pages| - 2] == Ellipsis)
  {
    if 3 < currentPage <= totalPages {
      IncludesIn(middle, Page(currentPage - 1));
    }
    pages := middle;
    if currentPage < totalPages - 2 {
      Pushed(pages, Ellipsis);
      pages := pages + [Ellipsis];
    } else if totalPages > 2 && !Includes(pages, Page(totalPages - 1)) {
      Pushed(pages, Page(totalPages - 1));
      pages := pages + [Page(totalPages - 1)];
    }

    if totalPages > 1 && !Includes(pages, Page(totalPages)) {
      Pushed(pages, Page(totalPages));
      pages := pages + [Page(totalPages)];
    }
    assert pages[..2] == middle[..2];
  }

  /** A button of the selector: the page it asks for and whether it is disabled. */
  datatype Button = Button(target: int, disabled: bool)

  datatype View = View(previous: Button, pages: seq<PageItem>, next: Button)

  /** The component: nothing for a single page, else the previous button
      (disabled on the first page), the page numbers and the next button
      (disabled on the last page). */
  method Render(currentPage: int, totalPages: int) returns (v: Option<View>)
    ensures v.None? <==> totalPages <= 1
    ensures v.Some? ==> v.value.previous == Button(currentPage - 1, currentPage == 1)
    ensures v.Some? ==> v.value.next == Button(currentPage + 1, currentPage == totalPages)
    ensures v.Some? ==> forall n :: Includes(v.value.pages, Page(n)) <==> Expected(currentPage, totalPages, n)
  {
    if totalPages <= 1 {
      return None;
    }
    var pages := GetPageNumbers(currentPage, totalPages);
    v := Some(View(Button(currentPage - 1, currentPage == 1), pages,
                   Button(currentPage + 1, currentPage == totalPages)));
  }
}
