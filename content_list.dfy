/** The content list: a status filter ("all" or one status), six items a
    page, and previous/next buttons that stay within the pages. */
module ContentList {
  import opened Wrappers
  import opened Js
  import opened Types
  import Api

  const PageSize: nat := 6

  /** A filter button: every status, or one. */
  datatype StatusFilter = All | Only(status: ContentStatus)

  datatype ListState = ListState(filter: StatusFilter, currentPage: int)

  /** The filter and page atoms start at "all" and page 1. */
  const InitialList := ListState(All, 1)

  /** The status argument of `fetchContents`: none for "all". */
  function StatusArgument(f: StatusFilter): (r: Option<ContentStatus>)
    ensures r.None? <==> f == All
    ensures f.Only? ==> r == Some(f.status)
  {
    if f == All then None else Some(f.status)
  }

  /** The page of contents the list asks for: it only holds contents that
      pass the filter. */
  function Query(b: Api.MockBackend, s: ListState): (r: PaginatedResponse<Content>)
    reads b
    ensures forall c :: c in r.data ==> c in b.contents && (s.filter.Only? ==> c.status == s.filter.status)
    ensures |r.data| <= PageSize
    ensures s.filter == All ==> r.total == |b.contents|
  {
    var r := b.FetchContents(s.currentPage, PageSize, StatusArgument(s.filter));
    assert r == Api.Paginate(Api.ByStatus(b.contents, StatusArgument(s.filter)), s.currentPage, PageSize);
    r
  }

  /** A filter button: that filter, back on page 1. */
  function SelectFilter(s: ListState, f: StatusFilter): (r: ListState)
    ensures r.filter == f && r.currentPage == 1
  {
    ListState(f, 1)
  }

  /** The "previous" button: `Math.max(1, p - 1)`. */
  function Previous(p: int): (r: int)
    ensures r >= 1
    ensures p > 1 ==> r == p - 1
    ensures p <= 1 ==> r == 1
  {
    Max(1, p - 1)
  }

  /** The "next" button: `Math.min(totalPages, p + 1)`. */
  function Next(p: int, totalPages: int): (r: int)
    ensures r <= totalPages
    ensures p < totalPages ==> r == p + 1
    ensures p >= totalPages ==> r == totalPages
  {
    Min(totalPages, p + 1)
  }

  /** From a page in range, both buttons stay in range, and each undoes the
      other away from the ends. */
  lemma ButtonsStayInRange(p: int, totalPages: int)
    requires 1 <= p <= totalPages
    ensures 1 <= Previous(p) <= totalPages && 1 <= Next(p, totalPages) <= totalPages
    ensures p > 1 ==> Next(Previous(p), totalPages) == p
    ensures p < totalPages ==> Previous(Next(p, totalPages)) == p
  {
  }

  /** The page controls: shown only when there is more than one page, with
      "previous" disabled on page 1 and "next" on the last page. */
  datatype Controls = Controls(previousDisabled: bool, nextDisabled: bool)

  function PageControls(currentPage: int, totalPages: int): (r: Option<Controls>)
    ensures r.None? <==> totalPages <= 1
    ensures r.Some? ==> (r.value.previousDisabled <==> currentPage == 1)
    ensures r.Some? ==> (r.value.nextDisabled <==> currentPage == totalPages)
  {
    if totalPages > 1 then Some(Controls(currentPage == 1, currentPage == totalPages)) else None
  }

  /** A disabled button is one that would not move: on page 1 "previous"
      stays, on the last page "next" stays. */
  lemma DisabledMeansStuck(currentPage: int, totalPages: int)
    requires totalPages > 1
    ensures PageControls(currentPage, totalPages).value.previousDisabled ==> Previous(currentPage) == currentPage
    ensures PageControls(currentPage, totalPages).value.nextDisabled ==> Next(currentPage, totalPages) == currentPage
  {
  }
}
