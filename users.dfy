/** The user management page: the selection of users to e-mail, the search
    over names and addresses, the ordering by creation time, and the pages of
    six users. */
module Users {
  import opened Wrappers
  import opened Js
  import opened Types
  import opened Sorting
  import Api

  const PageSize: nat := 6

  // ---------------------------------------------------------------------
  // Selection

  function NotUserId(id: string): string -> bool {
    (x: string) => x != id
  }

  /** `toggleUserSelection`: a selected id is dropped (every copy of it),
      any other id is appended. */
  function ToggleUserSelection(selected: seq<string>, userId: string): (r: seq<string>)
    ensures forall x :: x in r <==> if x == userId then userId !in selected else x in selected
    ensures userId !in selected ==> r == selected + [userId]
  {
    if userId in selected then Filter(selected, NotUserId(userId)) else selected + [userId]
  }

  /** Toggling the same id twice restores which ids are selected. */
  lemma ToggleTwice(selected: seq<string>, userId: string)
    ensures forall x :: x in ToggleUserSelection(ToggleUserSelection(selected, userId), userId)
                        <==> x in selected
  {
  }

  /** `selectAllUsers`: every loaded user's id, in list order; nothing
      changes while the list is still loading. */
  function SelectAllUsers(users: Option<seq<User>>, selected: seq<string>): (r: seq<string>)
    ensures users.None? ==> r == selected
    ensures users.Some? ==> |r| == |users.value|
                            && forall i :: 0 <= i < |r| ==> r[i] == users.value[i].id
  {
    if users.Some? then Map(users.value, (u: User) => u.id) else selected
  }

  function Email(u: User): string { u.email }

  function IsRecipient(recipients: seq<string>): User -> bool {
    (u: User) => u.id in recipients
  }

  /** `handleSendEmail`'s address list: the e-mail of each loaded user whose
      id is among the recipients, in the order of the user list. */
  function RecipientEmails(users: Option<seq<User>>, recipients: seq<string>): (r: seq<string>)
    ensures users.None? ==> r == []
    ensures users.Some? ==>
      forall e :: e in r <==> exists u :: u in users.value && u.id in recipients && u.email == e
  {
    if users.None? then []
    else
      var chosen := Filter(users.value, IsRecipient(recipients));
      var r := Map(chosen, Email);
      assert forall e :: e in r <==> exists u :: u in chosen && u.email == e by {
        forall e | e in r ensures exists u :: u in chosen && u.email == e {
          var i :| 0 <= i < |r| && r[i] == e;
          assert chosen[i] in chosen;
        }
        forall e | exists u :: u in chosen && u.email == e ensures e in r {
          var u :| u in chosen && u.email == e;
          var i :| 0 <= i < |chosen| && chosen[i] == u;
          assert r[i] == e;
        }
      }
      r
  }

  /** The address list follows the user list: the addresses of the first
      users come before those of the later ones. */
  lemma RecipientEmailsAppend(a: seq<User>, b: seq<User>, recipients: seq<string>)
    ensures RecipientEmails(Some(a + b), recipients)
            == RecipientEmails(Some(a), recipients) + RecipientEmails(Some(b), recipients)
  {
    var p := IsRecipient(recipients);
    FilterAppend(a, b, p);
    MapAppend(Filter(a, p), Filter(b, p), Email);
  }

  /** One user contributes their address exactly once when chosen, and
      nothing otherwise. */
  lemma RecipientEmailsOne(u: User, recipients: seq<string>)
    ensures RecipientEmails(Some([u]), recipients) == if u.id in recipients then [u.email] else []
  {
    var p := IsRecipient(recipients);
    assert Filter([u], p) == (if p(u) then [u] else []) + Filter([u][1..], p);
    assert [u][1..] == [];
  }

  /** After "select all", the mail goes to every loaded user, in list order. */
  lemma SelectAllThenSend(users: seq<User>, selected: seq<string>)
    ensures RecipientEmails(Some(users), SelectAllUsers(Some(users), selected))
            == Map(users, Email)
  {
    var ids := SelectAllUsers(Some(users), selected);
    forall i | 0 <= i < |users| ensures IsRecipient(ids)(users[i]) {
      assert ids[i] == users[i].id;
    }
    FilterAll(users, IsRecipient(ids));
  }

  // ---------------------------------------------------------------------
  // Search, order and pages

  /** The search test: the lower-cased query occurs in the lower-cased name
      or the lower-cased address. */
  predicate Matches(query: string, u: User) {
    Includes(ToLower(u.fullName), ToLower(query)) || Includes(ToLower(u.email), ToLower(query))
  }

  function Matching(query: string): User -> bool {
    (u: User) => Matches(query, u)
  }

  function SearchUsers(users: seq<User>, query: string): (r: seq<User>)
    ensures forall u :: u in r <==> u in users && Matches(query, u)
    ensures |r| <= |users|
  {
    Filter(users, Matching(query))
  }

  /** An empty search keeps every user, in order. */
  lemma EmptySearchKeepsAll(users: seq<User>)
    ensures SearchUsers(users, "") == users
  {
    forall i | 0 <= i < |users| ensures Matches("", users[i]) {
      IncludesEmpty(ToLower(users[i].fullName));
    }
    FilterAll(users, Matching(""));
  }

  datatype SortOrder = Asc | Desc

  function CreatedAt(u: User): int { u.createdAt }
  function NegCreatedAt(u: User): int { -u.createdAt }

  /** The comparator `dateB - dateA` (newest first) or `dateA - dateB`
      (oldest first), sorted stably. */
  function SortUsers(users: seq<User>, order: SortOrder): (r: seq<User>)
    ensures multiset(r) == multiset(users)
    ensures order == Asc ==> forall i, j :: 0 <= i < j < |r| ==> r[i].createdAt <= r[j].createdAt
    ensures order == Desc ==> forall i, j :: 0 <= i < j < |r| ==> r[i].createdAt >= r[j].createdAt
  {
    var r := if order == Desc then SortByKey(users, NegCreatedAt) else SortByKey(users, CreatedAt);
    assert order == Desc ==> SortedBy(r, NegCreatedAt);
    r
  }

  /** `filteredAndSortedUsers`: nothing while loading. */
  function FilteredAndSorted(users: Option<seq<User>>, query: string, order: SortOrder): (r: seq<User>)
    ensures users.None? ==> r == []
    ensures users.Some? ==> multiset(r) == multiset(SearchUsers(users.value, query))
    ensures order == Asc ==> forall i, j :: 0 <= i < j < |r| ==> r[i].createdAt <= r[j].createdAt
    ensures order == Desc ==> forall i, j :: 0 <= i < j < |r| ==> r[i].createdAt >= r[j].createdAt
  {
    if users.Some? then SortUsers(SearchUsers(users.value, query), order) else []
  }

  /** A user is listed exactly when loaded and matching the search. */
  lemma ListedIff(users: seq<User>, query: string, order: SortOrder, u: User)
    ensures u in FilteredAndSorted(Some(users), query, order) <==> u in users && Matches(query, u)
  {
    var s := SearchUsers(users, query);
    assert u in FilteredAndSorted(Some(users), query, order) <==> u in multiset(s);
  }

  datatype UserPage = UserPage(users: seq<User>, totalPages: nat)

  /** `totalPages` and `paginatedUsers`: the slice from `(p - 1) * 6` to
      `p * 6` of the listed users. */
  function PageOf(listed: seq<User>, currentPage: int): (r: UserPage)
    ensures (r.totalPages - 1) * PageSize < |listed| <= r.totalPages * PageSize
            || (|listed| == 0 && r.totalPages == 0)
    ensures |r.users| <= PageSize
    ensures currentPage >= 1 ==>
      r.users == listed[Min((currentPage - 1) * PageSize, |listed|)
                        ..Min(currentPage * PageSize, |listed|)]
  {
    var p := Api.Paginate(listed, currentPage, PageSize);
    UserPage(p.data, p.totalPages)
  }

  /** Every listed user is on the page its position says, and that page exists. */
  lemma EveryUserOnAPage(listed: seq<User>, i: nat)
    requires i < |listed|
    ensures var r := PageOf(listed, i / PageSize + 1);
            i / PageSize + 1 <= r.totalPages && i % PageSize < |r.users|
            && r.users[i % PageSize] == listed[i]
  {
    Api.PageOfItem(listed, PageSize, i);
  }

  // ---------------------------------------------------------------------
  // Page state

  datatype ViewState = ViewState(searchQuery: string, currentPage: int, sortOrder: SortOrder)

  /** The initial view: no search, page 1, newest first. */
  const InitialView := ViewState("", 1, Desc)

  /** `handleSearchChange`: the new query, back on page 1. */
  function HandleSearchChange(s: ViewState, value: string): (r: ViewState)
    ensures r.searchQuery == value && r.currentPage == 1 && r.sortOrder == s.sortOrder
  {
    s.(searchQuery := value, currentPage := 1)
  }

  function Flip(order: SortOrder): SortOrder {
    if order == Desc then Asc else Desc
  }

  /** `toggleSortOrder`: the other order, back on page 1. */
  function ToggleSortOrder(s: ViewState): (r: ViewState)
    ensures r.sortOrder != s.sortOrder && r.currentPage == 1 && r.searchQuery == s.searchQuery
  {
    s.(sortOrder := Flip(s.sortOrder), currentPage := 1)
  }

  /** Two toggles restore the order; the page stays reset. */
  lemma ToggleSortTwice(s: ViewState)
    ensures ToggleSortOrder(ToggleSortOrder(s)) == s.(currentPage := 1)
  {
  }
}
