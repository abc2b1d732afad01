/** A small piece of interface state shared by several components: the one
    open pop-up menu, as the id of the row it belongs to, or none. */
module Ui {
  import opened Wrappers

  /** `setActive(active === id ? null : id)`: clicking the button of the open
      menu closes it, clicking any other row's button opens that row's menu. */
  function ToggleMenu(active: Option<string>, id: string): (r: Option<string>)
    ensures r.None? <==> active == Some(id)
    ensures r.Some? ==> r.value == id
  {
    if active == Some(id) then None else Some(id)
  }

  /** Two clicks on the same row leave the menu as it was, unless it was
      another row's menu, which the first click replaced. */
  lemma ToggleMenuTwice(active: Option<string>, id: string)
    ensures ToggleMenu(ToggleMenu(active, id), id) == (if active == Some(id) then Some(id) else None)
  {
  }
}
