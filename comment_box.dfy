/** The comment box under a content item: the list of comments, an input,
    and a send button guarded by the trimmed text. */
module CommentBox {
  import opened Wrappers
  import opened Js

  datatype CommentForm = CommentForm(newComment: string, pending: bool)

  /** `handleSubmit`: the text to post, as typed, when its trimmed form is
      non-empty. */
  function HandleSubmit(f: CommentForm): (r: Option<string>)
    ensures r.Some? <==> !AllSpace(f.newComment)
    ensures r.Some? ==> r.value == f.newComment
  {
    if Trim(f.newComment) != "" then Some(f.newComment) else None
  }

  /** The mutation's success clears the input. */
  function Posted(f: CommentForm): (r: CommentForm)
    ensures r.newComment == "" && r.pending == f.pending
  {
    f.(newComment := "")
  }

  /** The send button is disabled for a blank text or while a post is pending. */
  function SendDisabled(f: CommentForm): (r: bool)
    ensures r <==> AllSpace(f.newComment) || f.pending
  {
    Trim(f.newComment) == "" || f.pending
  }

  /** With no post pending, the button is enabled exactly when a submit
      would post; after a post the box posts nothing more. */
  lemma ButtonMatchesGuard(f: CommentForm)
    ensures !f.pending ==> (SendDisabled(f) <==> HandleSubmit(f).None?)
    ensures HandleSubmit(Posted(f)).None?
  {
  }

  /** The "no comments yet" line appears exactly when there are none. */
  function ShowEmptyState<T>(comments: seq<T>): (r: bool)
    ensures r <==> comments == []
  {
    |comments| == 0
  }
}
