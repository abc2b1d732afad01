/** The "new folder" dialog. Its two state fields, the typed name and the
    error line, are fields of an object; the parent's side of the callbacks
    (the names handed to `onConfirm` and whether the dialog is open) are
    fields too. */
module CreateFolderModal {
  import opened Js

  const Required := "Folder name is required"

  class CreateFolderDialog {
    var folderName: string
    var error: string
    /** Names passed to `onConfirm`, oldest first. */
    var confirmed: seq<string>
    var isOpen: bool

    /** An error is only ever the one message, and it only shows while the
        name is blank; every confirmed name is trimmed and non-empty. */
    ghost predicate Valid()
      reads this
    {
      && (error == "" || error == Required)
      && (error != "" ==> AllSpace(folderName))
      && forall i :: 0 <= i < |confirmed| ==> confirmed[i] != "" && IsTrimmed(confirmed[i])
    }

    /** Both fields start empty. */
    constructor(isOpen: bool)
      ensures folderName == "" && error == "" && confirmed == [] && this.isOpen == isOpen
      ensures Valid()
    {
      folderName := "";
      error := "";
      confirmed := [];
      this.isOpen := isOpen;
    }

    /** The parent opens the dialog. */
    method Open()
      modifies this`isOpen
      ensures isOpen
    {
      isOpen := true;
    }

    /** Typing: the new text, and the error goes. */
    method Edit(value: string)
      requires Valid()
      modifies this`folderName, this`error
      ensures Valid()
      ensures folderName == value && error == ""
    {
      folderName := value;
      error := "";
    }

    /** `handleSubmit`: a blank name shows the error and stays open; any
        other name is confirmed trimmed, then both fields are cleared and
        the dialog closes. */
    method Submit()
      requires Valid()
      modifies this
      ensures Valid()
      ensures AllSpace(old(folderName)) ==>
        error == Required && folderName == old(folderName) && confirmed == old(confirmed)
        && isOpen == old(isOpen)
      ensures !AllSpace(old(folderName)) ==>
        confirmed == old(confirmed) + [Trim(old(folderName))]
        && folderName == "" && error == "" && !isOpen
    {
      if Trim(folderName) == "" {
        error := Required;
        return;
      }
      confirmed := confirmed + [Trim(folderName)];
      folderName := "";
      error := "";
      isOpen := false;
    }

    /** `handleClose`: both fields are cleared and the dialog closes; nothing
        is confirmed. */
    method Close()
      requires Valid()
      modifies this`folderName, this`error, this`isOpen
      ensures Valid()
      ensures folderName == "" && error == "" && !isOpen
    {
      folderName := "";
      error := "";
      isOpen := false;
    }
  }

  /** A blank submit followed by typing a name and submitting again creates
      exactly that folder, trimmed. */
  method RetryAfterError(d: CreateFolderDialog, name: string)
    requires d.Valid() && d.folderName == "" && !AllSpace(name)
    modifies d
    ensures d.Valid()
    ensures d.confirmed == old(d.confirmed) + [Trim(name)] && !d.isOpen && d.error == ""
  {
    d.Submit();
    assert d.error == Required;
    d.Edit(name);
    d.Submit();
  }
}
