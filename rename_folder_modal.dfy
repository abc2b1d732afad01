/** The "rename folder" dialog. Its one state field, the typed name, takes
    the folder's current name when the component is mounted and is not
    reset when the props change afterwards. */
module RenameFolderModal {
  import opened Js

  /** The Rename button is disabled exactly when the trimmed name is empty. */
  predicate RenameDisabled(folderName: string) {
    Trim(folderName) == ""
  }

  lemma DisabledIffBlank(folderName: string)
    ensures RenameDisabled(folderName) <==> AllSpace(folderName)
  {
  }

  class RenameFolderDialog {
    var folderName: string
    /** The props: whether the parent shows the dialog and the name it passes. */
    var isOpen: bool
    var currentName: string
    /** Names passed to `onConfirm`, oldest first. */
    var confirmed: seq<string>

    ghost predicate Valid()
      reads this
    {
      forall i :: 0 <= i < |confirmed| ==> confirmed[i] != "" && IsTrimmed(confirmed[i])
    }

    /** `useState(currentName)`: the field starts as the name passed at mount. */
    constructor(isOpen: bool, currentName: string)
      ensures folderName == currentName && this.currentName == currentName
      ensures this.isOpen == isOpen && confirmed == []
      ensures Valid()
    {
      folderName := currentName;
      this.isOpen := isOpen;
      this.currentName := currentName;
      confirmed := [];
    }

    /** The parent re-renders with new props: the field keeps its text. */
    method Rerender(isOpen: bool, currentName: string)
      requires Valid()
      modifies this`isOpen, this`currentName
      ensures Valid()
      ensures this.isOpen == isOpen && this.currentName == currentName
      ensures folderName == old(folderName)
    {
      this.isOpen := isOpen;
      this.currentName := currentName;
    }

    /** Typing replaces the field's text. */
    method Edit(value: string)
      modifies this`folderName
      ensures folderName == value
    {
      folderName := value;
    }

    /** `handleSubmit`: a non-blank name is confirmed trimmed and the dialog
        closes; a blank one does nothing. */
    method Submit()
      requires Valid()
      modifies this`confirmed, this`isOpen
      ensures Valid()
      ensures RenameDisabled(folderName) ==> confirmed == old(confirmed) && isOpen == old(isOpen)
      ensures !RenameDisabled(folderName) ==> confirmed == old(confirmed) + [Trim(folderName)] && !isOpen
    {
      var t := Trim(folderName);
      if t != "" {
        confirmed := confirmed + [t];
        isOpen := false;
      }
    }

    /** Nothing is drawn while the dialog is closed. */
    function Rendered(): (r: bool)
      reads this`isOpen
      ensures r <==> isOpen
    {
      isOpen
    }
  }

  /** How the workspace page uses the dialog: it is mounted once, closed and
      with an empty name, and later re-rendered with each folder's name.
      Because the field is fixed at mount, it opens empty every time, and a
      submit without typing renames nothing. */
  method WorkspaceRenameOpensEmpty(first: string, second: string) returns (d: RenameFolderDialog)
    ensures d.folderName == "" && d.currentName == second && d.Rendered()
    ensures d.confirmed == []
  {
    d := new RenameFolderDialog(false, "");
    d.Rerender(true, first);
    assert d.folderName == "";
    d.Rerender(false, "");
    d.Rerender(true, second);
    d.Submit();
  }
}
