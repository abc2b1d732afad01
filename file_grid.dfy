/** The file grid of the workspace: the files of the current folder, the
    colour of each file's icon, the "Shared" marker and the empty state. */
module FileGrid {
  import opened Wrappers
  import opened Js
  import opened Types

  /** The files whose folder is `folderId`, in list order. */
  function FolderFiles(files: seq<WorkspaceFile>, folderId: string): (r: seq<WorkspaceFile>)
    ensures forall f :: f in r <==> f in files && f.folderId == folderId
  {
    Filter(files, (f: WorkspaceFile) => f.folderId == folderId)
  }

  /** Order is kept: the files of a folder in `a + b` are those in `a`, then
      those in `b`. */
  lemma FolderFilesAppend(a: seq<WorkspaceFile>, b: seq<WorkspaceFile>, folderId: string)
    ensures FolderFiles(a + b, folderId) == FolderFiles(a, folderId) + FolderFiles(b, folderId)
  {
    FilterAppend(a, b, (f: WorkspaceFile) => f.folderId == folderId);
  }

  lemma FolderFilesOne(x: WorkspaceFile, folderId: string)
    ensures FolderFiles([x], folderId) == if x.folderId == folderId then [x] else []
  {
    assert [x][1..] == [];
  }

  /** The grid shows its empty state exactly when no file is in the folder. */
  lemma {:induction false} EmptyFolder(files: seq<WorkspaceFile>, folderId: string)
    ensures FolderFiles(files, folderId) == [] <==>
            forall i :: 0 <= i < |files| ==> files[i].folderId != folderId
  {
    if FolderFiles(files, folderId) != [] {
      assert FolderFiles(files, folderId)[0] in files;
    }
  }

  datatype IconColor = Red | Blue | Gray

  /** `getFileColor`: pdf red, doc and docx blue, anything else gray. */
  function FileColor(fileType: string): (c: IconColor)
    ensures c == Red <==> fileType == "pdf"
    ensures c == Blue <==> fileType == "doc" || fileType == "docx"
    ensures c == Gray <==> fileType != "pdf" && fileType != "doc" && fileType != "docx"
  {
    if fileType == "pdf" then Red
    else if fileType == "docx" || fileType == "doc" then Blue
    else Gray
  }

  /** The "Shared" marker: the file has a non-empty list of recipients. */
  function Shared(f: WorkspaceFile): (r: bool)
    ensures r <==> f.sharedWith.Some? && f.sharedWith.value != []
  {
    f.sharedWith.Some? && |f.sharedWith.value| > 0
  }
}
