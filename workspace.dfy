/** The workspace page: the breadcrumb path to the current folder, and the
    folder and file operations it applies to its folder and file lists.
    The lists, the current folder, the clock and the random number that
    picks a new folder's colour are inputs. */
module Workspace {
  import opened Wrappers
  import opened Js
  import opened Types
  import opened FolderTree
  import opened FileGrid
  import ShareModal

  // ---------------------------------------------------------------------
  // Looking folders and files up by id
  // ---------------------------------------------------------------------

  /** `folders.find(f => f.id === id)`: the first folder with that id. */
  function FolderById(folders: seq<WorkspaceFolder>, id: string): Option<WorkspaceFolder> {
    if folders == [] then None
    else if folders[0].id == id then Some(folders[0])
    else FolderById(folders[1..], id)
  }

  /** The lookup finds nothing exactly when no folder has the id, and what it
      finds is a folder with that id. */
  lemma {:induction false} FolderByIdSpec(folders: seq<WorkspaceFolder>, id: string)
    ensures var r := FolderById(folders, id);
      && (r.None? <==> forall i :: 0 <= i < |folders| ==> folders[i].id != id)
      && (r.Some? ==> r.value.id == id && r.value in folders)
  {
    if folders != [] {
      FolderByIdSpec(folders[1..], id);
    }
  }

  /** A folder appended under an id no other folder has is found under it. */
  lemma FolderByIdLast(folders: seq<WorkspaceFolder>, x: WorkspaceFolder)
    requires forall i :: 0 <= i < |folders| ==> folders[i].id != x.id
    ensures FolderById(folders + [x], x.id) == Some(x)
  {
    FolderByIdSpec(folders + [x], x.id);
    assert (folders + [x])[|folders|] == x;
  }

  lemma FolderByIdCons(x: WorkspaceFolder, rest: seq<WorkspaceFolder>, id: string)
    ensures FolderById([x] + rest, id) == if x.id == id then Some(x) else FolderById(rest, id)
  {
    assert ([x] + rest)[1..] == rest;
  }

  /** Only the first folder with an id is ever found; a later one is not. */
  lemma {:induction false} FolderByIdAppend(folders: seq<WorkspaceFolder>, x: WorkspaceFolder, id: string)
    requires x.id != id
    ensures FolderById(folders + [x], id) == FolderById(folders, id)
  {
    if folders != [] {
      assert folders + [x] == [folders[0]] + (folders[1..] + [x]);
      FolderByIdCons(folders[0], folders[1..] + [x], id);
      FolderByIdCons(folders[0], folders[1..], id);
      assert folders == [folders[0]] + folders[1..];
      FolderByIdAppend(folders[1..], x, id);
    }
  }

  function HasFileId(id: string): WorkspaceFile -> bool {
    (f: WorkspaceFile) => f.id == id
  }

  /** `files.find(f => f.id === id)`. */
  function FileById(files: seq<WorkspaceFile>, id: string): (r: Option<WorkspaceFile>)
    ensures r.None? <==> forall i :: 0 <= i < |files| ==> files[i].id != id
    ensures r.Some? ==> r.value.id == id && r.value in files
  {
    Find(files, HasFileId(id))
  }

  // ---------------------------------------------------------------------
  // Breadcrumbs
  // ---------------------------------------------------------------------

  /** The walk up from `id` reaches a falsy or missing id within `fuel`
      steps: the parent chain has no cycle. */
  predicate ChainEnds(folders: seq<WorkspaceFolder>, id: Option<string>, fuel: nat)
    decreases fuel
  {
    !Truthy(id) || FolderById(folders, id.value).None?
    || (fuel > 0 && ChainEnds(folders, FolderById(folders, id.value).value.parentId, fuel - 1))
  }

  /** The breadcrumb path to `id`: its ancestors from the topmost existing one
      down to the folder itself, with at most `fuel` entries. */
  function Crumbs(folders: seq<WorkspaceFolder>, id: Option<string>, fuel: nat): (r: seq<WorkspaceFolder>)
    ensures r == [] <==> !Truthy(id) || fuel == 0 || FolderById(folders, id.value).None?
    decreases fuel
  {
    if !Truthy(id) || fuel == 0 then []
    else match FolderById(folders, id.value)
      case None => []
      case Some(f) => Crumbs(folders, f.parentId, fuel - 1) + [f]
  }

  /** The path ends at the folder `id` names, and each entry's parent is the
      entry before it. */
  lemma {:induction false} CrumbsLinked(folders: seq<WorkspaceFolder>, id: Option<string>, fuel: nat)
    ensures var r := Crumbs(folders, id, fuel);
      && |r| <= fuel
      && (r != [] ==> r[|r| - 1] == FolderById(folders, id.value).value)
      && (forall k :: 0 < k < |r| ==> r[k].parentId == Some(r[k - 1].id))
    decreases fuel
  {
    if Truthy(id) && fuel > 0 && FolderById(folders, id.value).Some? {
      var f := FolderById(folders, id.value).value;
      var up := Crumbs(folders, f.parentId, fuel - 1);
      CrumbsLinked(folders, f.parentId, fuel - 1);
      var r := up + [f];
      forall k | 0 < k < |r| ensures r[k].parentId == Some(r[k - 1].id) {
        if k < |up| {
          assert r[k] == up[k] && r[k - 1] == up[k - 1];
        } else {
          FolderByIdSpec(folders, f.parentId.value);
          assert r[k] == f && r[k - 1] == up[|up| - 1];
        }
      }
    }
  }

  /** Each entry of the path is the folder found under its own id. */
  lemma {:induction false} CrumbsFound(folders: seq<WorkspaceFolder>, id: Option<string>, fuel: nat)
    ensures forall g :: g in Crumbs(folders, id, fuel) ==> FolderById(folders, g.id) == Some(g)
    decreases fuel
  {
    if Truthy(id) && fuel > 0 && FolderById(folders, id.value).Some? {
      var f := FolderById(folders, id.value).value;
      FolderByIdSpec(folders, id.value);
      CrumbsFound(folders, f.parentId, fuel - 1);
      assert Crumbs(folders, id, fuel) == Crumbs(folders, f.parentId, fuel - 1) + [f];
    }
  }

  /** On an acyclic chain the path starts at a folder whose parent is falsy
      or missing. */
  lemma {:induction false} CrumbsTop(folders: seq<WorkspaceFolder>, id: Option<string>, fuel: nat)
    requires ChainEnds(folders, id, fuel) && Crumbs(folders, id, fuel) != []
    ensures var top := Crumbs(folders, id, fuel)[0];
      !Truthy(top.parentId) || FolderById(folders, top.parentId.value).None?
    decreases fuel
  {
    var f := FolderById(folders, id.value).value;
    if Crumbs(folders, f.parentId, fuel - 1) != [] {
      CrumbsTop(folders, f.parentId, fuel - 1);
    }
  }

  /** Once the chain has ended, more fuel changes nothing. */
  lemma {:induction false} CrumbsFuel(folders: seq<WorkspaceFolder>, id: Option<string>, fuel: nat, more: nat)
    requires ChainEnds(folders, id, fuel) && fuel <= more
    ensures ChainEnds(folders, id, more)
    ensures Crumbs(folders, id, more) == Crumbs(folders, id, fuel)
    decreases fuel
  {
    if Truthy(id) && FolderById(folders, id.value).Some? {
      CrumbsFuel(folders, FolderById(folders, id.value).value.parentId, fuel - 1, more - 1);
    }
  }

  /** One step up an acyclic chain from a folder that exists. */
  lemma CrumbsStep(folders: seq<WorkspaceFolder>, id: Option<string>, fuel: nat)
    requires ChainEnds(folders, id, fuel) && Truthy(id) && FolderById(folders, id.value).Some?
    ensures var f := FolderById(folders, id.value).value;
      fuel > 0 && ChainEnds(folders, f.parentId, fuel - 1)
      && Crumbs(folders, id, fuel) == Crumbs(folders, f.parentId, fuel - 1) + [f]
  {
  }

  /** `getBreadcrumbs`: walk up from the current folder, prepending each
      folder found and stopping at a falsy or missing id. */
  method GetBreadcrumbs(folders: seq<WorkspaceFolder>, currentFolder: string, ghost fuel: nat)
    returns (breadcrumbs: seq<WorkspaceFolder>)
    requires ChainEnds(folders, Some(currentFolder), fuel)
    ensures breadcrumbs == Crumbs(folders, Some(currentFolder), fuel)
  {
    breadcrumbs := [];
    var folderId: Option<string> := Some(currentFolder);
    ghost var f := fuel;
    while Truthy(folderId)
      invariant ChainEnds(folders, folderId, f)
      invariant Crumbs(folders, Some(currentFolder), fuel) == Crumbs(folders, folderId, f) + breadcrumbs
      decreases f
    {
      var folder := FolderById(folders, folderId.value);
      if folder.None? {
        break;
      }
      CrumbsStep(folders, folderId, f);
      ghost var up := Crumbs(folders, folder.value.parentId, f - 1);
      assert (up + [folder.value]) + breadcrumbs == up + ([folder.value] + breadcrumbs);
      breadcrumbs := [folder.value] + breadcrumbs;
      folderId := folder.value.parentId;
      f := f - 1;
    }
  }

  /** The heading of the file area: the current folder's name, or
      "My Drive" when there is no such folder or its name is empty. */
  function Title(folders: seq<WorkspaceFolder>, currentFolder: string): (t: string)
    ensures t == "My Drive" <==>
      FolderById(folders, currentFolder).None? || FolderById(folders, currentFolder).value.name in {"", "My Drive"}
    ensures t != "My Drive" ==> t == FolderById(folders, currentFolder).value.name
  {
    var f := FolderById(folders, currentFolder);
    if f.Some? && f.value.name != "" then f.value.name else "My Drive"
  }

  // ---------------------------------------------------------------------
  // Creating a folder
  // ---------------------------------------------------------------------

  /** The create-folder dialog remembers the parent it was opened for: the
      current folder from the header button, the clicked folder from the
      tree, and 'root' once closed. */
  datatype CreateModal = CreateModal(isOpen: bool, parentId: string)

  const ClosedCreateModal := CreateModal(false, "root")

  const Palette: seq<string> := ["#3B82F6", "#8B5CF6", "#10B981", "#F59E0B", "#EF4444"]

  /** `Math.floor(random * 5)` for `random` in [0, 1). */
  function PaletteIndex(random: real): (k: nat)
    requires 0.0 <= random < 1.0
    ensures k < |Palette|
    ensures k as real <= random * 5.0 < k as real + 1.0
  {
    (random * 5.0).Floor
  }

  function FolderIdAt(now: nat): string {
    "folder-" + NatToString(now)
  }

  /** `handleCreateFolder`: appends one folder under the dialog's parent, with
      an id from the clock and a palette colour chosen by `random`. */
  function CreateFolder(folders: seq<WorkspaceFolder>, modal: CreateModal, folderName: string,
                        now: nat, random: real): (r: seq<WorkspaceFolder>)
    requires 0.0 <= random < 1.0
    ensures |r| == |folders| + 1 && r[..|folders|] == folders
    ensures var f := r[|folders|];
      f.id == FolderIdAt(now) && f.name == folderName && f.parentId == Some(modal.parentId)
      && f.createdAt == now && f.modifiedAt == now
      && f.color.Some? && f.color.value in Palette
  {
    var color := Palette[PaletteIndex(random)];
    folders + [WorkspaceFolder(FolderIdAt(now), folderName, Some(modal.parentId), now, now, Some(color))]
  }

  /** A new folder always has a parent id, so the tree never shows it at the
      top level, even when that parent is 'root'. */
  lemma CreatedFolderNotRoot(folders: seq<WorkspaceFolder>, modal: CreateModal, folderName: string,
                             now: nat, random: real)
    requires 0.0 <= random < 1.0
    ensures RootFolders(CreateFolder(folders, modal, folderName, now, random)) == RootFolders(folders)
  {
    var r := CreateFolder(folders, modal, folderName, now, random);
    var p := (f: WorkspaceFolder) => f.parentId.None?;
    assert r == folders + [r[|folders|]];
    FilterAppend(folders, [r[|folders|]], p);
    assert Filter([r[|folders|]], p) == [];
  }

  /** The new folder is listed among its parent's children. */
  lemma CreatedFolderIsChild(folders: seq<WorkspaceFolder>, modal: CreateModal, folderName: string,
                             now: nat, random: real)
    requires 0.0 <= random < 1.0
    ensures var r := CreateFolder(folders, modal, folderName, now, random);
      r[|folders|] in ChildFolders(r, modal.parentId)
  {
  }

  /** `id` is neither a folder's id nor any folder's parent. */
  predicate Unused(folders: seq<WorkspaceFolder>, id: string) {
    forall i :: 0 <= i < |folders| ==> folders[i].id != id && folders[i].parentId != Some(id)
  }

  /** Appending a folder with an unused id leaves every other path alone. */
  lemma {:induction false} CrumbsAppend(folders: seq<WorkspaceFolder>, x: WorkspaceFolder,
                                        id: Option<string>, fuel: nat)
    requires Unused(folders, x.id)
    requires Truthy(id) ==> id.value != x.id
    ensures Crumbs(folders + [x], id, fuel) == Crumbs(folders, id, fuel)
    decreases fuel
  {
    if Truthy(id) && fuel > 0 {
      FolderByIdAppend(folders, x, id.value);
      var f := FolderById(folders, id.value);
      if f.Some? {
        FolderByIdSpec(folders, id.value);
        CrumbsAppend(folders, x, f.value.parentId, fuel - 1);
      }
    }
  }

  /** Opening a new folder shows its parent's path followed by the folder,
      provided the clock gave an id no folder uses or refers to. */
  lemma CreatedFolderCrumbs(folders: seq<WorkspaceFolder>, modal: CreateModal, folderName: string,
                            now: nat, random: real, fuel: nat)
    requires 0.0 <= random < 1.0
    requires Unused(folders, FolderIdAt(now)) && modal.parentId != FolderIdAt(now)
    ensures var r := CreateFolder(folders, modal, folderName, now, random);
      Crumbs(r, Some(FolderIdAt(now)), fuel + 1) == Crumbs(folders, Some(modal.parentId), fuel) + [r[|folders|]]
  {
    var r := CreateFolder(folders, modal, folderName, now, random);
    var x := r[|folders|];
    assert r == folders + [x];
    FolderByIdLast(folders, x);
    CrumbsAppend(folders, x, Some(modal.parentId), fuel);
  }

  // ---------------------------------------------------------------------
  // Renaming a folder
  // ---------------------------------------------------------------------

  /** The rename dialog: which folder, and the name it was opened with. */
  datatype RenameModal = RenameModal(isOpen: bool, folderId: string, folderName: string)

  const ClosedRenameModal := RenameModal(false, "", "")

  /** `handleRenameFolder`: opens the dialog on an existing folder. */
  function RenameRequest(folders: seq<WorkspaceFolder>, folderId: string): (m: Option<RenameModal>)
    ensures m.None? <==> forall i :: 0 <= i < |folders| ==> folders[i].id != folderId
    ensures m.Some? ==> m.value.isOpen && m.value.folderId == folderId
                        && exists i :: 0 <= i < |folders| && folders[i].id == folderId && folders[i].name == m.value.folderName
  {
    FolderByIdSpec(folders, folderId);
    match FolderById(folders, folderId)
    case None => None
    case Some(f) => Some(RenameModal(true, folderId, f.name))
  }

  /** `newName && newName.trim()`. */
  predicate ValidName(newName: string) {
    newName != "" && Trim(newName) != ""
  }

  /** A name is accepted exactly when it is not all whitespace. */
  lemma ValidNameIff(newName: string)
    ensures ValidName(newName) <==> !AllSpace(newName)
  {
  }

  function RenameOne(f: WorkspaceFolder, folderId: string, newName: string, now: nat): WorkspaceFolder {
    if f.id == folderId then f.(name := Trim(newName), modifiedAt := now) else f
  }

  function Renamed(folderId: string, newName: string, now: nat): WorkspaceFolder -> WorkspaceFolder {
    (f: WorkspaceFolder) => RenameOne(f, folderId, newName, now)
  }

  /** `confirmRenameFolder`: a blank name changes nothing; otherwise every
      folder with the dialog's id gets the trimmed name and a new
      modification time, and nothing else changes. */
  function ConfirmRename(folders: seq<WorkspaceFolder>, modal: RenameModal, newName: string, now: nat)
    : (r: seq<WorkspaceFolder>)
    ensures !ValidName(newName) ==> r == folders
    ensures |r| == |folders|
    ensures forall i :: 0 <= i < |r| ==>
      r[i].id == folders[i].id && r[i].parentId == folders[i].parentId
      && r[i].color == folders[i].color && r[i].createdAt == folders[i].createdAt
    ensures forall i :: 0 <= i < |r| && folders[i].id != modal.folderId ==> r[i] == folders[i]
    ensures ValidName(newName) ==> forall i :: 0 <= i < |r| && folders[i].id == modal.folderId ==>
      r[i].name == Trim(newName) && IsTrimmed(r[i].name) && r[i].name != "" && r[i].modifiedAt == now
  {
    if ValidName(newName) then Map(folders, Renamed(modal.folderId, newName, now)) else folders
  }

  /** Renaming again with the same name changes nothing more. */
  lemma RenameIdempotent(folders: seq<WorkspaceFolder>, modal: RenameModal, newName: string, now: nat)
    ensures var once := ConfirmRename(folders, modal, newName, now);
      ConfirmRename(once, modal, newName, now) == once
  {
    var once := ConfirmRename(folders, modal, newName, now);
    var twice := ConfirmRename(once, modal, newName, now);
    assert forall i :: 0 <= i < |once| ==> twice[i] == once[i];
  }

  /** Renaming keeps ids, so lookups find the renamed version of the same folder. */
  lemma {:induction false} FolderByIdRenamed(folders: seq<WorkspaceFolder>, folderId: string, newName: string,
                                             now: nat, id: string)
    ensures var f := FolderById(folders, id);
      FolderById(Map(folders, Renamed(folderId, newName, now)), id)
      == if f.None? then None else Some(RenameOne(f.value, folderId, newName, now))
  {
    if folders != [] {
      var g := Renamed(folderId, newName, now);
      assert folders == [folders[0]] + folders[1..];
      assert Map(folders, g) == [g(folders[0])] + Map(folders[1..], g);
      FolderByIdCons(g(folders[0]), Map(folders[1..], g), id);
      FolderByIdCons(folders[0], folders[1..], id);
      FolderByIdRenamed(folders[1..], folderId, newName, now, id);
    }
  }

  /** After a rename the breadcrumb path is the old one with the renamed
      folder's entry updated. */
  lemma {:induction false} RenameKeepsCrumbs(folders: seq<WorkspaceFolder>, modal: RenameModal, newName: string,
                                             now: nat, id: Option<string>, fuel: nat)
    requires ValidName(newName)
    ensures Crumbs(ConfirmRename(folders, modal, newName, now), id, fuel)
            == Map(Crumbs(folders, id, fuel), Renamed(modal.folderId, newName, now))
    decreases fuel
  {
    var r := ConfirmRename(folders, modal, newName, now);
    var g := Renamed(modal.folderId, newName, now);
    if Truthy(id) && fuel > 0 {
      FolderByIdRenamed(folders, modal.folderId, newName, now, id.value);
      var f := FolderById(folders, id.value);
      if f.Some? {
        assert FolderById(r, id.value) == Some(g(f.value));
        RenameKeepsCrumbs(folders, modal, newName, now, f.value.parentId, fuel - 1);
        var up := Crumbs(folders, f.value.parentId, fuel - 1);
        assert Crumbs(r, id, fuel) == Crumbs(r, f.value.parentId, fuel - 1) + [g(f.value)];
        assert Crumbs(folders, id, fuel) == up + [f.value];
        assert Map(up + [f.value], g) == Map(up, g) + [g(f.value)];
      }
    }
  }

  // ---------------------------------------------------------------------
  // Deleting
  // ---------------------------------------------------------------------

  datatype WorkspaceState = WorkspaceState(
    folders: seq<WorkspaceFolder>,
    files: seq<WorkspaceFile>,
    currentFolder: string)

  const DeleteRefusal := "Cannot delete folder with contents. Please delete all files and subfolders first."

  /** Some folder has `folderId` as parent, or some file is in it. */
  predicate HasContents(folders: seq<WorkspaceFolder>, files: seq<WorkspaceFile>, folderId: string) {
    (exists i :: 0 <= i < |folders| && folders[i].parentId == Some(folderId))
    || (exists i :: 0 <= i < |files| && files[i].folderId == folderId)
  }

  /** The check agrees with what the tree and the grid display: a folder has
      contents exactly when it shows children or files. */
  lemma HasContentsIff(folders: seq<WorkspaceFolder>, files: seq<WorkspaceFile>, folderId: string)
    ensures HasContents(folders, files, folderId) <==>
      ChildFolders(folders, folderId) != [] || FolderFiles(files, folderId) != []
  {
    ChildFoldersEmpty(folders, folderId);
    EmptyFolder(files, folderId);
  }

  function NotId(id: string): WorkspaceFolder -> bool {
    (f: WorkspaceFolder) => f.id != id
  }

  function NotFileId(id: string): WorkspaceFile -> bool {
    (f: WorkspaceFile) => f.id != id
  }

  /** `folders.filter(f => f.id !== id)`. */
  function WithoutFolder(folders: seq<WorkspaceFolder>, id: string): (r: seq<WorkspaceFolder>)
    ensures forall f :: f in r <==> f in folders && f.id != id
  {
    Filter(folders, NotId(id))
  }

  /** `files.filter(f => f.id !== id)`. */
  function WithoutFile(files: seq<WorkspaceFile>, id: string): (r: seq<WorkspaceFile>)
    ensures forall f :: f in r <==> f in files && f.id != id
  {
    Filter(files, NotFileId(id))
  }

  /** `handleDeleteFolder`: refused with an alert while the folder has
      contents; otherwise the folder goes, and the view moves to 'root' if it
      was the current folder. */
  function DeleteFolder(s: WorkspaceState, folderId: string): (r: Result<WorkspaceState>)
    ensures r.Err? <==> HasContents(s.folders, s.files, folderId)
    ensures r.Err? ==> r.message == DeleteRefusal
    ensures r.Ok? ==> r.value.files == s.files
    ensures r.Ok? ==> forall f :: f in r.value.folders <==> f in s.folders && f.id != folderId
    ensures r.Ok? ==> (r.value.currentFolder == "root" <==> s.currentFolder in {folderId, "root"})
    ensures r.Ok? && s.currentFolder != folderId ==> r.value.currentFolder == s.currentFolder
  {
    if HasContents(s.folders, s.files, folderId) then Err(DeleteRefusal)
    else
      Ok(WorkspaceState(WithoutFolder(s.folders, folderId), s.files,
                        if s.currentFolder == folderId then "root" else s.currentFolder))
  }

  lemma {:induction false} FolderByIdWithout(folders: seq<WorkspaceFolder>, d: string, id: string)
    requires id != d
    ensures FolderById(WithoutFolder(folders, d), id) == FolderById(folders, id)
  {
    if folders != [] {
      var x, rest := folders[0], folders[1..];
      assert folders == [x] + rest;
      FolderByIdWithout(rest, d, id);
      FolderByIdCons(x, rest, id);
      if x.id != d {
        assert WithoutFolder(folders, d) == [x] + WithoutFolder(rest, d);
        FolderByIdCons(x, WithoutFolder(rest, d), id);
      } else {
        assert WithoutFolder(folders, d) == WithoutFolder(rest, d);
      }
    }
  }

  /** Removing a folder no folder refers to leaves every other path alone. */
  lemma {:induction false} WithoutFolderCrumbs(folders: seq<WorkspaceFolder>, d: string, id: Option<string>, fuel: nat)
    requires forall i :: 0 <= i < |folders| ==> folders[i].parentId != Some(d)
    requires Truthy(id) ==> id.value != d
    ensures Crumbs(WithoutFolder(folders, d), id, fuel) == Crumbs(folders, id, fuel)
    decreases fuel
  {
    if Truthy(id) && fuel > 0 {
      FolderByIdWithout(folders, d, id.value);
      var f := FolderById(folders, id.value);
      if f.Some? {
        FolderByIdSpec(folders, id.value);
        WithoutFolderCrumbs(folders, d, f.value.parentId, fuel - 1);
      }
    }
  }


  /** Deleting an empty folder leaves every other folder's path unchanged. */
  lemma DeleteKeepsCrumbs(s: WorkspaceState, d: string, id: Option<string>, fuel: nat)
    requires DeleteFolder(s, d).Ok?
    requires Truthy(id) ==> id.value != d
    ensures Crumbs(DeleteFolder(s, d).value.folders, id, fuel) == Crumbs(s.folders, id, fuel)
  {
    WithoutFolderCrumbs(s.folders, d, id, fuel);
  }

  datatype ItemKind = FolderItem | FileItem

  /** The delete confirmation dialog. */
  datatype DeleteModal = DeleteModal(isOpen: bool, kind: ItemKind, id: string, name: string)

  const ClosedDeleteModal := DeleteModal(false, FileItem, "", "")

  /** The tree's delete entry: opens the dialog on an existing folder. */
  function DeleteFolderRequest(folders: seq<WorkspaceFolder>, folderId: string): (m: Option<DeleteModal>)
    ensures m.None? <==> forall i :: 0 <= i < |folders| ==> folders[i].id != folderId
    ensures m.Some? ==> m.value.isOpen && m.value.kind == FolderItem && m.value.id == folderId
                        && exists i :: 0 <= i < |folders| && folders[i].id == folderId && folders[i].name == m.value.name
  {
    FolderByIdSpec(folders, folderId);
    match FolderById(folders, folderId)
    case None => None
    case Some(f) => Some(DeleteModal(true, FolderItem, folderId, f.name))
  }

  /** `handleDeleteFile`: opens the dialog on an existing file. */
  function DeleteFileRequest(files: seq<WorkspaceFile>, fileId: string): (m: Option<DeleteModal>)
    ensures m.None? <==> FileById(files, fileId).None?
    ensures m.Some? ==> m.value == DeleteModal(true, FileItem, fileId, FileById(files, fileId).value.name)
  {
    match FileById(files, fileId)
    case None => None
    case Some(f) => Some(DeleteModal(true, FileItem, fileId, f.name))
  }

  /** `confirmDelete`: a file is removed with every file of that id and
      nothing else changes; a folder goes through `DeleteFolder`. */
  function ConfirmDelete(s: WorkspaceState, m: DeleteModal): (r: Result<WorkspaceState>)
    ensures m.kind == FileItem ==>
      && r.Ok? && r.value.folders == s.folders && r.value.currentFolder == s.currentFolder
      && (forall f :: f in r.value.files <==> f in s.files && f.id != m.id)
    ensures m.kind == FolderItem ==> r == DeleteFolder(s, m.id)
  {
    if m.kind == FileItem then Ok(s.(files := WithoutFile(s.files, m.id)))
    else DeleteFolder(s, m.id)
  }

  // ---------------------------------------------------------------------
  // Uploading a file
  // ---------------------------------------------------------------------

  /** `name.split('.').pop() || 'txt'`. */
  function FileTypeOf(name: string): (t: string)
    ensures t == "txt" <==> name == [] || name[|name| - 1] == '.' || LastPiece(name, '.') == "txt"
    ensures t != "txt" ==>
      '.' !in t && |t| <= |name| && name[|name| - |t|..] == t && (|t| == |name| || name[|name| - |t| - 1] == '.')
  {
    var ext := LastPiece(name, '.');
    if ext == "" then "txt" else ext
  }

  /** The upload handler: appends one file in the current folder, with an id
      from the clock, the type taken from its name and no sharing. */
  function UploadFile(files: seq<WorkspaceFile>, currentFolder: string, name: string, size: nat, now: nat)
    : (r: seq<WorkspaceFile>)
    ensures |r| == |files| + 1 && r[..|files|] == files
    ensures var f := r[|files|];
      f.id == "file-" + NatToString(now) && f.name == name && f.folderId == currentFolder
      && f.fileType == FileTypeOf(name) && f.size == size && f.createdAt == now && f.modifiedAt == now
      && f.sharedWith.None? && f.downloadUrl.None?
  {
    files + [WorkspaceFile("file-" + NatToString(now), name, currentFolder, FileTypeOf(name), size,
                           now, now, None, None)]
  }

  /** The upload shows up last in the current folder's grid and nowhere else. */
  lemma UploadShown(files: seq<WorkspaceFile>, currentFolder: string, name: string, size: nat, now: nat,
                    folderId: string)
    ensures var r := UploadFile(files, currentFolder, name, size, now);
      FolderFiles(r, folderId)
      == FolderFiles(files, folderId) + (if folderId == currentFolder then [r[|files|]] else [])
  {
    var r := UploadFile(files, currentFolder, name, size, now);
    var x := r[|files|];
    assert r == files + [x];
    FolderFilesAppend(files, [x], folderId);
    FolderFilesOne(x, folderId);
  }

  /** The page mounts the share dialog with its open flag and the file's
      name but without the `file` property, so the dialog draws nothing,
      open or not, and no link is ever shown. */
  lemma ShareDialogNeverShows(isOpen: bool)
    ensures ShareModal.ShownLink(None, isOpen) == None
  {
  }
}
