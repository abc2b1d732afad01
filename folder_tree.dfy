/** The folder tree of the workspace: which folders are roots, which are the
    children of a folder, which are expanded, and the rows the tree renders. */
module FolderTree {
  import opened Wrappers
  import opened Js
  import opened Types

  /** The expanded set starts with the id `root` alone. */
  function InitialExpanded(): (r: set<string>)
    ensures forall x :: x in r <==> x == "root"
  {
    {"root"}
  }

  /** The colour of the folder icon when the folder has none. */
  const DefaultIconColor := "#9CA3AF"

  /** `toggleFolder`: the id leaves the expanded set if it was in it and
      joins it otherwise; no other id changes. */
  function ToggleFolder(expanded: set<string>, folderId: string): (r: set<string>)
    ensures folderId in r <==> folderId !in expanded
    ensures forall x :: x != folderId ==> (x in r <==> x in expanded)
  {
    if folderId in expanded then expanded - {folderId} else expanded + {folderId}
  }

  lemma ToggleFolderTwice(expanded: set<string>, folderId: string)
    ensures ToggleFolder(ToggleFolder(expanded, folderId), folderId) == expanded
  {
  }

  /** The folders shown at the top of the tree: those without a parent. */
  function RootFolders(folders: seq<WorkspaceFolder>): (r: seq<WorkspaceFolder>)
    ensures forall f :: f in r <==> f in folders && f.parentId.None?
  {
    Filter(folders, (f: WorkspaceFolder) => f.parentId.None?)
  }

  /** The children of the folder with id `id`: those whose parent is `id`. */
  function ChildFolders(folders: seq<WorkspaceFolder>, id: string): (r: seq<WorkspaceFolder>)
    ensures forall f :: f in r <==> f in folders && f.parentId == Some(id)
  {
    Filter(folders, (f: WorkspaceFolder) => f.parentId == Some(id))
  }

  /** A folder has a child exactly when some folder names it as its parent. */
  lemma {:induction false} ChildFoldersEmpty(folders: seq<WorkspaceFolder>, id: string)
    ensures ChildFolders(folders, id) == [] <==>
            forall i :: 0 <= i < |folders| ==> folders[i].parentId != Some(id)
  {
    if ChildFolders(folders, id) != [] {
      var c := ChildFolders(folders, id)[0];
      assert c in folders;
    }
  }

  /** `folder.color || '#9CA3AF'`. */
  function IconColor(folder: WorkspaceFolder): (r: string)
    ensures Truthy(folder.color) ==> r == folder.color.value
    ensures !Truthy(folder.color) ==> r == DefaultIconColor
  {
    if Truthy(folder.color) then folder.color.value else DefaultIconColor
  }

  /** One rendered row of the tree: the folder, its depth, whether it is
      expanded, whether it is the current folder, whether it shows the
      expand/collapse button, and the rows rendered beneath it. */
  datatype Row = Row(
    folder: WorkspaceFolder,
    level: nat,
    expanded: bool,
    active: bool,
    toggleShown: bool,
    children: seq<Row>)

  /** `renderFolder`. The program recurses into the children of an expanded
      folder without a guard, so a cycle of expanded folders never ends;
      `fuel` bounds the depth, and `None` is what runs out of it. */
  function RenderFolder(folders: seq<WorkspaceFolder>, expanded: set<string>, current: string,
                        folder: WorkspaceFolder, level: nat, fuel: nat): (r: Option<Row>)
    ensures r.Some? ==>
      && r.value.folder == folder
      && r.value.level == level
      && r.value.expanded == (folder.id in expanded)
      && r.value.active == (current == folder.id)
      && r.value.toggleShown == (ChildFolders(folders, folder.id) != [])
    decreases fuel, 0
  {
    if fuel == 0 then None
    else
      var rows := Subtree(folders, expanded, current, folder, level, fuel - 1);
      if rows.None? then None
      else
        Some(Row(folder, level, folder.id in expanded, current == folder.id,
                 |ChildFolders(folders, folder.id)| > 0, rows.value))
  }

  /** The rows under a folder: those of its children one level deeper when
      it is expanded and has a child, none otherwise. */
  function Subtree(folders: seq<WorkspaceFolder>, expanded: set<string>, current: string,
                   folder: WorkspaceFolder, level: nat, fuel: nat): (r: Option<seq<Row>>)
    decreases fuel, 2
  {
    var kids := ChildFolders(folders, folder.id);
    if folder.id in expanded && |kids| > 0 then
      RenderFolders(folders, expanded, current, kids, level + 1, fuel)
    else Some([])
  }

  /** `fs.map(f => renderFolder(f, level))`. */
  function RenderFolders(folders: seq<WorkspaceFolder>, expanded: set<string>, current: string,
                         fs: seq<WorkspaceFolder>, level: nat, fuel: nat): (r: Option<seq<Row>>)
    ensures r.Some? ==> |r.value| == |fs|
    ensures r.Some? ==> forall i :: 0 <= i < |fs| ==> r.value[i].folder == fs[i] && r.value[i].level == level
    decreases fuel, 1, |fs|
  {
    if fs == [] then Some([])
    else
      match RenderFolder(folders, expanded, current, fs[0], level, fuel)
      case None => None
      case Some(row) =>
        match RenderFolders(folders, expanded, current, fs[1..], level, fuel)
        case None => None
        case Some(rows) => Some([row] + rows)
  }

  /** The children of a rendered folder are rendered exactly when it is
      expanded and has a child: one row per child, in order, one level deeper. */
  lemma RenderedChildren(folders: seq<WorkspaceFolder>, expanded: set<string>, current: string,
                         folder: WorkspaceFolder, level: nat, fuel: nat)
    requires RenderFolder(folders, expanded, current, folder, level, fuel).Some?
    ensures var row := RenderFolder(folders, expanded, current, folder, level, fuel).value;
      && (row.children != [] <==> folder.id in expanded && ChildFolders(folders, folder.id) != [])
      && (row.children != [] ==>
            && |row.children| == |ChildFolders(folders, folder.id)|
            && forall i :: 0 <= i < |row.children| ==>
                 row.children[i].folder == ChildFolders(folders, folder.id)[i]
                 && row.children[i].level == level + 1)
  {
  }

  /** The whole tree: the root folders at level 0. */
  function RenderTree(folders: seq<WorkspaceFolder>, expanded: set<string>, current: string, fuel: nat): (r: Option<seq<Row>>)
    ensures r.Some? ==> |r.value| == |RootFolders(folders)|
    ensures r.Some? ==> forall i :: 0 <= i < |r.value| ==>
      r.value[i].folder == RootFolders(folders)[i] && r.value[i].level == 0
  {
    RenderFolders(folders, expanded, current, RootFolders(folders), 0, fuel)
  }

  /** Once the fuel suffices, more fuel renders the same rows. */
  lemma {:induction false} RenderFolderFuel(folders: seq<WorkspaceFolder>, expanded: set<string>, current: string,
                                            folder: WorkspaceFolder, level: nat, fuel: nat)
    requires RenderFolder(folders, expanded, current, folder, level, fuel).Some?
    ensures RenderFolder(folders, expanded, current, folder, level, fuel + 1)
         == RenderFolder(folders, expanded, current, folder, level, fuel)
    decreases fuel, 0
  {
    SubtreeFuel(folders, expanded, current, folder, level, fuel - 1);
  }

  lemma {:induction false} SubtreeFuel(folders: seq<WorkspaceFolder>, expanded: set<string>, current: string,
                                       folder: WorkspaceFolder, level: nat, fuel: nat)
    requires Subtree(folders, expanded, current, folder, level, fuel).Some?
    ensures Subtree(folders, expanded, current, folder, level, fuel + 1)
         == Subtree(folders, expanded, current, folder, level, fuel)
    decreases fuel, 2
  {
    var kids := ChildFolders(folders, folder.id);
    if folder.id in expanded && |kids| > 0 {
      RenderFoldersFuel(folders, expanded, current, kids, level + 1, fuel);
    }
  }

  lemma {:induction false} RenderFoldersFuel(folders: seq<WorkspaceFolder>, expanded: set<string>, current: string,
                                             fs: seq<WorkspaceFolder>, level: nat, fuel: nat)
    requires RenderFolders(folders, expanded, current, fs, level, fuel).Some?
    ensures RenderFolders(folders, expanded, current, fs, level, fuel + 1)
         == RenderFolders(folders, expanded, current, fs, level, fuel)
    decreases fuel, 1, |fs|
  {
    if fs != [] {
      RenderFolderFuel(folders, expanded, current, fs[0], level, fuel);
      RenderFoldersFuel(folders, expanded, current, fs[1..], level, fuel);
    }
  }

  /** A ranking of the folders below `bound`: every folder's id has a rank
      under `bound`, and a child ranks below its parent. A forest whose
      parent links form no cycle has one (the height of each folder), so
      this is how the model says the tree is acyclic. */
  predicate Ranked(folders: seq<WorkspaceFolder>, rank: map<string, nat>, bound: nat) {
    && (forall f :: f in folders ==> f.id in rank && rank[f.id] < bound)
    && (forall f :: f in folders && f.parentId.Some? && f.parentId.value in rank ==>
          rank[f.id] < rank[f.parentId.value])
  }

  /** Folders of a ranked forest render once the fuel exceeds their ranks,
      whichever folders are expanded. */
  lemma {:induction false} RankedFoldersRender(folders: seq<WorkspaceFolder>, expanded: set<string>, current: string,
                                               rank: map<string, nat>, bound: nat,
                                               fs: seq<WorkspaceFolder>, level: nat, fuel: nat)
    requires Ranked(folders, rank, bound)
    requires forall f :: f in fs ==> f in folders && rank[f.id] < fuel
    ensures RenderFolders(folders, expanded, current, fs, level, fuel).Some?
    decreases fuel, |fs|
  {
    if fs != [] {
      var folder := fs[0];
      var kids := ChildFolders(folders, folder.id);
      if folder.id in expanded && |kids| > 0 {
        RankedChildren(folders, rank, bound, folder);
        RankedFoldersRender(folders, expanded, current, rank, bound, kids, level + 1, fuel - 1);
      }
      SubtreeRenders(folders, expanded, current, folder, level, fuel);
      RankedFoldersRender(folders, expanded, current, rank, bound, fs[1..], level, fuel);
    }
  }

  /** A folder renders when the rows under it do. */
  lemma SubtreeRenders(folders: seq<WorkspaceFolder>, expanded: set<string>, current: string,
                       folder: WorkspaceFolder, level: nat, fuel: nat)
    requires fuel > 0
    requires var kids := ChildFolders(folders, folder.id);
      folder.id in expanded && |kids| > 0 ==>
        RenderFolders(folders, expanded, current, kids, level + 1, fuel - 1).Some?
    ensures RenderFolder(folders, expanded, current, folder, level, fuel).Some?
  {
    assert Subtree(folders, expanded, current, folder, level, fuel - 1).Some?;
  }

  lemma RankedChildren(folders: seq<WorkspaceFolder>, rank: map<string, nat>, bound: nat, folder: WorkspaceFolder)
    requires Ranked(folders, rank, bound) && folder in folders
    ensures forall f :: f in ChildFolders(folders, folder.id) ==> f in folders && rank[f.id] < rank[folder.id]
  {
  }

  /** A folder of a ranked forest renders once the fuel exceeds its rank. */
  lemma RankedFolderRenders(folders: seq<WorkspaceFolder>, expanded: set<string>, current: string,
                            rank: map<string, nat>, bound: nat,
                            folder: WorkspaceFolder, level: nat, fuel: nat)
    requires Ranked(folders, rank, bound) && folder in folders && rank[folder.id] < fuel
    ensures RenderFolder(folders, expanded, current, folder, level, fuel).Some?
  {
    RankedFoldersRender(folders, expanded, current, rank, bound, [folder], level, fuel);
    assert [folder][1..] == [];
  }

  /** The tree of a forest ranked below the fuel renders in full, one row
      per root folder, whichever folders are expanded. */
  lemma RankedTreeRenders(folders: seq<WorkspaceFolder>, expanded: set<string>, current: string,
                          rank: map<string, nat>, fuel: nat)
    requires Ranked(folders, rank, fuel)
    ensures RenderTree(folders, expanded, current, fuel).Some?
    ensures |RenderTree(folders, expanded, current, fuel).value| == |RootFolders(folders)|
  {
    RankedFoldersRender(folders, expanded, current, rank, fuel, RootFolders(folders), 0, fuel);
  }

  /** A collapsed folder, or one without children, renders without recursion. */
  lemma CollapsedRenders(folders: seq<WorkspaceFolder>, expanded: set<string>, current: string,
                         folder: WorkspaceFolder, level: nat)
    requires folder.id !in expanded || ChildFolders(folders, folder.id) == []
    ensures RenderFolder(folders, expanded, current, folder, level, 1).Some?
    ensures RenderFolder(folders, expanded, current, folder, level, 1).value.children == []
  {
  }

  datatype MenuAction = NewSubfolder | Rename | Delete

  /** The right-click menu of a folder: a new subfolder always, renaming and
      deleting only for a folder other than `root`. */
  function ContextMenuItems(folderId: string): (r: seq<MenuAction>)
    ensures r != [] && r[0] == NewSubfolder
    ensures Rename in r <==> folderId != "root"
    ensures Delete in r <==> folderId != "root"
  {
    [NewSubfolder] + (if folderId != "root" then [Rename, Delete] else [])
  }
}
