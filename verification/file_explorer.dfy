/**
 * The file explorer window: the folder it shows, the back/forward history
 * of folders visited, and what double-clicking an item does.
 */
module FileExplorer {
  import opened Options
  import opened Strings
  import opened WindowTypes

  const ThisPc: FileId := Named("this-pc")

  /** The fixed entries of the 'This PC' view. */
  const ThisPcItems: seq<FileItem> := [
    FileItem(Named("desktop"), "Desktop", Folder, None, None),
    FileItem(Named("documents"), "Documents", Folder, None, None),
    FileItem(Named("downloads"), "Downloads", Folder, None, None),
    FileItem(Named("pictures"), "Pictures", Folder, None, None),
    FileItem(Named("music"), "Music", Folder, None, None),
    FileItem(Named("videos"), "Videos", Folder, None, None),
    FileItem(Named("c-drive"), "Local Disk (C:)", Folder, None, None)
  ]

  /** An id as text: a built-in folder's name, or a generated id's serial number. */
  function IdText(id: FileId): string {
    match id
    case Named(n) => n
    case Generated(k) => NatToString(k)
  }

  /** The first item with the id, as `items.find(f => f.id === id)`. */
  function FindItem(items: seq<FileItem>, id: FileId): (r: Option<FileItem>)
    ensures r.Some? ==> r.value in items && r.value.id == id
    ensures r.None? ==> forall i :: 0 <= i < |items| ==> items[i].id != id
  {
    if items == [] then None
    else if items[0].id == id then Some(items[0])
    else FindItem(items[1..], id)
  }

  /** The address bar text: 'This PC', else the first matching item's non-empty name, else the id itself. */
  function PathDisplay(current: FileId, files: seq<FileItem>): (r: string)
    ensures current == ThisPc ==> r == "This PC"
    ensures current != ThisPc ==>
      var found := FindItem(ThisPcItems + files, current);
      && (found.Some? && found.value.name != "" ==> r == found.value.name)
      && (found.None? || found.value.name == "" ==> r == IdText(current))
  {
    if current == ThisPc then "This PC"
    else
      match FindItem(ThisPcItems + files, current)
      case Some(item) => if item.name != "" then item.name else IdText(current)
      case None => IdText(current)
  }

  /** A built-in folder is shown under its own name even when the file store has an item with the same id. */
  lemma BuiltInNameWins(files: seq<FileItem>, k: nat)
    requires k < |ThisPcItems|
    ensures PathDisplay(ThisPcItems[k].id, files) == ThisPcItems[k].name
  {
    FirstMatchIsBuiltIn(files, k);
  }

  /** The built-in ids are all different, so the first match for one of them is that built-in item. */
  lemma FirstMatchIsBuiltIn(files: seq<FileItem>, k: nat)
    requires k < |ThisPcItems|
    ensures FindItem(ThisPcItems + files, ThisPcItems[k].id) == Some(ThisPcItems[k])
  {
    var all := ThisPcItems + files;
    var id := ThisPcItems[k].id;
    BuiltInIdsDistinct();
    var j := 0;
    while j < k
      invariant 0 <= j <= k
      invariant FindItem(all[j..], id) == FindItem(all, id)
    {
      assert all[j] == ThisPcItems[j] && ThisPcItems[j].id != id;
      assert all[j..][1..] == all[j + 1..];
      j := j + 1;
    }
    assert all[k..][0] == ThisPcItems[k];
  }

  /** No two built-in items share an id. */
  lemma BuiltInIdsDistinct()
    ensures forall i, j :: 0 <= i < j < |ThisPcItems| ==> ThisPcItems[i].id != ThisPcItems[j].id
  {
  }

  /** The Notepad window that double-clicking a file opens on it. */
  function NotepadFor(item: FileItem): (spec: WindowSpec)
    ensures spec.component == "Notepad" && spec.props == FileProp(item.id)
    ensures spec.title == item.name + " - Notepad"
  {
    WindowSpec(item.name + " - Notepad", "FileText", "Notepad", 150.0, 80.0, 700.0, 500.0, false, false, FileProp(item.id))
  }

  class Explorer {
    var currentPath: FileId
    var pathHistory: seq<FileId>
    var historyIndex: nat
    var selectedItem: Option<FileId>
    var editingItem: Option<FileId>

    /** The folder shown is the history entry under the cursor. */
    ghost predicate Valid()
      reads this
    {
      historyIndex < |pathHistory| && currentPath == pathHistory[historyIndex]
    }

    constructor (path: FileId)
      ensures Valid()
      ensures currentPath == path && pathHistory == [path] && historyIndex == 0
      ensures selectedItem.None? && editingItem.None?
    {
      currentPath := path;
      pathHistory := [path];
      historyIndex := 0;
      selectedItem := None;
      editingItem := None;
    }

    /** Go to a folder: forward entries are dropped, the folder becomes the newest entry, selection and renaming end. */
    method NavigateTo(id: FileId)
      requires Valid()
      modifies this
      ensures Valid()
      ensures pathHistory == old(pathHistory[..historyIndex + 1]) + [id]
      ensures historyIndex == |pathHistory| - 1 && currentPath == id
      ensures selectedItem.None? && editingItem.None?
    {
      pathHistory := pathHistory[..historyIndex + 1] + [id];
      historyIndex := |pathHistory| - 1;
      currentPath := id;
      selectedItem := None;
      editingItem := None;
    }

    /** Back: one entry older, when there is one. */
    method Back()
      requires Valid()
      modifies this`historyIndex, this`currentPath, this`selectedItem
      ensures Valid()
      ensures old(historyIndex) > 0 ==> historyIndex == old(historyIndex) - 1 && selectedItem.None?
      ensures old(historyIndex) == 0 ==> historyIndex == 0 && currentPath == old(currentPath) && selectedItem == old(selectedItem)
    {
      if historyIndex > 0 {
        historyIndex := historyIndex - 1;
        currentPath := pathHistory[historyIndex];
        selectedItem := None;
      }
    }

    /** Forward: one entry newer, when there is one. */
    method Forward()
      requires Valid()
      modifies this`historyIndex, this`currentPath, this`selectedItem
      ensures Valid()
      ensures old(historyIndex) < |pathHistory| - 1 ==> historyIndex == old(historyIndex) + 1 && selectedItem.None?
      ensures old(historyIndex) == |pathHistory| - 1 ==>
        historyIndex == old(historyIndex) && currentPath == old(currentPath) && selectedItem == old(selectedItem)
    {
      if historyIndex < |pathHistory| - 1 {
        historyIndex := historyIndex + 1;
        currentPath := pathHistory[historyIndex];
        selectedItem := None;
      }
    }

    /** Up: to 'This PC' as a new history entry, unless already there. */
    method Up()
      requires Valid()
      modifies this
      ensures Valid()
      ensures old(currentPath) == ThisPc ==>
        && pathHistory == old(pathHistory) && historyIndex == old(historyIndex) && currentPath == old(currentPath)
        && selectedItem == old(selectedItem) && editingItem == old(editingItem)
      ensures old(currentPath) != ThisPc ==>
        && currentPath == ThisPc && pathHistory == old(pathHistory[..historyIndex + 1]) + [ThisPc]
        && historyIndex == |pathHistory| - 1 && selectedItem.None? && editingItem.None?
    {
      if currentPath != ThisPc {
        NavigateTo(ThisPc);
      }
    }

    /** Double-click: a folder is entered; a file yields the Notepad window to open on it. */
    method DoubleClick(item: FileItem) returns (launch: Option<WindowSpec>)
      requires Valid()
      modifies this
      ensures Valid()
      ensures item.kind == Folder ==>
        && launch.None? && currentPath == item.id
        && pathHistory == old(pathHistory[..historyIndex + 1]) + [item.id] && historyIndex == |pathHistory| - 1
        && selectedItem.None? && editingItem.None?
      ensures item.kind == File ==>
        && launch == Some(NotepadFor(item)) && currentPath == old(currentPath)
        && pathHistory == old(pathHistory) && historyIndex == old(historyIndex)
        && selectedItem == old(selectedItem) && editingItem == old(editingItem)
    {
      if item.kind == Folder {
        NavigateTo(item.id);
        launch := None;
      } else {
        launch := Some(NotepadFor(item));
      }
    }
  }

  /** Navigating and then going back returns to the folder navigated from. */
  method NavigateThenBack(e: Explorer, id: FileId)
    requires e.Valid()
    modifies e
    ensures e.Valid() && e.currentPath == old(e.currentPath)
    ensures e.pathHistory == old(e.pathHistory[..e.historyIndex + 1]) + [id]
    ensures e.historyIndex == old(e.historyIndex) && e.pathHistory[e.historyIndex + 1] == id
  {
    e.NavigateTo(id);
    ghost var top := e.historyIndex;
    assert top > 0 && e.pathHistory[top] == id;
    e.Back();
    assert e.historyIndex + 1 == top;
  }

  /** Going back and then forward returns to the same folder. */
  method BackThenForward(e: Explorer)
    requires e.Valid() && e.historyIndex > 0
    modifies e
    ensures e.Valid() && e.currentPath == old(e.currentPath) && e.historyIndex == old(e.historyIndex)
    ensures e.pathHistory == old(e.pathHistory)
  {
    e.Back();
    e.Forward();
  }
}
