/**
 * The Notepad window: the text being edited, the file it belongs to, whether
 * it has unsaved edits, the font size and the three dialogs (save, open,
 * confirm close). Saving and closing go through the window store.
 */
module Notepad {
  import opened Options
  import opened Strings
  import opened WindowTypes
  import opened WindowStore

  const Untitled: string := "Untitled"
  const DefaultFontSize: int := 14
  const MinFontSize: int := 8
  const MaxFontSize: int := 32
  const Extension: string := ".txt"

  /** The name a file is saved under: the typed name, with '.txt' added unless it already ends so. */
  function FinalName(name: string): (r: string)
    ensures EndsWith(r, Extension) && StartsWith(r, name)
    ensures EndsWith(name, Extension) <==> r == name
  {
    if EndsWith(name, Extension) then name
    else
      var r := name + Extension;
      assert r[|r| - |Extension|..] == Extension;
      r
  }

  /** Adding the extension once is enough: the final name of a final name is itself. */
  lemma FinalNameIdempotent(name: string)
    ensures FinalName(FinalName(name)) == FinalName(name)
  {
  }

  /** The name proposed in the Save dialog: empty for an untitled document. */
  function ProposedName(fileName: string): (r: string)
    ensures fileName != Untitled ==> r == fileName
    ensures r == "" <==> fileName == Untitled || fileName == ""
  {
    if fileName == Untitled then "" else fileName
  }

  /** The status bar's line count: the pieces between newlines. */
  function LineCount(content: string): (r: nat)
    ensures r >= 1
  {
    |Split(content, '\n')|
  }

  /** There is one more line than there are newlines. */
  lemma LineCountIsNewlinesPlusOne(content: string)
    ensures LineCount(content) == Count(content, '\n') + 1
  {
  }

  /** Appending a newline adds exactly one line. */
  lemma {:induction false} NewlineAddsLine(content: string)
    ensures LineCount(content + "\n") == LineCount(content) + 1
  {
    CountAppend(content, "\n", '\n');
  }

  lemma {:induction false} CountAppend(a: string, b: string, c: char)
    ensures Count(a + b, c) == Count(a, c) + Count(b, c)
  {
    if a != [] {
      assert (a + b)[1..] == a[1..] + b;
      CountAppend(a[1..], b, c);
    } else {
      assert a + b == b;
    }
  }

  /** The status bar's character count: the text's `length`, in UTF-16 code units. */
  function CharCount(content: string): (r: nat)
    ensures |content| <= r <= 2 * |content|
    ensures r == |content| <==> forall i :: 0 <= i < |content| ==> (content[i] as int) < 0x1_0000
  {
    Utf16Length(content)
  }

  /** Typing text adds its own count to the character count. */
  lemma TypingAddsChars(content: string, typed: string)
    ensures CharCount(content + typed) == CharCount(content) + CharCount(typed)
  {
    Utf16LengthAppend(content, typed);
  }

  /** Zoom in: two points larger, up to the largest size. */
  function ZoomedIn(size: int): (r: int)
    ensures r <= MaxFontSize
    ensures size + 2 <= MaxFontSize ==> r == size + 2
    ensures size + 2 > MaxFontSize ==> r == MaxFontSize
  {
    if size + 2 < MaxFontSize then size + 2 else MaxFontSize
  }

  /** Zoom out: two points smaller, down to the smallest size. */
  function ZoomedOut(size: int): (r: int)
    ensures r >= MinFontSize
    ensures size - 2 >= MinFontSize ==> r == size - 2
    ensures size - 2 < MinFontSize ==> r == MinFontSize
  {
    if size - 2 > MinFontSize then size - 2 else MinFontSize
  }

  /** Away from the limits, zooming out undoes zooming in. */
  lemma ZoomOutUndoesZoomIn(size: int)
    requires MinFontSize <= size <= MaxFontSize - 2
    ensures ZoomedOut(ZoomedIn(size)) == size
  {
  }

  class Notepad {
    /** The window the editor sits in, if any; the close handler is registered for it. */
    const windowId: Option<WindowId>
    var content: string
    var fileName: string
    var currentFileId: Option<FileId>
    var fontSize: int
    var isSaveDialogOpen: bool
    var isOpenDialogOpen: bool
    var isCloseDialogOpen: bool
    var newFileName: string
    var selectedFolder: FileId
    var hasUnsavedChanges: bool

    /** The font size stays within the zoom range. */
    ghost predicate Valid()
      reads this`fontSize
    {
      MinFontSize <= fontSize <= MaxFontSize
    }

    constructor (initialContent: string, fileId: Option<FileId>, window: Option<WindowId>)
      ensures Valid()
      ensures windowId == window && content == initialContent && fileName == Untitled
      ensures currentFileId == fileId && fontSize == DefaultFontSize && !hasUnsavedChanges
      ensures !isSaveDialogOpen && !isOpenDialogOpen && !isCloseDialogOpen
      ensures newFileName == "" && selectedFolder == Named("documents")
    {
      windowId := window;
      content := initialContent;
      fileName := Untitled;
      currentFileId := fileId;
      fontSize := DefaultFontSize;
      isSaveDialogOpen := false;
      isOpenDialogOpen := false;
      isCloseDialogOpen := false;
      newFileName := "";
      selectedFolder := Named("documents");
      hasUnsavedChanges := false;
    }

    /** Loading the file the window was opened on, when the store has it: its text and name, clean. */
    method Load(store: Store, fileId: FileId)
      modifies this`content, this`fileName, this`currentFileId, this`hasUnsavedChanges
      ensures match store.GetFileById(fileId)
        case Some(f) =>
          && content == (if f.content.Some? then f.content.value else "")
          && fileName == f.name && currentFileId == Some(fileId) && !hasUnsavedChanges
        case None =>
          && content == old(content) && fileName == old(fileName)
          && currentFileId == old(currentFileId) && hasUnsavedChanges == old(hasUnsavedChanges)
    {
      match store.GetFileById(fileId)
      case Some(f) =>
        content := if f.content.Some? then f.content.value else "";
        fileName := f.name;
        currentFileId := Some(fileId);
        hasUnsavedChanges := false;
      case None =>
    }

    /** Any edit replaces the text and marks the document dirty. */
    method Edit(text: string)
      modifies this`content, this`hasUnsavedChanges
      ensures content == text && hasUnsavedChanges
    {
      content := text;
      hasUnsavedChanges := true;
    }

    /** New (also Ctrl+N): an empty, untitled, unsaved-to-nowhere and clean document. */
    method New()
      modifies this`content, this`fileName, this`currentFileId, this`hasUnsavedChanges
      ensures content == "" && fileName == Untitled && currentFileId.None? && !hasUnsavedChanges
    {
      content := "";
      fileName := Untitled;
      currentFileId := None;
      hasUnsavedChanges := false;
    }

    /** The close handler: closing is allowed iff nothing is unsaved; otherwise the confirm dialog opens. */
    method CloseRequested() returns (allow: bool)
      modifies this`isCloseDialogOpen
      ensures allow <==> !hasUnsavedChanges
      ensures isCloseDialogOpen == (old(isCloseDialogOpen) || hasUnsavedChanges)
    {
      if hasUnsavedChanges {
        isCloseDialogOpen := true;
        allow := false;
      } else {
        allow := true;
      }
    }

    /** Mounting the editor in a window registers its close handler with the store. */
    method Mount(store: Store)
      modifies store`closeHandlers
      ensures windowId.Some? ==> store.closeHandlers == old(store.closeHandlers) + {windowId.value}
      ensures windowId.None? ==> store.closeHandlers == old(store.closeHandlers)
    {
      if windowId.Some? {
        store.RegisterCloseHandler(windowId.value);
      }
    }

    /**
     * A close request for the editor's window: the store calls the handler
     * registered on mount, which reads the unsaved flag at that moment, so a
     * dirty editor keeps its window and opens the confirm dialog.
     */
    method CloseThroughStore(store: Store)
      requires store.Valid() && windowId.Some?
      modifies this`isCloseDialogOpen, store
      ensures store.Valid()
      ensures var id := windowId.value;
        store.windows == if id in old(store.closeHandlers) && hasUnsavedChanges
          then old(store.windows)
          else WithoutWindow(old(store.windows), id)
      ensures isCloseDialogOpen == (old(isCloseDialogOpen) || (windowId.value in old(store.closeHandlers) && hasUnsavedChanges))
      ensures store.files == old(store.files)
    {
      var id := windowId.value;
      var answer := true;
      if id in store.closeHandlers {
        answer := CloseRequested();
      }
      store.RequestCloseWindow(id, answer);
    }

    /** Save (also Ctrl+S): write to the current file and become clean, or ask for a name if there is none. */
    method Save(store: Store)
      requires store.Valid()
      modifies this`hasUnsavedChanges, this`newFileName, this`isSaveDialogOpen, store`files
      ensures store.Valid()
      ensures old(currentFileId).Some? ==>
        && store.files == WithContent(old(store.files), currentFileId.value, content)
        && !hasUnsavedChanges && isSaveDialogOpen == old(isSaveDialogOpen) && newFileName == old(newFileName)
      ensures old(currentFileId).None? ==>
        && store.files == old(store.files) && hasUnsavedChanges == old(hasUnsavedChanges)
        && isSaveDialogOpen && newFileName == ProposedName(fileName)
    {
      if currentFileId.Some? {
        store.UpdateFileContent(currentFileId.value, content);
        hasUnsavedChanges := false;
      } else {
        SaveAs();
      }
    }

    /** Save As (also Ctrl+Shift+S): open the Save dialog with the proposed name. */
    method SaveAs()
      modifies this`newFileName, this`isSaveDialogOpen
      ensures isSaveDialogOpen && newFileName == ProposedName(fileName)
    {
      newFileName := ProposedName(fileName);
      isSaveDialogOpen := true;
    }

    /** Typing into the Save dialog's name field. */
    method TypeName(name: string)
      modifies this`newFileName
      ensures newFileName == name
    {
      newFileName := name;
    }

    /** Picking the folder to save into. */
    method ChooseFolder(folder: FileId)
      modifies this`selectedFolder
      ensures selectedFolder == folder
    {
      selectedFolder := folder;
    }

    /**
     * Confirm in the Save dialog: a blank name does nothing; otherwise a new
     * file holding the text is added under the final name in the chosen
     * folder, and the document becomes that file, clean.
     */
    method ConfirmSave(store: Store)
      requires store.Valid()
      modifies this`currentFileId, this`fileName, this`hasUnsavedChanges, this`isSaveDialogOpen, this`newFileName
      modifies store`files, store`nextFileId
      ensures store.Valid()
      ensures IsBlank(old(newFileName)) ==>
        && store.files == old(store.files) && currentFileId == old(currentFileId) && fileName == old(fileName)
        && hasUnsavedChanges == old(hasUnsavedChanges) && isSaveDialogOpen == old(isSaveDialogOpen)
        && newFileName == old(newFileName)
      ensures !IsBlank(old(newFileName)) ==>
        && currentFileId.Some? && currentFileId.value !in FileIds(old(store.files))
        && store.files == old(store.files) + [FileItem(currentFileId.value, FinalName(old(newFileName)), File, Some(selectedFolder), Some(content))]
        && fileName == FinalName(old(newFileName)) && EndsWith(fileName, Extension)
        && !hasUnsavedChanges && !isSaveDialogOpen && newFileName == ""
    {
      TrimEmptyIffBlank(newFileName);
      if Trim(newFileName) == [] {
        return;
      }
      SaveUnder(store, FinalName(newFileName));
    }

    /** Add the text to the store as a new file with the given name and make it the document's file, clean. */
    method SaveUnder(store: Store, name: string)
      requires store.Valid()
      modifies this`currentFileId, this`fileName, this`hasUnsavedChanges, this`isSaveDialogOpen, this`newFileName
      modifies store`files, store`nextFileId
      ensures store.Valid()
      ensures currentFileId.Some? && currentFileId.value !in FileIds(old(store.files))
      ensures store.files == old(store.files) + [FileItem(currentFileId.value, name, File, Some(selectedFolder), Some(content))]
      ensures fileName == name && !hasUnsavedChanges && !isSaveDialogOpen && newFileName == ""
    {
      var id := store.AddFile(name, File, Some(selectedFolder), Some(content));
      currentFileId := Some(id);
      fileName := name;
      hasUnsavedChanges := false;
      isSaveDialogOpen := false;
      newFileName := "";
    }

    /** Open: show the Open dialog. */
    method ShowOpenDialog()
      modifies this`isOpenDialogOpen
      ensures isOpenDialogOpen
    {
      isOpenDialogOpen := true;
    }

    /** Opening an item from the Open dialog: only an existing file replaces the document, clean, and closes the dialog. */
    method OpenFile(store: Store, id: FileId)
      modifies this`content, this`fileName, this`currentFileId, this`hasUnsavedChanges, this`isOpenDialogOpen
      ensures var found := store.GetFileById(id);
        if found.Some? && found.value.kind == File then
          && content == (if found.value.content.Some? then found.value.content.value else "")
          && fileName == found.value.name && currentFileId == Some(id)
          && !hasUnsavedChanges && !isOpenDialogOpen
        else
          && content == old(content) && fileName == old(fileName) && currentFileId == old(currentFileId)
          && hasUnsavedChanges == old(hasUnsavedChanges) && isOpenDialogOpen == old(isOpenDialogOpen)
    {
      var found := store.GetFileById(id);
      if found.Some? && found.value.kind == File {
        var f := found.value;
        content := if f.content.Some? then f.content.value else "";
        fileName := f.name;
        currentFileId := Some(id);
        hasUnsavedChanges := false;
        isOpenDialogOpen := false;
      }
    }

    /** Discard in the confirm dialog: close the dialog and the window, unsaved text and all. */
    method DiscardAndClose(store: Store)
      requires store.Valid()
      modifies this`isCloseDialogOpen, store
      ensures store.Valid() && !isCloseDialogOpen
      ensures windowId.Some? ==> store.windows == WithoutWindow(old(store.windows), windowId.value)
      ensures windowId.None? ==> store.windows == old(store.windows)
      ensures store.files == old(store.files)
    {
      isCloseDialogOpen := false;
      if windowId.Some? {
        store.CloseWindow(windowId.value);
      }
    }

    /**
     * Save in the confirm dialog: with a file, write it and close the window;
     * without one, open the Save dialog instead and keep the window.
     */
    method SaveAndClose(store: Store)
      requires store.Valid()
      modifies this`isCloseDialogOpen, this`newFileName, this`isSaveDialogOpen, store
      ensures store.Valid() && !isCloseDialogOpen
      ensures currentFileId.Some? ==>
        && store.files == WithContent(old(store.files), currentFileId.value, content)
        && (windowId.Some? ==> store.windows == WithoutWindow(old(store.windows), windowId.value))
        && (windowId.None? ==> store.windows == old(store.windows))
        && isSaveDialogOpen == old(isSaveDialogOpen)
      ensures currentFileId.None? ==>
        && store.files == old(store.files) && store.windows == old(store.windows)
        && isSaveDialogOpen && newFileName == ProposedName(fileName)
    {
      if currentFileId.Some? {
        store.UpdateFileContent(currentFileId.value, content);
        isCloseDialogOpen := false;
        if windowId.Some? {
          store.CloseWindow(windowId.value);
        }
      } else {
        isCloseDialogOpen := false;
        SaveAs();
      }
    }

    method ZoomIn()
      requires Valid()
      modifies this`fontSize
      ensures Valid() && fontSize == ZoomedIn(old(fontSize))
    {
      fontSize := ZoomedIn(fontSize);
    }

    method ZoomOut()
      requires Valid()
      modifies this`fontSize
      ensures Valid() && fontSize == ZoomedOut(old(fontSize))
    {
      fontSize := ZoomedOut(fontSize);
    }

    /** The keyboard shortcuts, active while the editor or one of its dialogs has focus. */
    method KeyDown(store: Store, key: char, ctrlOrMeta: bool, shift: bool, editorFocused: bool)
      requires store.Valid()
      modifies this`content, this`fileName, this`currentFileId, this`hasUnsavedChanges
      modifies this`newFileName, this`isSaveDialogOpen, this`isOpenDialogOpen, store`files
      ensures store.Valid()
      ensures var on := (editorFocused || old(isSaveDialogOpen) || old(isOpenDialogOpen)) && ctrlOrMeta;
        !on || LowerChar(key) !in {'s', 'o', 'n'} ==>
        && store.files == old(store.files) && content == old(content) && fileName == old(fileName)
        && currentFileId == old(currentFileId) && hasUnsavedChanges == old(hasUnsavedChanges)
        && isSaveDialogOpen == old(isSaveDialogOpen) && isOpenDialogOpen == old(isOpenDialogOpen)
        && newFileName == old(newFileName)
      // What each shortcut leaves alone: the store is written only by Save with a file, the text only by New,
      // the Save dialog only by Save As or Save without a file, the Open dialog only by Open.
      ensures var on := (editorFocused || old(isSaveDialogOpen) || old(isOpenDialogOpen)) && ctrlOrMeta;
        && (!(on && LowerChar(key) == 's' && !shift && old(currentFileId).Some?) ==> store.files == old(store.files))
        && (!(on && LowerChar(key) == 'n') ==>
              content == old(content) && fileName == old(fileName) && currentFileId == old(currentFileId))
        && (!(on && LowerChar(key) == 's' && (shift || old(currentFileId).None?)) ==>
              newFileName == old(newFileName) && isSaveDialogOpen == old(isSaveDialogOpen))
        && (!(on && LowerChar(key) == 'o') ==> isOpenDialogOpen == old(isOpenDialogOpen))
        && (!(on && (LowerChar(key) == 'n' || (LowerChar(key) == 's' && !shift && old(currentFileId).Some?))) ==>
              hasUnsavedChanges == old(hasUnsavedChanges))
      ensures var on := (editorFocused || old(isSaveDialogOpen) || old(isOpenDialogOpen)) && ctrlOrMeta;
        && (on && LowerChar(key) == 's' && shift ==> isSaveDialogOpen && newFileName == ProposedName(fileName))
        && (on && LowerChar(key) == 's' && !shift && old(currentFileId).Some? ==>
              store.files == WithContent(old(store.files), old(currentFileId).value, content) && !hasUnsavedChanges)
        && (on && LowerChar(key) == 's' && !shift && old(currentFileId).None? ==>
              store.files == old(store.files) && isSaveDialogOpen && newFileName == ProposedName(fileName))
        && (on && LowerChar(key) == 'o' ==> isOpenDialogOpen)
        && (on && LowerChar(key) == 'n' ==> content == "" && fileName == Untitled && currentFileId.None? && !hasUnsavedChanges)
    {
      var inNotepad := editorFocused || isSaveDialogOpen || isOpenDialogOpen;
      if !inNotepad || !ctrlOrMeta {
        return;
      }
      var k := LowerChar(key);
      if k == 's' {
        if shift {
          SaveAs();
        } else {
          Save(store);
        }
      } else if k == 'o' {
        ShowOpenDialog();
      } else if k == 'n' {
        New();
      }
    }
  }

  /** Saving an edited document that has a file leaves it clean; without a file the edit stays unsaved until a name is given. */
  method EditThenSave(n: Notepad, store: Store, text: string)
    requires store.Valid()
    modifies n, store`files
    ensures store.Valid()
    ensures n.content == text
    ensures n.currentFileId.Some? ==> !n.hasUnsavedChanges && store.files == WithContent(old(store.files), n.currentFileId.value, text)
    ensures n.currentFileId.None? ==> n.hasUnsavedChanges && n.isSaveDialogOpen && store.files == old(store.files)
  {
    n.Edit(text);
    n.Save(store);
  }
}
