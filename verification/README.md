# Workflow desktop — a Dafny model

This project models the logic underneath a browser-rendered desktop. It covers six parts:

- **The window-manager store.** It holds the open windows, the active window and the z-index counter. It also records which windows have a close handler, and holds the simulated file store with its recycle bin and clipboard, the settings and the lock flag.
- **Window frames.** Dragging, resizing, the maximize and close buttons, snapping to edges and corners, and the snap rectangles.
- **Window selection.** The global keyboard shortcuts (Start menu, Alt+Tab, Alt+F4, Win+D and friends), the taskbar buttons and the Start-menu search.
- **The desktop.** The icon grid (snapping, occupancy, the first free cell), committing a multi-icon drag, protected deletion, renaming, the click-selection rules, the saved-layout merge and the right-click menu.
- **The terminal.** Its in-memory file tree, path resolution and lookup, the commands that read and write the tree, the history cursor and tab completion.
- **The app windows.** File Explorer navigation, Notepad's document and dialogs, Browser addresses, history, bookmarks and suggestions, and the Tasks, Email and Calendar lists. Also the Music Player and Photos, the Calculator keys, the notification time labels and the lock-screen gesture.

Components that change state field by field are classes. Examples are the store (`WindowStore.Store`), a window frame, the terminal and each app window. Method contracts relate the new state to the old one. Pure decisions and list operations are functions, and the lemmas beside them prove what the components promise. Examples of such promises are round trips, preserved invariants, idempotence, ordering and permutation.

Three conventions hold throughout:

- A handler that calls into the store returns the calls it makes, as data, in order. `WindowStore.Store.Perform` carries one out.
- Ids come from counters, so freshness is provable.
- The terminal's `commands` record of closures becomes a table from command words to a `Command` value, and `TerminalCommands.Execute` runs one. `Command` groups the commands by what they may change: `clear`, `cd`, the writers, the readers of the tree, and the rest.

Several behaviours are modelled as the code has them, even where a reader might expect otherwise:

- Minimizing clears the active window even when another window was active.
- Unsnapping restores the size the window had when the drag began.
- `snapToGrid` is not idempotent at the clamp bound (`Desktop.SnapNotIdempotentAtBound`).
- Alt+Tab with one visible window does nothing.
- Alt+F4 bypasses the close-handler veto.
- The terminal root is a bare map, so `cd /` reports "Not a directory" (`TerminalCommands.CdRootRefused`).
- A terminal directory lists names that are array indices (`2`, `10`) first, in numeric order, because a JavaScript object orders its keys that way (`TerminalFs.IndexKeysListedFirst`).
- Absolute terminal paths are not normalised.
- `mv x x` deletes `x` (`TerminalCommands.MvOntoItselfDeletes`).
- The calculator's operator key replaces the pending equation instead of chaining.
- Photos' Next, with an open photo that the favourites list does not show, goes to the list's first photo.
- A lock-screen release at exactly 150 pixels neither unlocks nor snaps back.

## Model

| member | source | states |
|---|---|---|
| WindowTypes.WindowSpec.WithIdAndZ | src/contexts/WindowContext.tsx:111-115 | the opened record carries the given id and z-index, and every other field (title, icon, component, position, size, flags, props) is the one asked for |
| WindowStore.FindWindow | src/contexts/WindowContext.tsx:172-178 | a window is found iff one with that id is open, and the one found carries that id |
| WindowStore.IndexOfActive | src/hooks/useKeyboardShortcuts.ts:33 | findIndex of the active id: the first position holding it, or -1 exactly when no window carries it |
| WindowStore.Visible | src/hooks/useKeyboardShortcuts.ts:30 | the non-minimized windows, and only those |
| WindowStore.VisibleIsFilter | src/hooks/useKeyboardShortcuts.ts:30 | the visible list is the general filter with "not minimized", in window order |
| WindowStore.WithoutWindow | src/contexts/WindowContext.tsx:124 | keeps exactly the windows whose id differs from the closed one |
| WindowStore.WithoutWindowIsFilter | src/contexts/WindowContext.tsx:124 | closing is the general filter with "id differs": the other windows, in order |
| WindowStore.WithoutAbsentWindow | src/contexts/WindowContext.tsx:124 | closing an id no window carries leaves the window list unchanged |
| WindowStore.WithoutPresentWindow | src/contexts/WindowContext.tsx:124 | with unique ids, closing a present window removes exactly one record and ids stay unique |
| WindowStore.UniqueTail | src/contexts/WindowContext.tsx:124 | dropping the first window keeps ids unique and no later window carries its id |
| WindowStore.UniqueCons | src/contexts/WindowContext.tsx:124 | a window with an id not in a list can be put in front with ids staying unique |
| WindowStore.FindFile | src/contexts/WindowContext.tsx:219-221 | a file is found iff its id is in the store, and the one found carries that id |
| WindowStore.WithoutFile | src/contexts/WindowContext.tsx:203-205 | keeps exactly the files whose id differs from the removed one |
| WindowStore.WithoutFileIsFilter | src/contexts/WindowContext.tsx:203-205 | deleting is the general filter with "id differs": the other files, in order |
| WindowStore.HeadIds | src/contexts/WindowContext.tsx:204 | the ids of a file list are the first id plus the ids of the rest |
| WindowStore.WithoutFileIds | src/contexts/WindowContext.tsx:204 | removing an id drops just that id from the id set; an absent id leaves the list unchanged |
| WindowStore.WithoutFileDistinct | src/contexts/WindowContext.tsx:204 | with distinct ids, removing a present id removes exactly one file and ids stay distinct |
| WindowStore.FilesWithIds | src/contexts/WindowContext.tsx:265 | the clipboard selection is exactly the stored files whose id is listed, never more than the store |
| WindowStore.FilesWithIdsIsFilter | src/contexts/WindowContext.tsx:265 | the clipboard selection is the general filter with "id is listed": the listed files in store order |
| WindowStore.FilesInFolder | src/contexts/WindowContext.tsx:240-242 | exactly the files whose parent is the folder |
| WindowStore.FilesInFolderIsFilter | src/contexts/WindowContext.tsx:240-242 | the folder listing is the general filter with "parent is the folder", in store order |
| WindowStore.RenamedFile | src/contexts/WindowContext.tsx:207-211 | the file with that id gets the new name; every other file and the order are unchanged |
| WindowStore.WithContent | src/contexts/WindowContext.tsx:213-217 | the file with that id gets the new content; every other file and the order are unchanged |
| WindowStore.MappedIds | src/contexts/WindowContext.tsx:208-216 | an id-preserving map keeps the id set and keeps ids distinct |
| WindowStore.MergeSettings | src/contexts/WindowContext.tsx:236-238 | each setting takes the patch's value when it supplies one and keeps the old value otherwise |
| WindowStore.PastedCons | src/contexts/WindowContext.tsx:277-291 | the paste loop is its first iteration followed by the rest with the next id |
| WindowStore.Copies | src/contexts/WindowContext.tsx:279-285 | one copy per clipboard file, in clipboard order, the k-th under the target with id counter + k |
| WindowStore.WithoutIdsAppend | src/contexts/WindowContext.tsx:289 | filtering ids out of a concatenation filters each part |
| WindowStore.WithoutFileIsWithoutIds | src/contexts/WindowContext.tsx:289 | removing one file id is filtering by the one-element id set |
| WindowStore.WithoutIdsTwice | src/contexts/WindowContext.tsx:289 | filtering two id sets in turn is filtering by their union |
| WindowStore.PasteCopyAppends | src/contexts/WindowContext.tsx:277-291 | a copy paste keeps every existing file and appends one copy per clipboard file |
| WindowStore.CutStep | src/contexts/WindowContext.tsx:286-290 | one cut iteration removes the original and appends its copy |
| WindowStore.ClipIdsCons | src/contexts/WindowContext.tsx:277 | the clipboard's ids are the first file's id plus the rest's |
| WindowStore.PasteCutMoves | src/contexts/WindowContext.tsx:277-291 | a cut paste removes every original and appends one copy per clipboard file |
| WindowStore.WithoutNoIds | src/contexts/WindowContext.tsx:289 | filtering by no ids changes nothing |
| WindowStore.GeneratedBelowStep | src/contexts/WindowContext.tsx:278 | an id the counter hands out is new to the clipboard files not yet pasted |
| WindowStore.PasteStepKeeps | src/contexts/WindowContext.tsx:277-291 | one paste iteration keeps file ids distinct, disjoint from the bin and below the advanced counter |
| WindowStore.AppendFresh | src/contexts/WindowContext.tsx:192-200 | appending a file under a fresh id keeps the id discipline of the store |
| WindowStore.PasteLoop | src/contexts/WindowContext.tsx:277-291 | the forEach over the clipboard yields the specified paste and advances the counter by one per file |
| WindowStore.PastedKeeps | src/contexts/WindowContext.tsx:277-291 | a whole paste keeps file ids distinct, disjoint from the bin's, and below the advanced counter |
| WindowStore.Store.constructor | src/contexts/WindowContext.tsx:89-97 | no windows, no active window, z counter 100, no window with a close handler, the six default folders, empty bin and clipboard, default settings, locked |
| WindowStore.Store.OpenWindow | src/contexts/WindowContext.tsx:109-120 | appends exactly one record with a fresh id whose z-index is the counter and exceeds every other window's, makes it active, increments the counter, touches nothing else |
| WindowStore.Store.CloseWindow | src/contexts/WindowContext.tsx:122-126 | removes only that window and its handler; the active id is cleared only if it named that window |
| WindowStore.Store.RequestCloseWindow | src/contexts/WindowContext.tsx:128-138 | a window with a handler whose answer is false stays, with the whole window part unchanged; without a handler, or with one answering true, exactly the close: the window and its handler go, the active id is cleared only if it named it; files, settings and lock untouched |
| WindowStore.Store.RegisterCloseHandler | src/contexts/WindowContext.tsx:140-142 | the window is recorded as having a close handler; others unchanged |
| WindowStore.Store.UnregisterCloseHandler | src/contexts/WindowContext.tsx:144-146 | the window's handler is dropped; others unchanged |
| WindowStore.Store.MinimizeWindow | src/contexts/WindowContext.tsx:148-153 | only the target is minimized, and the active id becomes none whichever window was active |
| WindowStore.Store.MaximizeWindow | src/contexts/WindowContext.tsx:155-159 | only the target's maximized flag is set; nothing else changes |
| WindowStore.Store.RestoreWindow | src/contexts/WindowContext.tsx:161-170 | clears both flags on the target, raises it strictly above every other window, activates it and increments the counter |
| WindowStore.Store.FocusWindow | src/contexts/WindowContext.tsx:172-178 | un-minimizes the target, raises it strictly above every other window, activates it and increments the counter |
| WindowStore.Store.UpdateWindowPosition | src/contexts/WindowContext.tsx:180-184 | only the target's x and y change |
| WindowStore.Store.UpdateWindowSize | src/contexts/WindowContext.tsx:186-190 | only the target's width and height change |
| WindowStore.Store.AddFile | src/contexts/WindowContext.tsx:192-201 | appends the file under an id new to the files and the bin, and returns that id |
| WindowStore.Store.DeleteFile | src/contexts/WindowContext.tsx:203-205 | removes the file with that id, nothing else |
| WindowStore.Store.RenameFile | src/contexts/WindowContext.tsx:207-211 | renames the file with that id, nothing else |
| WindowStore.Store.UpdateFileContent | src/contexts/WindowContext.tsx:213-217 | replaces that file's content, nothing else |
| WindowStore.Store.GetFileById | src/contexts/WindowContext.tsx:219-221 | finds a file iff its id is stored, and the one found carries that id |
| WindowStore.Store.GetFilesInFolder | src/contexts/WindowContext.tsx:240-242 | exactly the stored files whose parent is the folder, in store order (the general filter) |
| WindowStore.Store.UpdateSettings | src/contexts/WindowContext.tsx:236-238 | the settings become the old ones overridden field by field by the patch |
| WindowStore.Store.MoveToRecycleBin | src/contexts/WindowContext.tsx:244-250 | an existing file moves to the bin with parent 'recycle-bin'; an absent id changes nothing; the total file count is preserved |
| WindowStore.Store.RestoreFromRecycleBin | src/contexts/WindowContext.tsx:252-258 | a binned file moves back with parent 'desktop'; an absent id changes nothing; the total file count is preserved |
| WindowStore.Store.EmptyRecycleBin | src/contexts/WindowContext.tsx:260-262 | the bin is empty and nothing else changes |
| WindowStore.Store.CopyFiles | src/contexts/WindowContext.tsx:264-267 | the clipboard holds the listed files in store order (see FilesWithIdsIsFilter), marked copy |
| WindowStore.Store.CutFiles | src/contexts/WindowContext.tsx:269-272 | the clipboard holds the listed files in store order (see FilesWithIdsIsFilter), marked cut |
| WindowStore.Store.PasteFiles | src/contexts/WindowContext.tsx:274-296 | no clipboard: nothing; copy: one fresh copy per clipboard file appended, clipboard kept; cut: originals removed, copies appended, clipboard emptied |
| WindowStore.Store.MinimizeAllWindows | src/components/windows/Taskbar.tsx:187-192 | every window ends minimized and nothing else about it changes; the active id is cleared unless there was no window |
| WindowStore.Store.Perform | src/contexts/WindowContext.tsx:13-39 | carries out one store call: Open appends the record asked for under a fresh id and the next z-index and makes it active; Close and RequestClose as the methods; Minimize, Maximize, Restore, Focus, Move, Resize and MinimizeAll change just the named fields of the named windows with the active id and z counter each operation sets; Lock locks; files and settings never change, and the id counter moves only on Open |
| WindowStore.Store.LockScreen | src/contexts/WindowContext.tsx:298-300 | the screen is locked |
| WindowStore.Store.UnlockScreen | src/contexts/WindowContext.tsx:302-304 | the screen is unlocked |
| SnapLayout.GetSnapZone | src/components/windows/SnapIndicator.tsx:51-80 | for each zone, exactly which pointer positions produce it: corners before edges, bottom edge alone gives none |
| SnapLayout.GetSnapDimensions | src/components/windows/SnapIndicator.tsx:82-104 | no zone gives no rectangle; every zone's rectangle lies within the width and the height above the 48-pixel taskbar |
| SnapLayout.SnapRectanglesTile | src/components/windows/SnapIndicator.tsx:86-101 | the halves tile the width, the quarters tile the available height, and 'top' is the whole area above the taskbar |
| WindowFrame.DragCoordinate | src/components/windows/Window.tsx:82-83 | a dragged coordinate is never negative, stays at most viewport - 100 when the viewport allows, and is the pointer minus the offset whenever that is in range |
| WindowFrame.ResizedDimension | src/components/windows/Window.tsx:92-95 | the resized dimension is the larger of the minimum and start + delta |
| WindowFrame.Frame.constructor | src/components/windows/Window.tsx:26-33 | not dragging, resizing or snapped, no zone, no recorded geometry |
| WindowFrame.Frame.MouseDown | src/components/windows/Window.tsx:37-64 | control buttons: nothing; body: focus only; title bar of a maximized window: focus, restore, drag by (width/2, 15); otherwise focus, drag by the pointer offset, recording the geometry if snapped |
| WindowFrame.Frame.ResizeStart | src/components/windows/Window.tsx:66-77 | a maximized window never starts resizing; otherwise the start pointer and size are recorded |
| WindowFrame.Frame.MouseMove | src/components/windows/Window.tsx:80-98 | a drag moves the window to the clamped coordinates and tracks the zone; a resize sets the size, never below 400 by 300; otherwise nothing |
| WindowFrame.Frame.MouseUp | src/components/windows/Window.tsx:100-122 | release over a zone: the zone rectangle and snapped, recording the geometry only if not already snapped; release elsewhere while snapped: the recorded size back, position kept, record dropped; every release ends drag, resize and zone |
| WindowFrame.Frame.ToggleMaximize | src/components/windows/Window.tsx:140-147 | restore when maximized, maximize otherwise, and never snapped afterwards |
| WindowFrame.Frame.CloseButton | src/components/windows/Window.tsx:135-138 | the close button asks the store for a vetoable close of this window |
| KeyboardShortcuts.AltTabTarget | src/hooks/useKeyboardShortcuts.ts:29-41 | two or more visible windows: the visible window after the active one, wrapping, or the first visible one; exactly one visible: none; none visible: the first window if any; the target is always an open window |
| KeyboardShortcuts.HandleKeyDown | src/hooks/useKeyboardShortcuts.ts:20-123 | a bare Meta key toggles the Start menu before any other rule; Alt+Tab focuses the Alt+Tab target; Win+D minimizes every window; Alt+F4 closes the active window through the unvetoed close, or does nothing without one; only Alt+F4 closes and only Win+L locks |
| KeyboardShortcuts.AltTabSingleVisible | src/hooks/useKeyboardShortcuts.ts:32-39 | Alt+Tab with exactly one visible window does nothing |
| KeyboardShortcuts.AltTabWraps | src/hooks/useKeyboardShortcuts.ts:31-35 | with every window visible, Alt+Tab from the k-th window focuses the (k+1)-th, wrapping to the first |
| KeyboardShortcuts.AllVisible | src/hooks/useKeyboardShortcuts.ts:31 | with no window minimized, the visible list is the whole list |
| Taskbar.WindowsOf | src/components/windows/Taskbar.tsx:234 | exactly the windows of the app's component |
| Taskbar.WindowsOfIsFilter | src/components/windows/Taskbar.tsx:234 | the app's windows are the general filter with "same component", in window order |
| Taskbar.PinnedWindow | src/components/windows/Taskbar.tsx:220-232 | a new window of the app placed at x in [100, 200) and y in [50, 100), 350 by 500 for Calculator and 900 by 600 otherwise, neither minimized nor maximized |
| Taskbar.WindowButtonClick | src/components/windows/Taskbar.tsx:337-345 | a minimized window is focused, the active window is minimized, any other is focused |
| Taskbar.TaskbarClick | src/components/windows/Taskbar.tsx:233-255 | no window: open one; one window: its button rule; several: focus the one after the active one, wrapping, or the first when none is active |
| Taskbar.TaskbarClickOwnWindow | src/components/windows/Taskbar.tsx:233-255 | any call other than open names a window of the app |
| Taskbar.IsOpen | src/components/windows/Taskbar.tsx:319-320 | the open indicator shows iff some window has the app's component |
| Taskbar.IsActive | src/components/windows/Taskbar.tsx:321 | the active indicator shows iff one of the app's windows is the active window, and only on an open app |
| Taskbar.FilterApps | src/components/windows/Taskbar.tsx:469 | exactly the apps whose name contains the query, ignoring case |
| Taskbar.FilterAppsIsFilter | src/components/windows/Taskbar.tsx:469 | the search result is the general filter with "name contains the query, ignoring case", in menu order |
| Taskbar.EmptyQueryKeepsAll | src/components/windows/Taskbar.tsx:469 | an empty search shows every app, in menu order |
| ContextMenu.AdjustPosition | src/components/windows/ContextMenu.tsx:25-39 | x unchanged if the menu fits, else screen width - menu width - 8; y unchanged if it clears the taskbar strip, else screen height - menu height - 56; the adjusted menu always fits |
| ContextMenu.AdjustIsIdempotent | src/components/windows/ContextMenu.tsx:25-39 | adjusting an adjusted position changes nothing |
| ContextMenu.Enter | src/components/windows/ContextMenu.tsx:60 | entering an entry with a submenu opens it; entering any other keeps the open submenu |
| ContextMenu.Leave | src/components/windows/ContextMenu.tsx:61 | leaving an entry closes the open submenu |
| ContextMenu.EnterShowsSubmenu | src/components/windows/ContextMenu.tsx:60-78 | entering an entry with a submenu shows it, and leaving it hides it |
| ContextMenu.RunAction | src/components/windows/ContextMenu.tsx:64 | an absent action does nothing; a present one runs once |
| ContextMenu.ClickItem | src/components/windows/ContextMenu.tsx:51-76 | a top-level click never closes the menu; separators and disabled entries do nothing; otherwise the entry's action runs |
| ContextMenu.ClickSubItem | src/components/windows/ContextMenu.tsx:83-86 | a submenu click runs its action, if any, and then closes the menu |
| Desktop.RoundToCell | src/components/windows/Desktop.tsx:190-191 | Math.round(v/90) for an integer v: the cell whose line lies within half a cell of v, halves rounded up |
| Desktop.SnapCoordinate | src/components/windows/Desktop.tsx:190-194 | never below 10, at most extent - size - 10 when room allows, and the nearest grid line whenever that line is inside the bounds |
| Desktop.SnapToGrid | src/components/windows/Desktop.tsx:189-196 | each coordinate is the snapped coordinate of its axis: the nearest 90-pixel grid line plus 10, clamped to [10, width - 90] and [10, height - 98]; both at least 10 |
| Desktop.SnapIsNearest | src/components/windows/Desktop.tsx:190-194 | an in-bounds snap lands on a grid line within half a cell of the input |
| Desktop.GridLineIsFixed | src/components/windows/Desktop.tsx:190-194 | a grid line inside the clamp bounds snaps to itself |
| Desktop.GridPointIsFixed | src/components/windows/Desktop.tsx:189-196 | a grid point 90k + 10 inside the clamp bounds is returned unchanged |
| Desktop.SnapNotIdempotentAtBound | src/components/windows/Desktop.tsx:189-196 | with width 1030, 990 snaps to 940 and 940 snaps on to 910: a point at the clamp bound may move down one cell |
| Desktop.SnapSettlesAfterTwo | src/components/windows/Desktop.tsx:190-194 | a second snap moves at most half a cell down, and a third changes nothing |
| Desktop.IsPositionOccupied | src/components/windows/Desktop.tsx:199-205 | true iff some icon other than the excluded one lies less than 80 px away on both axes |
| Desktop.FindNextAvailablePosition | src/components/windows/Desktop.tsx:208-222 | returns the first unoccupied cell in column-major order, every earlier cell being occupied; with no free cell, (10, count * 90 + 10) |
| Desktop.IndexOfIcon | src/components/windows/Desktop.tsx:825-826 | findIndex by id: the first index holding the id, or -1 exactly when none does |
| Desktop.SameIdsSameIndex | src/components/windows/Desktop.tsx:860 | lists with the same ids index by index find every id at the same position |
| Desktop.Unselected | src/components/windows/Desktop.tsx:869 | exactly the icons whose id is not selected |
| Desktop.UnselectedAgree | src/components/windows/Desktop.tsx:869 | moving selected icons does not change the non-selected icons the occupancy test sees |
| Desktop.MoveSelected | src/components/windows/Desktop.tsx:859-873 | one iteration of the commit keeps the ids, index by index |
| Desktop.Committed | src/components/windows/Desktop.tsx:857-876 | the commit over a run of ids keeps the ids, index by index |
| Desktop.CommitOnlyMovesHandled | src/components/windows/Desktop.tsx:857-876 | the commit changes only positions, and only of icons whose id was handled; length and order are kept |
| Desktop.CommitDistinct | src/components/windows/Desktop.tsx:857-876 | with a duplicate-free selection, each handled icon moves to its snapped target unless a non-selected icon occupies it, and every other icon stays |
| Desktop.DistinctStep | src/components/windows/Desktop.tsx:858-874 | handling one more id not handled before moves its icon as judged against the original layout and leaves the others |
| Desktop.CommitMoves | src/components/windows/Desktop.tsx:857-876 | the in-place loop over the selection yields the specified commit |
| Desktop.CommittedStep | src/components/windows/Desktop.tsx:858-874 | handling one more selected id is one more iteration on the previous result |
| Desktop.CommitDrag | src/components/windows/Desktop.tsx:844-880 | the drop's snapped offset is applied to every selected icon, each moved to its snapped target or not at all when a non-selected icon occupies it; non-selected icons, length and order unchanged |
| Desktop.WithoutIcon | src/components/windows/Desktop.tsx:584 | exactly the icons whose id differs from the deleted one |
| Desktop.WithoutIconIsFilter | src/components/windows/Desktop.tsx:584 | deleting is the general filter with "id differs", in icon order |
| Desktop.DeleteIcon | src/components/windows/Desktop.tsx:582-586 | 'this-pc', 'recycle-bin' and 'documents' cannot be deleted; any other id removes exactly the icons with that id |
| Desktop.DeleteIconIsFilter | src/components/windows/Desktop.tsx:582-586 | a protected id leaves the icons as they are; any other id filters out exactly its icons, keeping the order |
| Desktop.DeleteAbsentIcon | src/components/windows/Desktop.tsx:582-586 | deleting an id no icon carries changes nothing |
| Desktop.RenameIcon | src/components/windows/Desktop.tsx:575-580 | every icon keeps all its fields but the name; icons with that id take the new name and every other name is unchanged |
| Desktop.RenameTwice | src/components/windows/Desktop.tsx:575-580 | renaming twice is renaming once to the second name |
| Desktop.Toggled | src/components/windows/Desktop.tsx:816-822 | Ctrl-click removes a selected id and appends an unselected one |
| Desktop.ToggledIsFilter | src/components/windows/Desktop.tsx:816-822 | Ctrl-click on a selected id filters it out of the selection in order; on an unselected id it appends the id |
| Desktop.Dropped | src/components/windows/Desktop.tsx:819 | exactly the selected ids other than the removed one |
| Desktop.DroppedIsFilter | src/components/windows/Desktop.tsx:819 | removing an id is the general filter with "differs from the id", in selection order |
| Desktop.DroppedAbsent | src/components/windows/Desktop.tsx:819 | removing an unselected id changes nothing |
| Desktop.ToggleTwice | src/components/windows/Desktop.tsx:816-822 | Ctrl-clicking an unselected icon twice gives back the selection exactly |
| Desktop.DroppedAppended | src/components/windows/Desktop.tsx:819-820 | removing an id just appended is removing it from the original |
| Desktop.DroppedDistinct | src/components/windows/Desktop.tsx:819 | removing an id keeps a duplicate-free selection duplicate-free |
| Desktop.ToggleKeepsDistinct | src/components/windows/Desktop.tsx:816-822 | Ctrl-click keeps a duplicate-free selection duplicate-free |
| Desktop.IconIds | src/components/windows/Desktop.tsx:829 | the ids of a run of icons, in order |
| Desktop.SliceIndex | src/components/windows/Desktop.tsx:829 | a slice bound, negative counting from the end, always within the list |
| Desktop.SliceIndexCountsFromEnd | src/components/windows/Desktop.tsx:829 | a non-negative bound is capped at the length; a negative bound k within the length counts back to length + k; one further back is 0 |
| Desktop.Slice | src/components/windows/Desktop.tsx:829 | for in-range bounds, the sub-list between them |
| Desktop.RangeSelection | src/components/windows/Desktop.tsx:823-829 | both icons present: the ids of the contiguous run between them, including both; last selected id gone: index -1 selects only the last icon, and only if it was clicked |
| Desktop.ClickSelection | src/components/windows/Desktop.tsx:816-833 | Ctrl/Meta toggles, Shift with a selection selects the range, any other click selects just the clicked icon |
| Desktop.DragStartSelection | src/components/windows/Desktop.tsx:836-841 | dragging an unselected icon selects only it; dragging a selected one keeps the selection |
| Desktop.FindSaved | src/components/windows/Desktop.tsx:233 | the first saved icon carrying the id, or none when no saved icon carries it |
| Desktop.Extras | src/components/windows/Desktop.tsx:235 | exactly the saved icons whose id is not a default icon's |
| Desktop.ExtrasIsFilter | src/components/windows/Desktop.tsx:235 | the extras are the general filter with "no default icon has this id", in saved order |
| Desktop.MergeLayout | src/components/windows/Desktop.tsx:232-235 | every default icon in default order, differing only in its position, which is the position of the first saved icon with its id when there is one and its own otherwise; followed by exactly the saved icons that are not defaults, in saved order |
| Desktop.MergeNothingSaved | src/components/windows/Desktop.tsx:232-235 | with nothing saved, the defaults come back unchanged |
| Desktop.MergeOwnLayout | src/components/windows/Desktop.tsx:232-235 | saving the default layout and restoring it gives the defaults back, when their ids are distinct |
| Desktop.NoExtrasFromDefaults | src/components/windows/Desktop.tsx:235 | saved icons that are all defaults add no extras |
| Desktop.FirstSavedIsOwn | src/components/windows/Desktop.tsx:233 | with distinct ids, looking an icon's id up finds that icon |
| TerminalFs.Get | src/components/apps/Terminal.tsx:98-101 | an entry is found iff the key is present, and it is the entry stored under it |
| TerminalFs.Put | src/components/apps/Terminal.tsx:138 | the key maps to the new node afterwards, every other key is unchanged, and the key set gains the key |
| TerminalFs.PutExistingKeepsOrder | src/components/apps/Terminal.tsx:138 | assigning an existing key keeps every key in its place |
| TerminalFs.PutNewAppends | src/components/apps/Terminal.tsx:138 | assigning a new key that is not an array index appends it last |
| TerminalFs.PutNewInserts | src/components/apps/Terminal.tsx:138 | assigning a new key inserts it at one place and moves no other entry |
| TerminalFs.PutEntries | src/components/apps/Terminal.tsx:138 | every entry after an assignment is the new one or an old one |
| TerminalFs.NameAt | src/components/apps/Terminal.tsx:138 | a key of a map is the name of one of its entries |
| TerminalFs.ConsKeyOrdered | src/components/apps/Terminal.tsx:138 | an entry listed before none of a key-ordered map's keys may go in front of it |
| TerminalFs.PutKeepsKeyOrder | src/components/apps/Terminal.tsx:138 | assigning a key keeps a map in JavaScript's key order: array-index keys first in ascending numeric order, then the other keys |
| TerminalFs.IndexKeysListedFirst | src/components/apps/Terminal.tsx:138 | after assigning "b", "10" and "2" in that order the keys are listed as "2", "10", "b" |
| TerminalFs.Remove | src/components/apps/Terminal.tsx:136 | the key is gone afterwards and every other key is unchanged |
| TerminalFs.SegmentsAreClean | src/components/apps/Terminal.tsx:72 | the non-empty segments of a path are non-empty and free of '/' |
| TerminalFs.JoinedSegments | src/components/apps/Terminal.tsx:83 | '/' + the joined stack splits back into the stack |
| TerminalFs.Apply | src/components/apps/Terminal.tsx:75-81 | '..' pops (nothing at the root), '.' and empty segments are ignored, any other segment is pushed |
| TerminalFs.ApplyAllClean | src/components/apps/Terminal.tsx:75-81 | applying segments free of '/' keeps the directory stack clean |
| TerminalFs.ResolvedPath | src/components/apps/Terminal.tsx:67-84 | always starts with '/'; a path starting with '/' is returned unchanged, without normalising '.' or '..' |
| TerminalFs.ResolvedSegments | src/components/apps/Terminal.tsx:72-83 | a relative path names exactly the stack its segments produce from the working directory |
| TerminalFs.ResolveParent | src/components/apps/Terminal.tsx:76-77 | '..' drops the last directory and stays at the root when already there |
| TerminalFs.ResolvePath | src/components/apps/Terminal.tsx:67-84 | the push/pop loop computes the resolved path |
| TerminalFs.ParentAndName | src/components/apps/Terminal.tsx:112-116 | the name is the last non-empty segment ('' when there is none) and the parent path, starting with '/', holds the remaining segments |
| TerminalFs.Container | src/components/apps/Terminal.tsx:91-96 | a file cannot be descended into; a directory is descended into its children |
| TerminalFs.Lookup | src/components/apps/Terminal.tsx:86-105 | a path with no segments gives the root map itself |
| TerminalFs.GetNodeAtPath | src/components/apps/Terminal.tsx:86-105 | the cursor loop computes the lookup of the path |
| TerminalFs.NothingBelowFile | src/components/apps/Terminal.tsx:92-93 | a lookup through a file finds nothing |
| TerminalFs.DescendAppend | src/components/apps/Terminal.tsx:86-105 | walking two runs of segments one after the other is walking their concatenation |
| TerminalFs.LookupMissingSegment | src/components/apps/Terminal.tsx:97-99 | a path whose first segments lead to a map lacking the next segment leads nowhere |
| TerminalFs.LookupBelowFile | src/components/apps/Terminal.tsx:91-94 | a path with a file at one of its proper prefixes leads nowhere |
| TerminalFs.EntriesOf | src/components/apps/Terminal.tsx:128-132 | the entries of a descendable map node are its container |
| TerminalFs.WithEntries | src/components/apps/Terminal.tsx:128-139 | rebuilding a map node keeps its kind: a directory stays a directory, a bare map a bare map |
| TerminalFs.SetAtParent | src/components/apps/Terminal.tsx:135-139 | writing into a parent map makes the name hold the value (or nothing after a delete) and keeps the parent's kind |
| TerminalFs.SetThenDescend | src/components/apps/Terminal.tsx:118-143 | once the parent segments lead to a map, the update succeeds, the full path then leads to the value or nowhere, and the parent keeps its kind |
| TerminalFs.SetBelow | src/components/apps/Terminal.tsx:126-133 | the step of the update one segment down keeps the same guarantees |
| TerminalFs.SetThenLookup | src/components/apps/Terminal.tsx:118-143 | after writing a path whose parent is a directory, looking it up gives the value; after deleting under any map parent, nothing; the parent stays a map of the same kind |
| TerminalCommands.Keys | src/components/apps/Terminal.tsx:656 | the command names of the table, in declaration order |
| TerminalCommands.Search | src/components/apps/Terminal.tsx:622 | a command is found iff the name is listed, and it is the one listed under that name |
| TerminalCommands.Print | src/components/apps/Terminal.tsx:107-110 | one output line per text, in order; the tree, directory and screen are unchanged |
| TerminalCommands.Fail | src/components/apps/Terminal.tsx:107-110 | a single error line and no other effect |
| TerminalCommands.FirstOperand | src/components/apps/Terminal.tsx:203 | the operand found is an argument not starting with '-'; none is found only when every argument starts with '-' |
| TerminalCommands.SizeOf | src/components/apps/Terminal.tsx:230 | the size shown in a long listing is a file's JavaScript length in UTF-16 code units (between its character count and twice it), and 4096 for an empty file, a directory or a bare map; never 0 |
| TerminalCommands.SizeField | src/components/apps/Terminal.tsx:231 | the size column is at least six characters wide |
| TerminalCommands.SizeFieldReadsBack | src/components/apps/Terminal.tsx:229-231 | the size column, with its padding trimmed, reads back as the size |
| TerminalCommands.PaddedReadsBack | src/components/apps/Terminal.tsx:231 | any number right-aligned with `padStart(6)` reads back as itself once the padding is trimmed |
| TerminalCommands.TrimSpacesBefore | src/components/apps/Terminal.tsx:231 | trimming drops exactly the spaces padded in front of a number |
| TerminalCommands.LongLine | src/components/apps/Terminal.tsx:228-232 | the type letter ('d' for a directory, '-' otherwise), the fixed permissions, links and owner, the six-wide size column, the fixed date 'Jan  1 00:00' and the name as the short listing shows it |
| TerminalCommands.LongLines | src/components/apps/Terminal.tsx:227-233 | one long line per entry, in entry order |
| TerminalCommands.ShortNames | src/components/apps/Terminal.tsx:235-237 | one short name per entry, in entry order |
| TerminalCommands.RunLs | src/components/apps/Terminal.tsx:200-240 | never changes the tree or directory; a missing target is an error; a non-directory prints its own name; a directory prints its entries, '..' first under -a, on one line or one long line each under -l, and nothing when there are none |
| TerminalCommands.LsAllShowsParent | src/components/apps/Terminal.tsx:218-220 | 'ls -a' in a directory always prints, and its output starts with '../' even for an empty directory |
| TerminalCommands.RunUname | src/components/apps/Terminal.tsx:283-289 | prints exactly one line and changes nothing |
| TerminalCommands.RunKill | src/components/apps/Terminal.tsx:332-338 | prints one line, an error exactly when no operand is given, and kills nothing |
| TerminalCommands.RunExport | src/components/apps/Terminal.tsx:445-451 | prints one line, an error exactly when no argument is given, and sets nothing |
| TerminalCommands.RunMan | src/components/apps/Terminal.tsx:494-512 | no operand: an error; a known page (by lower-cased name): its lines; otherwise 'No manual entry for' the operand |
| TerminalCommands.RunCd | src/components/apps/Terminal.tsx:241-261 | never changes the tree; no operand or '~' goes home; the directory changes only silently and only to home or to a path leading to a directory node; a missing target or a non-directory is an error |
| TerminalCommands.CdRootRefused | src/components/apps/Terminal.tsx:255-258 | 'cd /' reports 'Not a directory', because the root is a bare map |
| TerminalCommands.RunCat | src/components/apps/Terminal.tsx:262-282 | never changes the tree; missing operand, missing file and directory are errors; a file prints its content |
| TerminalCommands.Matching | src/components/apps/Terminal.tsx:359-363 | exactly the lines containing the pattern, ignoring case |
| TerminalCommands.MatchingIsFilter | src/components/apps/Terminal.tsx:359-363 | grep's selection is the general filter with "contains the pattern, ignoring case", in file order |
| TerminalCommands.RunGrep | src/components/apps/Terminal.tsx:339-364 | fewer than two operands, a missing file and a directory are errors; otherwise it prints the file's lines that contain the pattern, ignoring case, in file order, and exactly those |
| TerminalCommands.FirstLines | src/components/apps/Terminal.tsx:378 | the first ten lines, or all of them when there are fewer |
| TerminalCommands.LastLines | src/components/apps/Terminal.tsx:394 | the last ten lines, or all of them when there are fewer |
| TerminalCommands.ShortFileHeadIsTail | src/components/apps/Terminal.tsx:378-394 | for ten lines or fewer, head and tail both show the whole file |
| TerminalCommands.RunHeadOrTail | src/components/apps/Terminal.tsx:365-396 | a missing operand, file or a directory is an error; a file prints its first (head) or last (tail) ten lines |
| TerminalCommands.RunWc | src/components/apps/Terminal.tsx:397-415 | a missing operand, file or a directory is an error; a file prints newline count + 1, the number of words split on JavaScript white space, and its UTF-16 length, then the operand |
| TerminalCommands.FindLines | src/components/apps/Terminal.tsx:425-432 | the listing starts with the path, every line lies under the path, and a file or depth 3 lists only the path |
| TerminalCommands.FindChildren | src/components/apps/Terminal.tsx:428-430 | every child listing lies under path + '/' |
| TerminalCommands.Under | src/components/apps/Terminal.tsx:429 | the path reached by following names starts with the starting path |
| TerminalCommands.FoundAtTop | src/components/apps/Terminal.tsx:425-432 | below a file, or with no levels left, only the starting path is found |
| TerminalCommands.FoundInDir | src/components/apps/Terminal.tsx:425-432 | below a directory, the paths found are its own and those found below one of its entries with one level fewer |
| TerminalCommands.FindLinesExactly | src/components/apps/Terminal.tsx:425-432 | find prints exactly the paths of the entries reached through directories at most three levels below the start |
| TerminalCommands.FindChildrenExactly | src/components/apps/Terminal.tsx:428-430 | the children's listings hold exactly the paths found below one of the children |
| TerminalCommands.FindChildrenAppend | src/components/apps/Terminal.tsx:428-430 | each child's listing is one block and the blocks follow the entry order, so the listing is in pre-order |
| TerminalCommands.RunFind | src/components/apps/Terminal.tsx:416-435 | a target that is not a directory is an error; a directory prints its recursive listing to depth 3 |
| TerminalCommands.TreeEntries | src/components/apps/Terminal.tsx:470-488 | one line per entry at every level, counted as either a directory or a file, each line starting with the prefix; the first line is the prefix, the first entry's connector and its name as ls shows it |
| TerminalCommands.TreeEntriesNames | src/components/apps/Terminal.tsx:473-483 | every entry has its line: the prefix, an elbow for the last entry and a tee otherwise, and its name with '/' for a directory |
| TerminalCommands.TreeEntriesFlat | src/components/apps/Terminal.tsx:473-486 | a directory without subdirectories lists one line per entry, in entry order, and counts them all as files |
| TerminalCommands.RunTree | src/components/apps/Terminal.tsx:458-493 | a target that is not a directory is an error; a directory prints its path, the tree lines, a blank line and the directory and file counts |
| TerminalCommands.RunMkdir | src/components/apps/Terminal.tsx:513-531 | an existing target or a parent that is not a directory is an error and leaves the tree; otherwise the tree changes and nothing is printed |
| TerminalCommands.MadeNodeDiffers | src/components/apps/Terminal.tsx:118-143 | writing a node where there was none, under a directory, changes the tree |
| TerminalCommands.RunTouch | src/components/apps/Terminal.tsx:532-549 | an existing target changes nothing; a parent that is not a directory is an error; otherwise an empty file is written |
| TerminalCommands.RunRm | src/components/apps/Terminal.tsx:550-568 | a missing operand or target is an error, a directory without -r/-rf is an error, otherwise the node is deleted |
| TerminalCommands.RunCopyOrMove | src/components/apps/Terminal.tsx:569-609 | fewer than two operands, a missing source or a destination parent that is not a directory is an error; otherwise the source is written at the destination and, for mv, then deleted |
| TerminalCommands.MkdirCreatesEmptyDir | src/components/apps/Terminal.tsx:530 | after a successful mkdir the path leads to an empty directory |
| TerminalCommands.TouchCreatesEmptyFile | src/components/apps/Terminal.tsx:548 | touch of a missing path under a directory makes it lead to an empty file |
| TerminalCommands.RmRemoves | src/components/apps/Terminal.tsx:567 | after a successful rm of a non-root path, the path leads nowhere |
| TerminalCommands.ParentOfFoundIsMap | src/components/apps/Terminal.tsx:86-105 | a path that leads somewhere has a parent path leading to a map |
| TerminalCommands.DescendSplit | src/components/apps/Terminal.tsx:90-102 | walking one segment past a path walks the path to a map first |
| TerminalCommands.CpCopies | src/components/apps/Terminal.tsx:587 | after a successful cp the destination leads to the source node |
| TerminalCommands.MvOntoItselfDeletes | src/components/apps/Terminal.tsx:607-608 | mv x x succeeds and leaves x gone |
| TerminalCommands.HistoryLines | src/components/apps/Terminal.tsx:290-294 | line i is two spaces, the number i + 1, two spaces and the i-th earlier command |
| TerminalCommands.Completion | src/components/apps/Terminal.tsx:652-659 | completes exactly when one command name starts with the lower-cased input, to that name plus a space |
| TerminalCommands.Candidates | src/components/apps/Terminal.tsx:656 | exactly the command names starting with the partial input |
| TerminalCommands.CandidatesIsFilter | src/components/apps/Terminal.tsx:656 | the candidates are the general filter with "starts with the input", in table order, so their number is the count of such names |
| TerminalCommands.CompletionWhenUnique | src/components/apps/Terminal.tsx:652-659 | tab completes exactly when one command name starts with the lower-cased input |
| TerminalCommands.UnknownCommand | src/components/apps/Terminal.tsx:626-628 | a word naming no command prints 'command not found' and changes nothing |
| TerminalCommands.OnlyWritersChangeTree | src/components/apps/Terminal.tsx:145-610 | only mkdir, touch, rm, cp and mv change the tree |
| TerminalCommands.OnlyCdMoves | src/components/apps/Terminal.tsx:145-610 | every command other than cd keeps the working directory |
| TerminalCommands.OnlyClearClears | src/components/apps/Terminal.tsx:145-610 | a command clears the screen exactly when it is listed under "clear" |
| TerminalCommands.ClearNamed | src/components/apps/Terminal.tsx:182 | the record lists the clear command under "clear" and under no other word |
| TerminalCommands.CdNamed | src/components/apps/Terminal.tsx:241 | the record lists the cd command under "cd" and under no other word |
| TerminalCommands.WritersNamed | src/components/apps/Terminal.tsx:513-609 | every writing command is listed under one of mkdir, touch, rm, cp and mv |
| TerminalCommands.Execute | src/components/apps/Terminal.tsx:145-610 | a command clears the screen exactly when it is clear, moves only when it is cd, and changes the tree only when it is a writer |
| TerminalCommands.ExecuteWrite | src/components/apps/Terminal.tsx:513-609 | mkdir, touch, rm, cp and mv keep the directory and do not clear the screen |
| TerminalCommands.ExecuteRead | src/components/apps/Terminal.tsx:200-493 | ls, cat, grep, head, tail, wc, find and tree change neither tree, directory nor screen |
| TerminalCommands.ExecuteReport | src/components/apps/Terminal.tsx:146-512 | the commands that only print change neither tree, directory nor screen |
| TerminalCommands.CommandCaseIgnored | src/components/apps/Terminal.tsx:621-622 | a command word runs the same command whatever its case |
| TerminalCommands.LowerIdempotent | src/components/apps/Terminal.tsx:622 | lower-casing twice is lower-casing once |
| Terminal.Prompt | src/components/apps/Terminal.tsx:65 | the prompt names the user and host and ends in '$' |
| Terminal.Recalled | src/components/apps/Terminal.tsx:639-646 | cursor 0 shows the newest entry, k the k-th older one; off the history it shows an empty line |
| Terminal.UpIndex | src/components/apps/Terminal.tsx:638 | ArrowUp moves the cursor one older and stays put exactly at the oldest entry |
| Terminal.DownIndex | src/components/apps/Terminal.tsx:642-651 | ArrowDown moves one newer, and from the newest entry or the empty line lands on the empty line |
| Terminal.UpThenDownRestores | src/components/apps/Terminal.tsx:635-651 | short of the oldest entry, ArrowDown undoes ArrowUp |
| Terminal.Terminal.constructor | src/components/apps/Terminal.tsx:51-60 | banner on screen, empty input, home directory, empty history, cursor on the empty line, the initial tree |
| Terminal.Terminal.ExecuteCommand | src/components/apps/Terminal.tsx:612-629 | the trimmed line is echoed behind the prompt; a blank line does nothing more; otherwise it is appended to the history, the cursor is reset and the command's outcome replaces tree, directory and screen |
| Terminal.Terminal.Submit | src/components/apps/Terminal.tsx:618-628 | a trimmed non-blank line runs against the old tree, directory and history, then is appended to the history with the cursor reset |
| Terminal.Terminal.Perform | src/components/apps/Terminal.tsx:621-628 | the first word (case ignored) selects the command, which sees the old tree and directory; its lines are appended, or the screen is cleared |
| Terminal.Terminal.Record | src/components/apps/Terminal.tsx:618-619 | the history grows by the line and the cursor goes back to the empty line, keeping every entry trimmed and non-empty |
| Terminal.Terminal.Enter | src/components/apps/Terminal.tsx:632-634 | runs the input line as ExecuteCommand does and empties it: the trimmed line is echoed behind the prompt; a blank line changes nothing more; otherwise the command, chosen by its first word, runs on the old tree, directory and history, its lines are appended (or the screen cleared), its tree and directory are taken, and the line goes into the history with the cursor reset |
| Terminal.Terminal.ArrowUp | src/components/apps/Terminal.tsx:635-641 | with no history nothing changes; otherwise the cursor moves one older and the input shows that entry |
| Terminal.Terminal.ArrowDown | src/components/apps/Terminal.tsx:642-651 | the cursor moves one newer and the input shows that entry, or an empty line once past the newest |
| Terminal.Terminal.Tab | src/components/apps/Terminal.tsx:652-659 | the input becomes the single command name it prefixes plus a space, and is kept when there are none or several |
| Terminal.Terminal.ClearScreen | src/components/apps/Terminal.tsx:660-663 | Ctrl+L empties the screen |
| Terminal.CleanHistoryGrows | src/components/apps/Terminal.tsx:613-618 | appending a trimmed, non-empty line keeps every history entry trimmed and non-empty |
| Terminal.Echoed | src/components/apps/Terminal.tsx:614 | the screen gains exactly one input line at its end and keeps what it had |
| Terminal.TrimmedHasWords | src/components/apps/Terminal.tsx:613-621 | a non-blank line trims to itself and splits into at least one word |
| Terminal.TrimmedIsTrim | src/components/apps/Terminal.tsx:613 | trimming is idempotent |
| FileExplorer.FindItem | src/components/apps/FileExplorer.tsx:160 | a found item is in the list and has the id; nothing is found only when no item has the id |
| FileExplorer.PathDisplay | src/components/apps/FileExplorer.tsx:158-162 | 'This PC' at the root; otherwise the first matching item's name, falling back to the id when there is no match or the name is empty |
| FileExplorer.BuiltInNameWins | src/components/apps/FileExplorer.tsx:50-58 | a built-in folder is always shown under its built-in name, whatever the file store holds |
| FileExplorer.FirstMatchIsBuiltIn | src/components/apps/FileExplorer.tsx:160 | the search over built-ins followed by files finds the built-in item for a built-in id |
| FileExplorer.BuiltInIdsDistinct | src/components/apps/FileExplorer.tsx:50-58 | no two built-in items share an id |
| FileExplorer.NotepadFor | src/components/apps/FileExplorer.tsx:168-178 | the window opened for a file is a Notepad bound to that file's id, titled after the file |
| FileExplorer.Explorer.constructor | src/components/apps/FileExplorer.tsx:33-38 | starts in the given folder with a one-entry history and nothing selected or being renamed |
| FileExplorer.Explorer.NavigateTo | src/components/apps/FileExplorer.tsx:62-69 | the forward entries are dropped, the folder is appended and becomes current, and the selection and rename are cleared |
| FileExplorer.Explorer.Back | src/components/apps/FileExplorer.tsx:71-77 | moves one entry back and clears the selection, or does nothing at the first entry |
| FileExplorer.Explorer.Forward | src/components/apps/FileExplorer.tsx:79-85 | moves one entry forward and clears the selection, or does nothing at the last entry |
| FileExplorer.Explorer.Up | src/components/apps/FileExplorer.tsx:87-91 | from any folder but This PC navigates to This PC: forward entries dropped, This PC appended and current, selection and renaming cleared; at This PC nothing changes, selection and renaming included |
| FileExplorer.Explorer.DoubleClick | src/components/apps/FileExplorer.tsx:164-180 | a folder is navigated into (history cut at the cursor plus the folder, cursor on it, selection and renaming cleared) and opens no window; a file opens its Notepad window and leaves history, selection and renaming alone |
| FileExplorer.NavigateThenBack | src/components/apps/FileExplorer.tsx:62-77 | Back after navigating returns to the folder shown before, with the new folder waiting as the forward entry |
| FileExplorer.BackThenForward | src/components/apps/FileExplorer.tsx:71-85 | Forward after Back returns to the same folder and history position, with the history unchanged |
| Notepad.FinalName | src/components/apps/Notepad.tsx:187 | the saved name always ends in '.txt' and starts with the typed name, and equals it exactly when it already ends in '.txt' |
| Notepad.FinalNameIdempotent | src/components/apps/Notepad.tsx:187 | adding the extension to a final name changes nothing |
| Notepad.ProposedName | src/components/apps/Notepad.tsx:180 | the Save dialog proposes the document's name, and an empty name exactly for an untitled (or nameless) document |
| Notepad.LineCount | src/components/apps/Notepad.tsx:152 | the status bar shows at least one line |
| Notepad.LineCountIsNewlinesPlusOne | src/components/apps/Notepad.tsx:152 | the line count is the number of newlines plus one |
| Notepad.NewlineAddsLine | src/components/apps/Notepad.tsx:152 | typing a newline adds exactly one line |
| Notepad.CountAppend | src/components/apps/Notepad.tsx:152 | the number of occurrences of a character adds up over concatenation |
| Notepad.CharCount | src/components/apps/Notepad.tsx:153 | the character count is the text's UTF-16 length: between the number of characters and twice it, and equal to it exactly when no character lies outside the Basic Multilingual Plane |
| Notepad.TypingAddsChars | src/components/apps/Notepad.tsx:153-157 | typing text adds its own count to the character count |
| Notepad.ZoomedIn | src/components/apps/Notepad.tsx:246-248 | zooming in adds 2 pixels, never going past 32 |
| Notepad.ZoomedOut | src/components/apps/Notepad.tsx:250-252 | zooming out takes 2 pixels, never going below 8 |
| Notepad.ZoomOutUndoesZoomIn | src/components/apps/Notepad.tsx:246-252 | short of the maximum, zooming out undoes zooming in |
| Notepad.Notepad.constructor | src/components/apps/Notepad.tsx:33-44 | the initial text, 'Untitled', the given file id, 14 pixels, clean, no dialog open, saving into Documents |
| Notepad.Notepad.Load | src/components/apps/Notepad.tsx:91-102 | a file the store has replaces the text and name and the document is clean; an unknown id changes nothing |
| Notepad.Notepad.Edit | src/components/apps/Notepad.tsx:155-158 | the text is replaced and marked unsaved |
| Notepad.Notepad.New | src/components/apps/Notepad.tsx:160-165 | an empty, untitled, clean document bound to no file |
| Notepad.Notepad.CloseRequested | src/components/apps/Notepad.tsx:53-67 | closing is allowed iff nothing is unsaved, and otherwise the confirm dialog opens |
| Notepad.Notepad.Mount | src/components/apps/Notepad.tsx:52-67 | an editor bound to a window registers a close handler for it; an unbound one registers nothing |
| Notepad.Notepad.CloseThroughStore | src/components/apps/Notepad.tsx:52-67 | a close request through the store asks the handler at that moment: with unsaved changes the window stays and the confirm dialog opens; otherwise the window is removed; files untouched |
| Notepad.Notepad.Save | src/components/apps/Notepad.tsx:167-177 | with a file, the store's copy gets the text and the document is clean; without one, nothing is stored and the Save dialog opens with the proposed name |
| Notepad.Notepad.SaveAs | src/components/apps/Notepad.tsx:179-182 | the Save dialog opens with the proposed name |
| Notepad.Notepad.TypeName | src/components/apps/Notepad.tsx:412 | the Save dialog's name is what was typed |
| Notepad.Notepad.ChooseFolder | src/components/apps/Notepad.tsx:427 | the target folder is the one chosen |
| Notepad.Notepad.ConfirmSave | src/components/apps/Notepad.tsx:184-199 | a blank name changes nothing; otherwise exactly one new file, with a fresh id, the final '.txt' name, the chosen folder and the text, is appended, and the document becomes that file, clean, dialog closed |
| Notepad.Notepad.SaveUnder | src/components/apps/Notepad.tsx:188-198 | the store gains exactly one file with a fresh id holding the text, and the document is bound to it, clean |
| Notepad.Notepad.ShowOpenDialog | src/components/apps/Notepad.tsx:201-203 | the Open dialog is shown |
| Notepad.Notepad.OpenFile | src/components/apps/Notepad.tsx:205-214 | only an existing file (not a folder) replaces text, name and binding, clean, and closes the dialog; anything else changes nothing |
| Notepad.Notepad.DiscardAndClose | src/components/apps/Notepad.tsx:69-74 | the dialog closes and exactly the editor's window is removed, files untouched |
| Notepad.Notepad.SaveAndClose | src/components/apps/Notepad.tsx:76-89 | with a file, its text is stored and the window closed; without one, the window stays and the Save dialog opens instead |
| Notepad.Notepad.ZoomIn | src/components/apps/Notepad.tsx:246-248 | the font size steps up within the zoom range |
| Notepad.Notepad.ZoomOut | src/components/apps/Notepad.tsx:250-252 | the font size steps down within the zoom range |
| Notepad.Notepad.KeyDown | src/components/apps/Notepad.tsx:104-146 | with focus in the editor or a dialog and Ctrl/Cmd held, 's' saves, Shift+'s' saves as, 'o' opens and 'n' starts anew (either case), each changing only what that handler changes: the store only on a save with a file, the text and binding only on 'n', the Save dialog only on a save-as or a save without a file, the Open dialog only on 'o'; any other key changes nothing |
| Notepad.EditThenSave | src/components/apps/Notepad.tsx:155-177 | an edit followed by Save leaves a bound document clean with the text in the store, and an unbound one dirty with the Save dialog open |
| Browser.Normalized | src/components/apps/Browser.tsx:95-103 | a web address is kept; text with a dot and no space gets 'https://'; anything else becomes a search address for the encoded text |
| Browser.NormalizedIsWebAddress | src/components/apps/Browser.tsx:95-103 | every navigation ends at an http(s) address, so normalizing again changes nothing |
| Browser.Visited | src/components/apps/Browser.tsx:112 | the new visit comes first, followed by the old history cut to 99 entries when it had 100 or more, and the history never exceeds 100 entries; nothing is dropped while there were fewer than 100 |
| Browser.MatchingHistory | src/components/apps/Browser.tsx:168-171 | every address returned comes from a history entry whose address or title contains the text, ignoring case, and every such entry's address is returned; defined as the general filter followed by taking the addresses, so in history order |
| Browser.MatchingBookmarks | src/components/apps/Browser.tsx:172-175 | the same, over the bookmarks, in bookmark order |
| Browser.HistoryUrls | src/components/apps/Browser.tsx:171 | the addresses of the history entries, one per entry, in order |
| Browser.BookmarkUrls | src/components/apps/Browser.tsx:175 | the addresses of the bookmarks, one per bookmark, in order |
| Browser.Take | src/components/apps/Browser.tsx:170-176 | a prefix of at most n elements, the whole sequence when it is short enough |
| Browser.Dedup | src/components/apps/Browser.tsx:176 | the same addresses, each once, in the order of their first occurrence |
| Browser.FirstAtSnoc | src/components/apps/Browser.tsx:176 | appending never moves the first occurrence of an address already present |
| Browser.DedupStep | src/components/apps/Browser.tsx:176 | one more address keeps the deduplicated list distinct, complete and in first-occurrence order |
| Browser.Suggestions | src/components/apps/Browser.tsx:162-180 | nothing when the typed text's UTF-16 length is one or less; otherwise at most five distinct addresses, exactly those among the first three matching history addresses and the first two matching bookmark addresses |
| Browser.SuggestionsMatch | src/components/apps/Browser.tsx:166-176 | every suggestion is the address of a history entry or bookmark matching the text |
| Browser.SuggestionsNeverCut | src/components/apps/Browser.tsx:170-176 | the final cut to five never removes anything |
| Browser.SuggestionsHistoryFirst | src/components/apps/Browser.tsx:170-176 | the history suggestions come before the bookmark-only suggestions |
| Browser.WithoutBookmark | src/components/apps/Browser.tsx:191-193 | exactly the bookmarks with another id remain, and a list without the id is unchanged |
| Browser.AddThenRemoveBookmark | src/components/apps/Browser.tsx:182-193 | removing a just-added bookmark with a fresh id restores the list |
| Browser.WithoutVisit | src/components/apps/Browser.tsx:199-201 | exactly the entries with another timestamp remain |
| Browser.Browser.constructor | src/components/apps/Browser.tsx:54-73 | empty input, history, bookmarks and suggestions, both panels closed |
| Browser.Browser.Navigate | src/components/apps/Browser.tsx:92-145 | blank text does nothing; otherwise the normalized address, titled by its host, is recorded first, the history stays within 100 entries, and the input and suggestions are cleared |
| Browser.Browser.InputChange | src/components/apps/Browser.tsx:162-180 | the input is the typed text and the suggestions are those for it |
| Browser.Browser.AddBookmark | src/components/apps/Browser.tsx:182-189 | the new bookmark goes first and the others follow unchanged |
| Browser.Browser.RemoveBookmark | src/components/apps/Browser.tsx:191-193 | no bookmark with the id remains and the others stay |
| Browser.Browser.RemoveHistoryEntry | src/components/apps/Browser.tsx:199-201 | no entry with the timestamp remains and the others stay |
| Browser.Browser.ClearHistory | src/components/apps/Browser.tsx:195-197 | the history is empty |
| Browser.Browser.ToggleHistory | src/components/apps/Browser.tsx:219 | the history panel flips |
| Browser.Browser.ToggleBookmarks | src/components/apps/Browser.tsx:229 | the bookmarks panel flips |
| Tasks.FlipCompleted | src/components/apps/TasksApp.tsx:95 | only the completed flag changes, and it flips |
| Tasks.FlipStarred | src/components/apps/TasksApp.tsx:101 | only the starred flag changes, and it flips |
| Tasks.Updated | src/components/apps/TasksApp.tsx:94-112 | same length; exactly the tasks with the id are transformed, the rest kept in place |
| Tasks.ToggleTwiceRestores | src/components/apps/TasksApp.tsx:93-103 | toggling completion or star twice restores the list |
| Tasks.Without | src/components/apps/TasksApp.tsx:105-107 | exactly the tasks with another id remain; a list without the id is unchanged |
| Tasks.Visible | src/components/apps/TasksApp.tsx:116-129 | exactly the tasks that match the search (case ignored), the category and the status filter |
| Tasks.UnfilteredShowsAll | src/components/apps/TasksApp.tsx:116-129 | with no search, all categories and the 'all' filter every task is shown, in order |
| Tasks.StatsOf | src/components/apps/TasksApp.tsx:149-154 | the total is the number of tasks |
| Tasks.CountersAddUp | src/components/apps/TasksApp.tsx:149-154 | completed plus active is the total, and overdue tasks are among the active ones |
| Tasks.TasksApp.constructor | src/components/apps/TasksApp.tsx:59-67 | no tasks, empty form with medium priority in 'personal', all categories, 'all' filter, no search, nothing edited |
| Tasks.TasksApp.AddTask | src/components/apps/TasksApp.tsx:73-91 | a blank title changes nothing; otherwise one open, unstarred task with the typed title and form settings goes first, and the form is reset and hidden |
| Tasks.TasksApp.ToggleTask | src/components/apps/TasksApp.tsx:93-97 | exactly the task with the id has its completion flipped |
| Tasks.TasksApp.ToggleStar | src/components/apps/TasksApp.tsx:99-103 | exactly the task with the id has its star flipped |
| Tasks.TasksApp.DeleteTask | src/components/apps/TasksApp.tsx:105-107 | no task with the id remains and the rest stay |
| Tasks.TasksApp.UpdateTaskTitle | src/components/apps/TasksApp.tsx:109-114 | only the matching task's title changes, and editing ends |
| Tasks.TasksApp.FilteredTasks | src/components/apps/TasksApp.tsx:116-129 | the view shows exactly the tasks matching the current search, category and filter |
| Email.Listed | src/components/apps/EmailApp.tsx:98-111 | exactly the emails whose subject, sender or body contains the search (case ignored) and that are starred, for the Starred view, or in the selected folder otherwise |
| Email.Badge | src/components/apps/EmailApp.tsx:89-96 | the Sent and Archive entries carry no count |
| Email.BadgeAgainstView | src/components/apps/EmailApp.tsx:89-111 | the Starred, Drafts and Trash counts equal the number of emails their unsearched view lists; the Inbox count (unread only) never exceeds it |
| Email.Updated | src/components/apps/EmailApp.tsx:114-146 | same length; exactly the emails with the id are transformed, the rest kept in place |
| Email.StarTwiceRestores | src/components/apps/EmailApp.tsx:119-124 | starring twice restores the mailbox |
| Email.ReplyTo | src/components/apps/EmailApp.tsx:436-440 | a reply goes to the sender, with 'Re: ' before the subject, and quotes the body at its end |
| Email.ForwardOf | src/components/apps/EmailApp.tsx:449-453 | a forward has no recipient, 'Fwd: ' before the subject, and the body at its end |
| Email.Mailbox.constructor | src/components/apps/EmailApp.tsx:65-82 | the given emails, the Inbox view, nothing open, not composing, no search, an empty form |
| Email.Mailbox.FilteredEmails | src/components/apps/EmailApp.tsx:98-111 | the list shows exactly the emails matching the search and the selected view |
| Email.Mailbox.SelectFolder | src/components/apps/EmailApp.tsx:240-243 | the view changes and the open email is closed |
| Email.Mailbox.MarkAsRead | src/components/apps/EmailApp.tsx:113-117 | the emails with the id become read and nothing else changes |
| Email.Mailbox.Open | src/components/apps/EmailApp.tsx:299-302 | the clicked email is shown and marked read |
| Email.Mailbox.ToggleStar | src/components/apps/EmailApp.tsx:119-124 | the star of the emails with the id flips and nothing else changes |
| Email.Mailbox.MoveToTrash | src/components/apps/EmailApp.tsx:126-136 | the emails with the id move to Trash and the open email is closed |
| Email.Mailbox.ArchiveEmail | src/components/apps/EmailApp.tsx:143-153 | the emails with the id move to Archive and the open email is closed |
| Email.Mailbox.DeleteEmail | src/components/apps/EmailApp.tsx:138-141 | exactly the emails with another id remain, and the open email is closed |
| Email.Mailbox.Write | src/components/apps/EmailApp.tsx:77-81 | the compose form holds what was written and is shown |
| Email.Mailbox.SendEmail | src/components/apps/EmailApp.tsx:155-192 | a blank recipient or subject sends nothing; otherwise one read, unstarred copy from the user goes first into Sent and the form closes empty |
| Email.Mailbox.SaveDraft | src/components/apps/EmailApp.tsx:194-216 | one read, unstarred copy goes first into Drafts, never with an empty subject, and the form closes empty |
| Email.Mailbox.Reply | src/components/apps/EmailApp.tsx:434-441 | the form opens as the reply to the open email |
| Email.Mailbox.Forward | src/components/apps/EmailApp.tsx:447-454 | the form opens as the forward of the open email |
| Calendar.TimeLeTotal | src/components/apps/CalendarApp.tsx:272 | any two start times are ordered one way or the other |
| Calendar.TimeLeTransitive | src/components/apps/CalendarApp.tsx:272 | the start-time order is transitive |
| Calendar.Insert | src/components/apps/CalendarApp.tsx:272 | inserting keeps every event and adds exactly the new one |
| Calendar.InsertSorted | src/components/apps/CalendarApp.tsx:272 | inserting into a list ordered by start time keeps it ordered |
| Calendar.PrependSorted | src/components/apps/CalendarApp.tsx:272 | an event no later than the head of an ordered list may go first |
| Calendar.InsertBehind | src/components/apps/CalendarApp.tsx:272 | an event after the head goes behind it and the list stays ordered |
| Calendar.HeadSorted | src/components/apps/CalendarApp.tsx:272 | an event no later than every event of an ordered list may head it |
| Calendar.SortByTime | src/components/apps/CalendarApp.tsx:272 | the sorted day list is a permutation of the input |
| Calendar.SortByTimeSorted | src/components/apps/CalendarApp.tsx:272 | the sorted day list is ordered by start time |
| Calendar.TimeLeReflexive | src/components/apps/CalendarApp.tsx:272 | every start time is ordered before itself |
| Calendar.InsertKeepsTies | src/components/apps/CalendarApp.tsx:272 | among the events of one start time, inserting puts the new event first and moves none of the others |
| Calendar.SortByTimeStable | src/components/apps/CalendarApp.tsx:272 | the sort is stable: the events of any one start time keep their given order |
| Calendar.DayEvents | src/components/apps/CalendarApp.tsx:126 | exactly the day's events, each as often as it occurs |
| Calendar.DayEventsSorted | src/components/apps/CalendarApp.tsx:270-272 | the day's list is shown ordered by start time |
| Calendar.MinutesOf | src/components/apps/CalendarApp.tsx:66 | a start time is read only when it has at least two ':'-separated parts |
| Calendar.MinutesOfTime | src/components/apps/CalendarApp.tsx:49-66 | an 'HH:MM' time reads as HH * 60 + MM minutes |
| Calendar.CalendarApp.constructor | src/components/apps/CalendarApp.tsx:36-52 | today selected, no events, an empty form at 09:00 with the first colour and no reminder, dialog closed |
| Calendar.CalendarApp.SelectDate | src/components/apps/CalendarApp.tsx:236 | the chosen day becomes the selection |
| Calendar.CalendarApp.AddEvent | src/components/apps/CalendarApp.tsx:87-111 | a blank title changes nothing; otherwise one event with the trimmed, non-empty title on the selected day is appended, and the form resets and closes |
| Calendar.CalendarApp.DeleteEvent | src/components/apps/CalendarApp.tsx:113-124 | exactly the events with another id remain, in order |
| Calendar.CalendarApp.SelectedDateEvents | src/components/apps/CalendarApp.tsx:126 | exactly the events on the selected day |
| Calendar.CalendarApp.CheckReminders | src/components/apps/CalendarApp.tsx:62-81 | exactly the events with a reminder, today, starting after now and at most 15 minutes away, in order |
| MusicPlayer.IndexOf | src/components/apps/MusicPlayer.tsx:138-145 | the first position holding the id, or -1 exactly when no track has it |
| MusicPlayer.NextIndex | src/components/apps/MusicPlayer.tsx:68 | the next track, wrapping from the last to the first |
| MusicPlayer.PreviousIndex | src/components/apps/MusicPlayer.tsx:109 | the previous track, wrapping from the first to the last |
| MusicPlayer.PreviousUndoesNext | src/components/apps/MusicPlayer.tsx:58-113 | stepping on and back (or back and on) returns to the same track |
| MusicPlayer.FormatTime | src/components/apps/MusicPlayer.tsx:96-100 | the text splits at ':' into the whole minutes and a two-digit seconds part that read back as seconds / 60 and seconds % 60 |
| MusicPlayer.Player.constructor | src/components/apps/MusicPlayer.tsx:44-52 | the default tracks, first track, paused at 0, volume 70, not muted, no repeat or shuffle, all tracks shown |
| MusicPlayer.Player.DisplayTracks | src/components/apps/MusicPlayer.tsx:56 | every track in the 'all' view; exactly the favourites in the favourites view |
| MusicPlayer.Player.Next | src/components/apps/MusicPlayer.tsx:58-71 | time restarts; shuffle picks a different track when there are several (track 0 when there is one); repeat keeps the track; otherwise the next track, wrapping |
| MusicPlayer.Player.Previous | src/components/apps/MusicPlayer.tsx:106-113 | after 3 seconds the track restarts; otherwise the previous track, wrapping; time restarts either way |
| MusicPlayer.Player.Tick | src/components/apps/MusicPlayer.tsx:73-94 | paused or empty: nothing; otherwise one second more, or at the track's end time 0 and the track Next would pick: a different one under shuffle, the same under repeat, otherwise the following one, wrapping |
| MusicPlayer.Player.PlayPause | src/components/apps/MusicPlayer.tsx:102-104 | playing flips |
| MusicPlayer.Player.Seek | src/components/apps/MusicPlayer.tsx:116-118 | the time is the one chosen |
| MusicPlayer.Player.SetVolume | src/components/apps/MusicPlayer.tsx:120-125 | the volume is set, and a non-zero volume unmutes |
| MusicPlayer.Player.ToggleMute | src/components/apps/MusicPlayer.tsx:127-129 | muting flips |
| MusicPlayer.Player.ToggleShuffle | src/components/apps/MusicPlayer.tsx:217 | shuffle flips |
| MusicPlayer.Player.ToggleRepeat | src/components/apps/MusicPlayer.tsx:238 | repeat flips |
| MusicPlayer.Player.SetView | src/components/apps/MusicPlayer.tsx:272-280 | the list view is the one chosen |
| MusicPlayer.Player.ToggleFavorite | src/components/apps/MusicPlayer.tsx:131-135 | exactly the track with the id has its favourite mark flipped, ids unchanged |
| MusicPlayer.Player.PlayTrack | src/components/apps/MusicPlayer.tsx:137-142 | the clicked entry of the shown list becomes the current track, from 0, playing |
| MusicPlayer.Player.DeleteTrack | src/components/apps/MusicPlayer.tsx:144-156 | the track is removed; deleting the current one stops playback and steps back one (not below 0, and not when it was the only one); deleting an earlier one shifts the index down |
| MusicPlayer.WithoutTrack | src/components/apps/MusicPlayer.tsx:155 | exactly the tracks with another id remain |
| MusicPlayer.DeleteKeepsValid | src/components/apps/MusicPlayer.tsx:144-156 | deleting a present track keeps ids distinct and the index inside the shorter list |
| MusicPlayer.RemovePresent | src/components/apps/MusicPlayer.tsx:145-155 | with distinct ids, removing the id removes exactly its one position |
| MusicPlayer.RemoveKeepsDistinct | src/components/apps/MusicPlayer.tsx:155 | removing a position keeps the ids distinct |
| MusicPlayer.DeleteOtherKeepsCurrent | src/components/apps/MusicPlayer.tsx:151-155 | deleting another track keeps the same track current |
| MusicPlayer.ShiftAround | src/components/apps/MusicPlayer.tsx:151-153 | removing a position moves later tracks down by one and leaves earlier ones |
| Photos.Shown | src/components/apps/Photos.tsx:51-53 | every photo in the 'all' view; exactly the favourites otherwise |
| Photos.ShownUnique | src/components/apps/Photos.tsx:51-53 | the shown list keeps ids distinct |
| Photos.Flipped | src/components/apps/Photos.tsx:78-81 | only the favourite mark changes, and it flips |
| Photos.Added | src/components/apps/Photos.tsx:97-108 | every uploaded photo is unmarked and stamped with the upload time |
| Photos.AddedCount | src/components/apps/Photos.tsx:97-99 | one photo per uploaded file whose type starts with 'image/' |
| Photos.AddedFromImages | src/components/apps/Photos.tsx:98-106 | every new photo comes from an image file, with its name, its object address and its fresh id |
| Photos.Reversed | src/components/apps/Photos.tsx:107 | the order reversed, as prepending one at a time gives |
| Photos.ReversedSnoc | src/components/apps/Photos.tsx:107 | prepending the last file comes out first |
| Photos.UploadStep | src/components/apps/Photos.tsx:97-108 | one more file prepends at most its own photo |
| Photos.PrependUnique | src/components/apps/Photos.tsx:107 | prepending a photo with an unused id keeps ids distinct |
| Photos.UploadKeepsUnique | src/components/apps/Photos.tsx:97-108 | uploading files with distinct, unused ids keeps ids distinct |
| Photos.LastIdUnused | src/components/apps/Photos.tsx:100 | an id no file and no photo has stays unused after the upload |
| Photos.AddedAppend | src/components/apps/Photos.tsx:97-108 | the photos from one more file are those before plus its own when it is an image |
| Photos.Gallery.constructor | src/components/apps/Photos.tsx:45-49 | the given photos, all shown, large grid, nothing open |
| Photos.Gallery.FilteredPhotos | src/components/apps/Photos.tsx:51-53 | the grid shows the photos of the current view |
| Photos.Gallery.CurrentIndex | src/components/apps/Photos.tsx:55-57 | the position of the open photo in the grid's list, or -1 exactly when none is open or it is not listed |
| Photos.Gallery.SetViewMode | src/components/apps/Photos.tsx:121-129 | the view is the one chosen |
| Photos.Gallery.ToggleGridSize | src/components/apps/Photos.tsx:141 | the grid switches between large and small |
| Photos.Gallery.PhotoClick | src/components/apps/Photos.tsx:59-62 | the clicked photo opens in the lightbox at its grid position |
| Photos.Gallery.CloseLightbox | src/components/apps/Photos.tsx:232 | the lightbox closes |
| Photos.Gallery.Previous | src/components/apps/Photos.tsx:64-68 | one step back in the grid's list; nothing at its start |
| Photos.Gallery.Next | src/components/apps/Photos.tsx:70-74 | one step on in the grid's list; nothing at its end |
| Photos.Gallery.Select | src/components/apps/Photos.tsx:66-72 | the photo at a grid position opens and the current index is that position |
| Photos.Gallery.ToggleFavorite | src/components/apps/Photos.tsx:76-83 | the matching photo is flipped in the library, and so is the open copy when it is that photo |
| Photos.Gallery.DeletePhoto | src/components/apps/Photos.tsx:85-91 | exactly the photos with another id remain; deleting the open photo closes the lightbox |
| Photos.Gallery.UploadFiles | src/components/apps/Photos.tsx:93-111 | the image files' photos come first, last file first, one per image file, and ids stay distinct |
| Photos.Gallery.PrependImages | src/components/apps/Photos.tsx:97-108 | the image files' photos are prepended one by one, last file first |
| Calculator.Sanitize | src/components/apps/Calculator.tsx:31-35 | same length; the '×', '÷' and '−' labels become '*', '/' and '-', none is left, and every other character is kept |
| Calculator.SanitizeIdempotent | src/components/apps/Calculator.tsx:31-35 | rewriting twice is rewriting once |
| Calculator.SanitizeConcat | src/components/apps/Calculator.tsx:31-35 | equation and display are rewritten independently |
| Calculator.Fact | src/components/apps/Calculator.tsx:119-127 | n! is at least 1 and at least n |
| Calculator.FactMonotone | src/components/apps/Calculator.tsx:119-127 | the factorial never decreases |
| Calculator.FactStep | src/components/apps/Calculator.tsx:123-125 | one more factor never decreases the product |
| Calculator.MulGrows | src/components/apps/Calculator.tsx:124 | multiplying by a positive whole number never decreases |
| Calculator.Factorial | src/components/apps/Calculator.tsx:119-127 | no value exactly for a negative argument; otherwise n! |
| Calculator.Calc.constructor | src/components/apps/Calculator.tsx:8-11 | display '0', no equation, basic mode, no result |
| Calculator.Calc.Number | src/components/apps/Calculator.tsx:13-21 | after a result the digit starts a new number and the equation goes; otherwise it replaces a lone '0' or is appended |
| Calculator.Calc.Operator | src/components/apps/Calculator.tsx:23-27 | the equation becomes the display followed by the operator, and the display restarts at '0' |
| Calculator.Calc.Equals | src/components/apps/Calculator.tsx:29-43 | the rewritten equation plus display is evaluated; a value is shown as the result, a failure shows 'Error' |
| Calculator.Calc.Clear | src/components/apps/Calculator.tsx:45-49 | display '0', no equation, no result |
| Calculator.Calc.Backspace | src/components/apps/Calculator.tsx:51-57 | the last character goes, but the display never empties: it becomes '0' |
| Calculator.Calc.Decimal | src/components/apps/Calculator.tsx:67-71 | the display has a point afterwards, appended only when it had none |
| Calculator.Calc.SetMode | src/components/apps/Calculator.tsx:173-182 | the mode is the one chosen |
| Calculator.NumberThenBackspace | src/components/apps/Calculator.tsx:13-57 | typing a digit and deleting it restores a display that was not '0' and not a result |
| Calculator.DecimalTwice | src/components/apps/Calculator.tsx:67-71 | pressing the point twice is pressing it once |
| NotificationCenter.Label | src/components/windows/NotificationCenter.tsx:49-57 | under a minute: 'Just now'; under an hour: the whole minutes (1-59) + 'm ago'; under a day: the whole hours (1-23) + 'h ago'; otherwise the date text |
| NotificationCenter.LabelReadsBack | src/components/windows/NotificationCenter.tsx:49-57 | the number in a minutes or hours label reads back as the elapsed whole minutes or hours |
| NotificationCenter.JustNowIffUnderAMinute | src/components/windows/NotificationCenter.tsx:49-57 | 'Just now' is shown exactly for differences under a minute |
| LockScreen.DragOffset | src/components/windows/LockScreen.tsx:41-50 | the offset stays within one viewport height above 0, follows the pointer inside that range and clamps outside it |
| LockScreen.DragOffsetMonotone | src/components/windows/LockScreen.tsx:41-50 | a pointer further up never gives a smaller drag |
| LockScreen.Lock.constructor | src/components/windows/LockScreen.tsx:12-14 | not dragging, offset 0, not unlocking |
| LockScreen.Lock.PointerDown | src/components/windows/LockScreen.tsx:36-39 | a drag starts |
| LockScreen.Lock.PointerMove | src/components/windows/LockScreen.tsx:41-50 | nothing without a drag; during one the screen follows the pointer and past 150 pixels up it unlocks, never pushed below 0 |
| LockScreen.Lock.PointerUp | src/components/windows/LockScreen.tsx:52-57 | the drag ends and a drag short of 150 pixels snaps back to 0 |
| LockScreen.Lock.Unlock | src/components/windows/LockScreen.tsx:59-64 | the unlock starts |
| LockScreen.Lock.Click | src/components/windows/LockScreen.tsx:66-68 | a click unlocks |
| LockScreen.Lock.KeyDown | src/components/windows/LockScreen.tsx:70-74 | Enter or Space unlocks and any other key does nothing |
| LockScreen.DragUpUnlocks | src/components/windows/LockScreen.tsx:36-50 | a drag started and carried more than 150 pixels up unlocks |
| Strings.TrimStart | src/components/apps/Terminal.tsx:613 | no longer than the text, and starts with a non-space unless empty |
| Strings.TrimEnd | src/components/apps/Terminal.tsx:613 | no longer than the text, and ends with a non-space unless empty |
| Strings.TrimStartIsSuffix | src/components/apps/Terminal.tsx:613 | trimming the start keeps a suffix of the text |
| Strings.TrimEndIsPrefix | src/components/apps/Terminal.tsx:613 | trimming the end keeps a prefix of the text |
| Strings.TrimStartDropsSpaces | src/components/apps/Terminal.tsx:613 | everything dropped from the start is white space |
| Strings.TrimEndDropsSpaces | src/components/apps/Terminal.tsx:613 | everything dropped from the end is white space |
| Strings.TrimEmptyIffBlank | src/components/apps/Terminal.tsx:616 | the trimmed text is empty exactly when the text is all white space |
| Strings.TrimIsInfix | src/components/apps/Terminal.tsx:613 | the trimmed text is a contiguous piece of the text |
| Strings.LowerChar | src/components/apps/Terminal.tsx:622 | capital ASCII letters map to small ones and every other character is kept |
| Strings.Lower | src/components/apps/Terminal.tsx:622 | same length, each character lower-cased |
| Strings.EmptyIsContained | src/components/apps/TasksApp.tsx:117 | every text contains the empty text |
| Strings.Split | src/components/apps/Terminal.tsx:358 | one more piece than separators, and no piece holds the separator |
| Strings.JoinSplit | src/components/apps/Terminal.tsx:358 | joining the pieces back with the separator gives the text |
| Strings.SplitNoSeparator | src/components/apps/CalendarApp.tsx:66 | a text without the separator is one piece |
| Strings.SplitAtSeparator | src/components/apps/CalendarApp.tsx:66 | a separator after a separator-free piece splits it off first |
| Strings.SplitJoin | src/components/apps/Terminal.tsx:358 | splitting joined separator-free pieces gives them back |
| Strings.NonEmpty | src/components/apps/Terminal.tsx:72 | only non-empty pieces, all from the input |
| Strings.NonEmptyIsFilter | src/components/apps/Terminal.tsx:72 | dropping empty pieces is the general filter with "non-empty", in order |
| Strings.NonEmptyKeeps | src/components/apps/Terminal.tsx:72 | pieces that are all non-empty are kept as they are |
| Strings.Words | src/components/apps/Terminal.tsx:621 | no word is empty and no word holds white space, JavaScript's Unicode set included |
| Strings.Word | src/components/apps/Terminal.tsx:621 | the longest leading run of non-space characters |
| Strings.NonBlankHasWords | src/components/apps/Terminal.tsx:621 | a text that is not all white space has a word |
| Strings.WordBeforeSpace | src/components/apps/Terminal.tsx:621 | a run of non-space characters ends where the white space begins |
| Strings.WordsOfJoined | src/components/apps/Terminal.tsx:621 | words without white space, joined by single spaces, split back into the same words in the same order |
| Strings.NatToString | src/components/apps/MusicPlayer.tsx:99 | decimal digits without a leading zero |
| Strings.ParseNat | src/components/apps/CalendarApp.tsx:66 | a number exactly when every character is a digit |
| Strings.ParsePrinted | src/components/apps/MusicPlayer.tsx:99 | a printed number reads back as itself |
| Strings.TwoDigits | src/components/apps/MusicPlayer.tsx:99 | exactly two digits |
| Strings.TwoDigitsValue | src/components/apps/MusicPlayer.tsx:99 | two printed digits read back as the number |
| Strings.PaddedTwoDigits | src/components/apps/MusicPlayer.tsx:99 | padding a number below 100 to width 2 with '0' gives its two digits |
| Strings.PadStart | src/components/apps/MusicPlayer.tsx:99 | a text at least as long as the width is kept; a shorter one is filled on the left with the pad character up to the width |
| Strings.JoinWith | src/components/apps/Terminal.tsx:235-237 | one part joins to itself and no parts to the empty text |
| Strings.JoinWithStartsWithFirst | src/components/apps/Terminal.tsx:235-237 | the joined text begins with the first part |
| Strings.JoinWithSnoc | src/components/apps/Terminal.tsx:235-237 | appending a part to a non-empty list appends the separator and then the part |
| Strings.JoinWithLength | src/components/apps/Terminal.tsx:235-237 | the joined length is the parts' lengths plus one separator between each neighbouring pair |
| Strings.Utf16Length | src/components/apps/Browser.tsx:166 | a JavaScript length counts UTF-16 code units: between the number of characters and twice it, and equal exactly when every character is in the Basic Multilingual Plane |
| Strings.Utf16LengthAppend | src/components/apps/Notepad.tsx:153 | the UTF-16 length of a concatenation is the sum of the lengths |
| Lists.Filter | src/components/apps/TasksApp.tsx:106 | exactly the kept elements, in order; nothing lost when all are kept |
| Lists.FilterAppend | src/components/apps/CalendarApp.tsx:64-80 | filtering one more element adds it at the end exactly when it is kept |
| Lists.FilterDropsOne | src/components/apps/MusicPlayer.tsx:155 | when the test rejects exactly one position, filtering removes that position and keeps the rest in order |
| Lists.MapWhere | src/components/apps/MusicPlayer.tsx:132-134 | same length; exactly the hit elements are transformed |
| Lists.MapWhereTwice | src/components/apps/Photos.tsx:77-79 | applying a self-inverse change twice to the same elements restores the list |
| Lists.CountWhere | src/components/apps/TasksApp.tsx:151-153 | the count is the length of the filtered list |
| Lists.CountWhereMonotone | src/components/apps/EmailApp.tsx:90 | a weaker condition never counts fewer |
| Lists.CountWhereSame | src/components/apps/EmailApp.tsx:91-95 | conditions that agree everywhere count the same |
| Lists.CountWhereSplits | src/components/apps/TasksApp.tsx:151-152 | complementary conditions count up to the length |
| Lists.FindIndex | src/components/apps/Photos.tsx:56 | the first position whose key matches, or -1 exactly when none does |
| Lists.FindIndexUnique | src/components/apps/Photos.tsx:56 | with distinct keys, the search for an element's key finds that element's position |
| Lists.FilterKeepsUnique | src/components/apps/Photos.tsx:52 | filtering keeps keys distinct |

## Left out

- Rendering, styling, layout and icons: the JSX, CSS classes, responsive layout and snap-overlay styles carry no logic of the model.
- localStorage persistence and JSON (de)serialisation in the store, desktop, Browser, Tasks, Email and Calendar: in-memory state only.
- Ids and timestamps built from `Date.now()`/`Math.random()` are fresh counters or parameters; `dateModified`/`createdAt` stamps are not modelled.
- React batching and stale closures: state updates are sequential. Two store calls in one event (focus after restore) therefore get different z-indices, where the component gives them the same one.
- Timers and async delays (close animation, e-mail send delay, unlock delay, playback tick, reminder polling, clocks) are direct steps (`MusicPlayer.Player.Tick`, `Calendar.CalendarApp.CheckReminders`); the desktop callback after the unlock animation is represented by the `isUnlocking` flag.
- The Calculator's `eval` is a parameter (`Calculator.Calc.Equals`); the percent, negate, reciprocal and scientific keys are floating point and not modelled, nor is the factorial of a non-integer or its overflow to Infinity.
- The Music Player's shuffle draws from `Math.random`; it is a nondeterministic choice of a different track. Its file upload (object URLs) is not modelled.
- Browser APIs: `window.open`, toasts, the clipboard, `new URL` host-name parsing and `encodeURIComponent` (the last two are function parameters of `Browser.Browser`), Blob downloads (`downloadFile`) and FileReader imports (Notepad import/export, File Explorer upload).
- Date and locale formatting (`toLocaleString`, `toLocaleDateString`, date-fns `format`, `isSameDay`): dates are day numbers and milliseconds; locale texts are parameters. The Tasks overdue test compares day numbers.
- Notifications raised by Email and Calendar (`addNotification`) are not modelled; the reminder check returns the due events instead.
- The terminal's help, neofetch, date, uptime and ps commands print nothing in the model. Their output is fixed or clock-based text that reads or changes no state. Output line ids are not modelled.
- `TerminalCommands.RunCat`, `TerminalCommands.RunLs` and the other command functions treat names as plain keys; JavaScript's inherited `Object.prototype` keys (a file named `constructor`) are not modelled.
- WindowStore.Store.RequestCloseWindow: a close handler is a closure in the source; the store records which windows have one, and the handler's answer is a parameter, which `Notepad.Notepad.CloseThroughStore` computes from the editor's state at the moment of the request.
- Desktop.RoundToCell: coordinates are integer pixels; `Math.round` of a fractional pointer coordinate is not modelled.
- Visible: its own contract states membership; `WindowStore.VisibleIsFilter` states the order. Each filter equation on these lines is a separate lemma, so that callers of the functions do not unfold it.
- WithoutWindow: its own contract states membership; its order is stated by `WindowStore.WithoutWindowIsFilter`.
- WithoutFile: its own contract states membership; its order is stated by `WindowStore.WithoutFileIsFilter`.
- FilesWithIds: its own contract states membership; its store order is stated by `WindowStore.FilesWithIdsIsFilter`.
- FilesInFolder: its own contract states membership; its order is stated by `WindowStore.FilesInFolderIsFilter`.
- WindowsOf: its own contract states membership; `Taskbar.WindowsOfIsFilter` states the window order.
- FilterApps: its own contract states membership; `Taskbar.FilterAppsIsFilter` states the menu order.
- WithoutIcon: its own contract states membership; `Desktop.WithoutIconIsFilter` states the order.
- DeleteIcon: its own contract states membership; `Desktop.DeleteIconIsFilter` states the order.
- Toggled: its own contract states membership; `Desktop.ToggledIsFilter` states the order.
- Dropped: its own contract states membership; `Desktop.DroppedIsFilter` states the order.
- Extras: its own contract states membership; `Desktop.ExtrasIsFilter` states the saved order.
- SliceIndex: its own contract states the bound; `Desktop.SliceIndexCountsFromEnd` states how a negative bound counts from the end.
- Matching: its own contract states membership; `TerminalCommands.MatchingIsFilter` states the order and repeated lines.
- Candidates: its own contract states membership; `TerminalCommands.CandidatesIsFilter` states the order and the count.
- FindLines: its own contract states the first line, the prefix and the cut-off; `TerminalCommands.FindLinesExactly` states which paths are listed and `TerminalCommands.FindChildrenAppend` the order.
- FindChildren: its own contract states the prefix; `TerminalCommands.FindChildrenExactly` and `TerminalCommands.FindChildrenAppend` state the content and order.
- TreeEntries: its own contract states the counts, the prefix and the first line; `TerminalCommands.TreeEntriesNames` and `TerminalCommands.TreeEntriesFlat` state the other lines.
- MatchingHistory: its own contract states membership; it is defined as the general filter followed by the addresses, so the first three matches are the first three in the history.
- MatchingBookmarks: likewise, in bookmark order.
- Suggestions: its own contract states the set and the cap; `Browser.SuggestionsHistoryFirst` states that history suggestions come first.
- NonEmpty: its own contract states that kept pieces are non-empty and come from the input; `Strings.NonEmptyIsFilter` states that every non-empty piece is kept, in order.
- Words: its own contract states that words are non-empty and hold no white space; `Strings.WordsOfJoined` states the round trip with single-space joining. Runs of several white-space characters are covered only through `Strings.Word`.
- JoinWith: its own contract covers zero and one part; `Strings.JoinWithSnoc` and `Strings.JoinWithLength` state the separator placement for several parts.
- Put: its own contract states the key-value view; `TerminalFs.PutNewInserts`, `TerminalFs.PutNewAppends` and `TerminalFs.PutKeepsKeyOrder` state where keys go.
- Lookup: its own contract covers the root; `TerminalFs.LookupMissingSegment`, `TerminalFs.LookupBelowFile` and `TerminalFs.SetThenLookup` state the other cases.
- Strings.Lower: case folding covers ASCII letters only; `toLowerCase` also folds other scripts.
- Notepad.Notepad.KeyDown: the key is one character, so multi-character key names never match a shortcut (as in the source, where they do not either).
- Calendar.MinutesOf: its own contract only says when a time is read; `Calendar.MinutesOfTime` states the value for every 'HH:MM' time.
- Email.Badge: its own contract covers Sent and Archive only; `Email.BadgeAgainstView` relates the other badges to the listed emails.
- Tasks.StatsOf: its own contract fixes the total only; `Tasks.CountersAddUp` relates the other counters.
- MusicPlayer.Player.DeleteTrack: the index invariant is proved only for an id that is in the library (the list offers no other); the absent-id branch is modelled as written.
- File Explorer's new-folder, delete, rename and refresh buttons only forward to store operations (`WindowStore.Store.AddFile`, `MoveToRecycleBin`, `RenameFile`) and are not modelled as separate handlers.
- Settings pages, the recycle-bin and task-manager windows, the widgets, the system tray, the video player and the system sounds are outside this model.
