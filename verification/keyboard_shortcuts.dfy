/**
 * The global keyboard shortcuts. `HandleKeyDown` decides, from the key event
 * and the current windows, which single thing the shortcut does: toggle the
 * Start menu or the widgets panel, or make one store call.
 */
module KeyboardShortcuts {
  import opened Options
  import opened WindowTypes
  import opened WindowStore

  datatype KeyEvent = KeyEvent(key: string, altKey: bool, ctrlKey: bool, shiftKey: bool, metaKey: bool)

  datatype Shortcut = ToggleStartMenu | ToggleWidgets | Call(call: StoreCall) | NoShortcut

  const TaskManagerWindow: WindowSpec :=
    WindowSpec("Task Manager", "Monitor", "TaskManager", 150.0, 80.0, 800.0, 500.0, false, false, NoProps)
  const FileExplorerWindow: WindowSpec :=
    WindowSpec("File Explorer", "Folder", "FileExplorer", 100.0, 50.0, 900.0, 600.0, false, false, NoProps)
  const SettingsWindow: WindowSpec :=
    WindowSpec("Settings", "Settings", "SettingsApp", 100.0, 50.0, 1000.0, 700.0, false, false, NoProps)

  /**
   * The window Alt+Tab brings forward. With two or more visible windows: the
   * visible window after the active one, wrapping, or the first visible one
   * when the active window is not visible. With exactly one visible window:
   * none. With none visible: the first window, if there is one.
   */
  function AltTabTarget(ws: seq<WindowState>, active: Option<WindowId>): (r: Option<WindowId>)
    ensures var vis := Visible(ws);
      |vis| > 1 && IndexOfActive(vis, active) >= 0 ==> r == Some(vis[(IndexOfActive(vis, active) + 1) % |vis|].id)
    ensures var vis := Visible(ws);
      |vis| > 1 && IndexOfActive(vis, active) < 0 ==> r == Some(vis[0].id)
    ensures |Visible(ws)| == 1 ==> r == None
    ensures |Visible(ws)| == 0 && |ws| > 0 ==> r == Some(ws[0].id)
    ensures ws == [] ==> r == None
    ensures r.Some? ==> HasWindow(ws, r.value)
  {
    var vis := Visible(ws);
    if |vis| > 1 then
      var current := IndexOfActive(vis, active);
      var next := if current + 1 == |vis| then 0 else current + 1;
      WrapNext(current, |vis|);
      var w := vis[next];
      assert w in ws;
      var i :| 0 <= i < |ws| && ws[i] == w;
      Some(w.id)
    else if |vis| == 0 && |ws| > 0 then
      Some(ws[0].id)
    else
      None
  }

  /** The position after `current` among `n`, wrapping to the first. */
  lemma WrapNext(current: int, n: nat)
    requires -1 <= current < n && n > 0
    ensures (current + 1) % n == if current + 1 == n then 0 else current + 1
  {
  }

  function IsMetaCombo(e: KeyEvent, key: string): bool {
    (e.metaKey || e.key == "Meta") && e.key == key
  }

  /** `handleKeyDown`: the rules in the order the handler tries them; the first that matches decides. */
  function HandleKeyDown(e: KeyEvent, ws: seq<WindowState>, active: Option<WindowId>): (r: Shortcut)
    ensures e.key == "Meta" || e.key == "OS" ==> r == ToggleStartMenu
    ensures e.key != "Meta" && e.key != "OS" && e.altKey && e.key == "Tab" ==>
      r == match AltTabTarget(ws, active) case Some(id) => Call(Focus(id)) case None => NoShortcut
    ensures e.metaKey && e.key == "d" ==> r == Call(MinimizeAll)
    ensures e.altKey && e.key == "F4" ==> r == if active.Some? then Call(Close(active.value)) else NoShortcut
    ensures r.Call? && r.call.Close? ==> e.altKey && e.key == "F4"
    ensures r.Call? && r.call.Lock? ==> e.metaKey && e.key == "l"
  {
    if e.key == "Meta" || e.key == "OS" then ToggleStartMenu
    else if e.altKey && e.key == "Tab" then
      match AltTabTarget(ws, active)
      case Some(id) => Call(Focus(id))
      case None => NoShortcut
    else if IsMetaCombo(e, "d") then Call(MinimizeAll)
    else if e.ctrlKey && e.shiftKey && e.key == "Escape" then Call(Open(TaskManagerWindow))
    else if IsMetaCombo(e, "w") then ToggleWidgets
    else if IsMetaCombo(e, "e") then Call(Open(FileExplorerWindow))
    else if IsMetaCombo(e, "i") then Call(Open(SettingsWindow))
    else if e.altKey && e.key == "F4" then
      if active.Some? then Call(Close(active.value)) else NoShortcut
    else if IsMetaCombo(e, "l") then Call(Lock)
    else NoShortcut
  }

  /** Alt+Tab with exactly one visible window does nothing, wherever the focus is. */
  lemma AltTabSingleVisible(ws: seq<WindowState>, active: Option<WindowId>)
    requires |Visible(ws)| == 1
    ensures HandleKeyDown(KeyEvent("Tab", true, false, false, false), ws, active) == NoShortcut
  {
  }

  /** Alt+Tab over several visible windows, none of them minimized, visits them in list order and wraps around. */
  lemma {:induction false} AltTabWraps(ws: seq<WindowState>, k: nat)
    requires |ws| > 1 && k < |ws| && UniqueWindowIds(ws)
    requires forall i :: 0 <= i < |ws| ==> !ws[i].isMinimized
    ensures AltTabTarget(ws, Some(ws[k].id)) == Some(ws[(k + 1) % |ws|].id)
  {
    AllVisible(ws);
    var idx := IndexOfActive(ws, Some(ws[k].id));
    assert idx == k;
  }

  lemma {:induction false} AllVisible(ws: seq<WindowState>)
    requires forall i :: 0 <= i < |ws| ==> !ws[i].isMinimized
    ensures Visible(ws) == ws
  {
    if ws != [] {
      AllVisible(ws[1..]);
      assert ws == [ws[0]] + ws[1..];
    }
  }
}
