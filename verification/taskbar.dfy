/**
 * The taskbar: pinned-app buttons (open, cycle, minimize), the buttons of
 * other open windows, the open/active indicators, and the Start-menu search.
 */
module Taskbar {
  import opened Options
  import opened Strings
  import opened WindowTypes
  import opened WindowStore
  import opened Lists

  datatype PinnedApp = PinnedApp(id: string, icon: string, title: string, component: string)

  const PinnedApps: seq<PinnedApp> := [
    PinnedApp("explorer", "Folder", "File Explorer", "FileExplorer"),
    PinnedApp("browser", "Globe", "Edge", "Browser"),
    PinnedApp("notepad", "FileText", "Notepad", "Notepad"),
    PinnedApp("calculator", "Calculator", "Calculator", "Calculator"),
    PinnedApp("settings", "Settings", "Settings", "SettingsApp")
  ]

  /** `windows.filter(w => w.component === component)`. */
  function WindowsOf(ws: seq<WindowState>, component: string): (r: seq<WindowState>)
    ensures forall w :: w in r <==> w in ws && w.component == component
    ensures |r| <= |ws|
  {
    if ws == [] then [] else (if ws[0].component == component then [ws[0]] else []) + WindowsOf(ws[1..], component)
  }
  /** An app's windows keep the order of the window list, which the taskbar cycles through. */
  lemma {:induction false} WindowsOfIsFilter(ws: seq<WindowState>, component: string)
    ensures WindowsOf(ws, component) == Filter(ws, (w: WindowState) => w.component == component)
  {
    if ws != [] {
      WindowsOfIsFilter(ws[1..], component);
    }
  }


  /**
   * `openPinnedApp`: a new window at a random offset from (100, 50); `rx`
   * and `ry` stand for the two `Math.random()` draws, in [0, 1).
   */
  function PinnedWindow(app: PinnedApp, rx: real, ry: real): (spec: WindowSpec)
    requires 0.0 <= rx < 1.0 && 0.0 <= ry < 1.0
    ensures spec.component == app.component && spec.title == app.title
    ensures 100.0 <= spec.x < 200.0 && 50.0 <= spec.y < 100.0
    ensures app.component == "Calculator" ==> spec.width == 350.0 && spec.height == 500.0
    ensures app.component != "Calculator" ==> spec.width == 900.0 && spec.height == 600.0
    ensures !spec.isMinimized && !spec.isMaximized
  {
    var calculator := app.component == "Calculator";
    WindowSpec(app.title, app.icon, app.component, 100.0 + rx * 100.0, 50.0 + ry * 50.0,
      if calculator then 350.0 else 900.0, if calculator then 500.0 else 600.0, false, false, NoProps)
  }

  /** Clicking the button of a single window: bring it back if minimized, minimize it if active, focus it otherwise. */
  function WindowButtonClick(win: WindowState, active: Option<WindowId>): (r: StoreCall)
    ensures win.isMinimized ==> r == Focus(win.id)
    ensures !win.isMinimized && active == Some(win.id) ==> r == Minimize(win.id)
    ensures !win.isMinimized && active != Some(win.id) ==> r == Focus(win.id)
  {
    if win.isMinimized then Focus(win.id)
    else if active == Some(win.id) then Minimize(win.id)
    else Focus(win.id)
  }

  /**
   * `handleTaskbarClick` on a pinned app: open a window if the app has none;
   * with one window, act as its window button; with several, focus the one
   * after the active one in list order, wrapping, or the first if none of
   * them is active.
   */
  function TaskbarClick(app: PinnedApp, ws: seq<WindowState>, active: Option<WindowId>, rx: real, ry: real): (r: StoreCall)
    requires 0.0 <= rx < 1.0 && 0.0 <= ry < 1.0
    ensures var mine := WindowsOf(ws, app.component);
      && (|mine| == 0 ==> r == Open(PinnedWindow(app, rx, ry)))
      && (|mine| == 1 ==> r == WindowButtonClick(mine[0], active))
      && (|mine| > 1 && IndexOfActive(mine, active) >= 0 ==> r == Focus(mine[(IndexOfActive(mine, active) + 1) % |mine|].id))
      && (|mine| > 1 && IndexOfActive(mine, active) < 0 ==> r == Focus(mine[0].id))
  {
    var mine := WindowsOf(ws, app.component);
    if |mine| == 0 then Open(PinnedWindow(app, rx, ry))
    else if |mine| == 1 then WindowButtonClick(mine[0], active)
    else
      var activeIndex := IndexOfActive(mine, active);
      if activeIndex >= 0 then Focus(mine[(activeIndex + 1) % |mine|].id)
      else Focus(mine[0].id)
  }

  /** Any call other than opening a window names one of the app's windows. */
  lemma TaskbarClickOwnWindow(app: PinnedApp, ws: seq<WindowState>, active: Option<WindowId>, rx: real, ry: real)
    requires 0.0 <= rx < 1.0 && 0.0 <= ry < 1.0
    ensures var r := TaskbarClick(app, ws, active, rx, ry);
      !r.Open? ==> exists w :: w in ws && w.component == app.component && r.id == w.id
  {
    var mine := WindowsOf(ws, app.component);
    if |mine| > 0 {
      var activeIndex := IndexOfActive(mine, active);
      var k := if |mine| > 1 && activeIndex >= 0 then (activeIndex + 1) % |mine| else 0;
      assert mine[k] in mine;
    }
  }

  /** The indicator under a pinned button: shown when the app has a window. */
  function IsOpen(app: PinnedApp, ws: seq<WindowState>): (r: bool)
    ensures r <==> exists w :: w in ws && w.component == app.component
  {
    var mine := WindowsOf(ws, app.component);
    assert mine != [] ==> mine[0] in mine;
    |mine| > 0
  }

  /** The highlighted indicator: one of the app's windows is the active window. */
  function IsActive(app: PinnedApp, ws: seq<WindowState>, active: Option<WindowId>): (r: bool)
    ensures r <==> exists w :: w in ws && w.component == app.component && active == Some(w.id)
    ensures r ==> IsOpen(app, ws)
  {
    var mine := WindowsOf(ws, app.component);
    exists i :: 0 <= i < |mine| && active == Some(mine[i].id)
  }

  /** The Start-menu entries, with the component each opens. */
  datatype StartApp = StartApp(name: string, iconName: string, component: string)

  const StartApps: seq<StartApp> := [
    StartApp("File Explorer", "Folder", "FileExplorer"),
    StartApp("Edge", "Globe", "Browser"),
    StartApp("Notepad", "FileText", "Notepad"),
    StartApp("Calculator", "Calculator", "Calculator"),
    StartApp("Terminal", "Monitor", "Terminal"),
    StartApp("Music", "Monitor", "MusicPlayer"),
    StartApp("Videos", "Monitor", "VideoPlayer"),
    StartApp("Calendar", "Monitor", "CalendarApp"),
    StartApp("Tasks", "FileText", "TasksApp"),
    StartApp("Email", "Globe", "EmailApp"),
    StartApp("Photos", "Monitor", "Photos"),
    StartApp("Settings", "Settings", "SettingsApp"),
    StartApp("This PC", "Monitor", "FileExplorer"),
    StartApp("Task Manager", "Monitor", "TaskManager"),
    StartApp("Recycle Bin", "Trash2", "RecycleBin")
  ]

  /** The Start-menu search: the apps whose name contains the query, ignoring case, in menu order. */
  function FilterApps(apps: seq<StartApp>, query: string): (r: seq<StartApp>)
    ensures forall a :: a in r <==> a in apps && ContainsIgnoringCase(a.name, query)
    ensures |r| <= |apps|
  {
    if apps == [] then []
    else (if ContainsIgnoringCase(apps[0].name, query) then [apps[0]] else []) + FilterApps(apps[1..], query)
  }
  /** The search results keep the menu order. */
  lemma {:induction false} FilterAppsIsFilter(apps: seq<StartApp>, query: string)
    ensures FilterApps(apps, query) == Filter(apps, (a: StartApp) => ContainsIgnoringCase(a.name, query))
  {
    if apps != [] {
      FilterAppsIsFilter(apps[1..], query);
    }
  }


  /** An empty search shows every app. */
  lemma {:induction false} EmptyQueryKeepsAll(apps: seq<StartApp>)
    ensures FilterApps(apps, "") == apps
  {
    if apps != [] {
      EmptyIsContained(Lower(apps[0].name));
      assert Lower("") == "";
      EmptyQueryKeepsAll(apps[1..]);
      assert apps == [apps[0]] + apps[1..];
    }
  }
}
