/**
 * The desktop icon grid: snapping a dropped icon to the 90-pixel grid, the
 * occupancy test, the first-free-cell search, committing a multi-icon drag,
 * protected deletion, renaming, the click-selection rules and the merge of a
 * saved layout with the default icons. Pixel coordinates are integers.
 */
module Desktop {
  import opened Options
  import opened WindowTypes
  import opened Lists

  const GridSize: int := 90
  const IconWidth: int := 80
  const IconHeight: int := 88
  const GridPadding: int := 10

  function Abs(v: int): nat { if v < 0 then -v else v }
  function Max(a: int, b: int): int { if a < b then b else a }
  function Min(a: int, b: int): int { if a < b then a else b }

  const DefaultIcons: seq<DesktopIcon> := [
    DesktopIcon("this-pc", "This PC", "ThisPC", "file-explorer", Point(10, 10), None),
    DesktopIcon("recycle-bin", "Recycle Bin", "RecycleBin", "recycle-bin", Point(10, 100), None),
    DesktopIcon("documents", "Documents", "Documents", "file-explorer-documents", Point(10, 190), None),
    DesktopIcon("photos", "Photos", "Photos", "photos", Point(10, 280), None),
    DesktopIcon("terminal", "Terminal", "Terminal", "terminal", Point(10, 370), None),
    DesktopIcon("music-player", "Music", "MusicPlayer", "music-player", Point(10, 460), None),
    DesktopIcon("video-player", "Videos", "VideoPlayer", "video-player", Point(10, 550), None),
    DesktopIcon("calendar-app", "Calendar", "CalendarApp", "calendar", Point(100, 10), None),
    DesktopIcon("tasks-app", "Tasks", "TasksApp", "tasks", Point(100, 100), None),
    DesktopIcon("email-app", "Email", "EmailApp", "email", Point(100, 190), None),
    DesktopIcon("resume-website", "My Resume", "Website", "website", Point(1200, 10), Some("https://aminadineh.ir/")),
    DesktopIcon("github-profile", "My Projects", "GitHub", "website", Point(1200, 100), Some("https://github.com/aminadineh95"))
  ]

  // ---------------------------------------------------------------- grid

  /** `Math.round(v / 90)` for an integer v: the nearest whole cell, halves rounded up. */
  function RoundToCell(v: int): (k: int)
    ensures GridSize * k - 45 <= v < GridSize * k + 45
  {
    (2 * v + GridSize) / (2 * GridSize)
  }

  /** One axis of `snapToGrid`: the nearest grid line, clamped to [10, extent - size - 10]. */
  function SnapCoordinate(v: int, extent: int, size: int): (r: int)
    ensures r >= GridPadding
    ensures extent - size - GridPadding >= GridPadding ==> r <= extent - size - GridPadding
    ensures var line := GridSize * RoundToCell(v) + GridPadding;
      && (GridPadding <= line <= extent - size - GridPadding ==> r == line)
      && (line > extent - size - GridPadding ==> r == Max(GridPadding, extent - size - GridPadding))
      && (line < GridPadding ==> r == GridPadding)
  {
    Max(GridPadding, Min(extent - size - GridPadding, GridSize * RoundToCell(v) + GridPadding))
  }

  /** `snapToGrid(x, y, maxWidth, maxHeight)`. */
  function SnapToGrid(x: int, y: int, maxWidth: int, maxHeight: int): (p: Point)
    ensures p.x >= GridPadding && p.y >= GridPadding
    ensures maxWidth >= IconWidth + 2 * GridPadding ==> p.x <= maxWidth - IconWidth - GridPadding
    ensures maxHeight >= IconHeight + 2 * GridPadding ==> p.y <= maxHeight - IconHeight - GridPadding
    ensures p.x == SnapCoordinate(x, maxWidth, IconWidth) && p.y == SnapCoordinate(y, maxHeight, IconHeight)
  {
    Point(SnapCoordinate(x, maxWidth, IconWidth), SnapCoordinate(y, maxHeight, IconHeight))
  }

  /** The top-left corner of grid cell (col, row). */
  function CellOrigin(col: int, row: int): Point {
    Point(col * GridSize + GridPadding, row * GridSize + GridPadding)
  }

  /** Snapping lands near the input: within half a cell of it whenever the grid line is inside the bounds. */
  lemma SnapIsNearest(v: int, extent: int, size: int)
    requires GridPadding <= GridSize * RoundToCell(v) + GridPadding <= extent - size - GridPadding
    ensures var r := SnapCoordinate(v, extent, size);
      (r - GridPadding) % GridSize == 0 && v - 45 < r - GridPadding <= v + 45
  {
    var k := RoundToCell(v);
    assert SnapCoordinate(v, extent, size) - GridPadding == GridSize * k;
  }

  /** A grid line inside the clamp bounds is a fixed point of one axis of the snap. */
  lemma GridLineIsFixed(k: nat, extent: int, size: int)
    requires GridSize * k + GridPadding <= extent - size - GridPadding
    ensures SnapCoordinate(GridSize * k + GridPadding, extent, size) == GridSize * k + GridPadding
  {
    assert RoundToCell(GridSize * k + GridPadding) == k;
  }

  /** A grid point inside the clamp bounds is a fixed point of the snap. */
  lemma GridPointIsFixed(col: nat, row: nat, maxWidth: int, maxHeight: int)
    requires CellOrigin(col, row).x <= maxWidth - IconWidth - GridPadding
    requires CellOrigin(col, row).y <= maxHeight - IconHeight - GridPadding
    ensures SnapToGrid(CellOrigin(col, row).x, CellOrigin(col, row).y, maxWidth, maxHeight) == CellOrigin(col, row)
  {
    GridLineIsFixed(col, maxWidth, IconWidth);
    GridLineIsFixed(row, maxHeight, IconHeight);
  }

  /**
   * The snap is not idempotent at the clamp bound: with a 1030-pixel-wide
   * desktop the bound is 940, which is not a grid line, so 990 snaps to 940
   * and 940 snaps on to the grid line 910.
   */
  lemma SnapNotIdempotentAtBound()
    ensures SnapToGrid(990, 10, 1030, 1000) == Point(940, 10)
    ensures SnapToGrid(940, 10, 1030, 1000) == Point(910, 10)
  {
    assert RoundToCell(990) == 11;
    assert RoundToCell(940) == 10;
    assert RoundToCell(10) == 0;
  }

  /** Snapping twice settles: a third snap changes nothing, and the second moves at most half a cell. */
  lemma {:induction false} SnapSettlesAfterTwo(v: int, extent: int, size: int)
    ensures var once := SnapCoordinate(v, extent, size);
      var twice := SnapCoordinate(once, extent, size);
      && SnapCoordinate(twice, extent, size) == twice
      && once - 45 <= twice <= once
  {
    var bound := extent - size - GridPadding;
    var once := SnapCoordinate(v, extent, size);
    var twice := SnapCoordinate(once, extent, size);
    if bound < GridPadding {
      assert once == GridPadding && twice == GridPadding;
    } else {
      var k1 := RoundToCell(v);
      if GridSize * k1 + GridPadding < GridPadding {
        GridLineIsFixed(0, extent, size);
      } else if GridSize * k1 + GridPadding <= bound {
        GridLineIsFixed(k1, extent, size);
      } else {
        assert once == bound;
        var k2 := RoundToCell(bound);
        if GridSize * k2 + GridPadding <= bound {
          assert k2 >= 0;
          GridLineIsFixed(k2, extent, size);
        }
      }
    }
  }

  // ----------------------------------------------------------- occupancy

  /** An icon counts against (x, y) when it is not the excluded one and lies less than 80 px away on both axes. */
  predicate Crowds(icon: DesktopIcon, x: int, y: int, excludeId: Option<string>) {
    excludeId != Some(icon.id)
    && Abs(icon.position.x - x) < GridSize - 10
    && Abs(icon.position.y - y) < GridSize - 10
  }

  /** `isPositionOccupied(x, y, icons, excludeId)`. */
  function IsPositionOccupied(x: int, y: int, icons: seq<DesktopIcon>, excludeId: Option<string>): (r: bool)
    ensures r <==> exists i :: 0 <= i < |icons| && Crowds(icons[i], x, y, excludeId)
  {
    if icons == [] then false
    else if Crowds(icons[0], x, y, excludeId) then true
    else
      var rest := IsPositionOccupied(x, y, icons[1..], excludeId);
      assert forall i :: 1 <= i < |icons| ==> icons[i] == icons[1..][i - 1];
      rest
  }

  // ------------------------------------------------------ free-cell search

  function Columns(maxWidth: int): int { (maxWidth - 2 * GridPadding) / GridSize }
  function Rows(maxHeight: int): int { (maxHeight - 2 * GridPadding) / GridSize }

  predicate FreeCell(icons: seq<DesktopIcon>, col: int, row: int) {
    !IsPositionOccupied(CellOrigin(col, row).x, CellOrigin(col, row).y, icons, None)
  }

  /** Cell (c, r) is visited before cell (col, row) in the column-major scan. */
  predicate ScannedBefore(c: int, r: int, col: int, row: int) {
    c < col || (c == col && r < row)
  }

  /**
   * `findNextAvailablePosition`: scan the cells column by column, top to
   * bottom, and return the first unoccupied one; if every cell is occupied,
   * fall back to (10, count * 90 + 10).
   */
  method FindNextAvailablePosition(icons: seq<DesktopIcon>, maxWidth: int, maxHeight: int) returns (p: Point)
    ensures var cols, rows := Columns(maxWidth), Rows(maxHeight);
      (exists col, row :: 0 <= col < cols && 0 <= row < rows && FreeCell(icons, col, row))
      ==> exists col, row :: 0 <= col < cols && 0 <= row < rows && FreeCell(icons, col, row) && p == CellOrigin(col, row)
            && forall c, r :: 0 <= c < cols && 0 <= r < rows && ScannedBefore(c, r, col, row) ==> !FreeCell(icons, c, r)
    ensures var cols, rows := Columns(maxWidth), Rows(maxHeight);
      (forall col, row :: 0 <= col < cols && 0 <= row < rows ==> !FreeCell(icons, col, row))
      ==> p == Point(GridPadding, |icons| * GridSize + GridPadding)
  {
    var cols := Columns(maxWidth);
    var rows := Rows(maxHeight);
    var col := 0;
    while col < cols
      invariant 0 <= col && (col <= cols || col == 0)
      invariant forall c, r :: 0 <= c < col && 0 <= r < rows ==> !FreeCell(icons, c, r)
    {
      var row := 0;
      while row < rows
        invariant 0 <= row && (row <= rows || row == 0)
        invariant forall c, r :: 0 <= c < col && 0 <= r < rows ==> !FreeCell(icons, c, r)
        invariant forall r :: 0 <= r < row ==> !FreeCell(icons, col, r)
      {
        var x := col * GridSize + GridPadding;
        var y := row * GridSize + GridPadding;
        if !IsPositionOccupied(x, y, icons, None) {
          assert FreeCell(icons, col, row);
          return Point(x, y);
        }
        row := row + 1;
      }
      col := col + 1;
    }
    return Point(GridPadding, |icons| * GridSize + GridPadding);
  }

  // ---------------------------------------------------------- drag commit

  /** `icons.findIndex(i => i.id === id)`: the first index holding that id, or -1. */
  function IndexOfIcon(icons: seq<DesktopIcon>, id: string): (r: int)
    ensures -1 <= r < |icons|
    ensures r >= 0 ==> icons[r].id == id && forall j :: 0 <= j < r ==> icons[j].id != id
    ensures r < 0 ==> forall j :: 0 <= j < |icons| ==> icons[j].id != id
  {
    if icons == [] then -1
    else if icons[0].id == id then 0
    else
      var k := IndexOfIcon(icons[1..], id);
      if k < 0 then -1 else k + 1
  }

  /** Two icon lists with the same ids, index by index. */
  predicate SameIds(a: seq<DesktopIcon>, b: seq<DesktopIcon>) {
    |a| == |b| && forall i :: 0 <= i < |a| ==> a[i].id == b[i].id
  }

  lemma SameIdsSameIndex(a: seq<DesktopIcon>, b: seq<DesktopIcon>, id: string)
    requires SameIds(a, b)
    ensures IndexOfIcon(a, id) == IndexOfIcon(b, id)
  {
  }

  /** `icons.filter(i => !selectedIcons.includes(i.id))`. */
  function Unselected(icons: seq<DesktopIcon>, selected: seq<string>): (r: seq<DesktopIcon>)
    ensures forall icon :: icon in r <==> icon in icons && icon.id !in selected
  {
    if icons == [] then []
    else (if icons[0].id in selected then [] else [icons[0]]) + Unselected(icons[1..], selected)
  }

  /** The non-selected icons are the same in two lists that differ only at selected icons. */
  lemma {:induction false} UnselectedAgree(a: seq<DesktopIcon>, b: seq<DesktopIcon>, selected: seq<string>)
    requires SameIds(a, b)
    requires forall i :: 0 <= i < |a| && a[i].id !in selected ==> a[i] == b[i]
    ensures Unselected(a, selected) == Unselected(b, selected)
  {
    if a != [] {
      UnselectedAgree(a[1..], b[1..], selected);
    }
  }

  /** Where a selected icon lands: its position plus the drag offset, snapped. */
  function DragTarget(icon: DesktopIcon, dx: int, dy: int, maxWidth: int, maxHeight: int): Point {
    SnapToGrid(icon.position.x + dx, icon.position.y + dy, maxWidth, maxHeight)
  }

  /** A non-selected icon other than this one occupies its target. */
  predicate Blocked(icons: seq<DesktopIcon>, selected: seq<string>, icon: DesktopIcon, dx: int, dy: int, maxWidth: int, maxHeight: int) {
    var t := DragTarget(icon, dx, dy, maxWidth, maxHeight);
    IsPositionOccupied(t.x, t.y, Unselected(icons, selected), Some(icon.id))
  }

  /** One round of the commit's `forEach`: move the first icon with that id to its target unless blocked. */
  function MoveSelected(icons: seq<DesktopIcon>, selected: seq<string>, id: string, dx: int, dy: int, maxWidth: int, maxHeight: int): (r: seq<DesktopIcon>)
    ensures SameIds(r, icons)
  {
    var idx := IndexOfIcon(icons, id);
    if idx < 0 || Blocked(icons, selected, icons[idx], dx, dy, maxWidth, maxHeight) then icons
    else icons[idx := icons[idx].(position := DragTarget(icons[idx], dx, dy, maxWidth, maxHeight))]
  }

  /** The icon list after the commit has handled the ids `done`, in order. */
  function Committed(icons: seq<DesktopIcon>, selected: seq<string>, done: seq<string>, dx: int, dy: int, maxWidth: int, maxHeight: int): (r: seq<DesktopIcon>)
    ensures SameIds(r, icons)
    decreases |done|
  {
    if done == [] then icons
    else MoveSelected(Committed(icons, selected, done[..|done| - 1], dx, dy, maxWidth, maxHeight),
                      selected, done[|done| - 1], dx, dy, maxWidth, maxHeight)
  }

  /** The commit changes nothing but the positions of icons whose ids it handled; length and order are kept. */
  lemma {:induction false} CommitOnlyMovesHandled(icons: seq<DesktopIcon>, selected: seq<string>, done: seq<string>, dx: int, dy: int, maxWidth: int, maxHeight: int)
    ensures var r := Committed(icons, selected, done, dx, dy, maxWidth, maxHeight);
      && (forall i :: 0 <= i < |r| ==> r[i] == icons[i].(position := r[i].position))
      && (forall i :: 0 <= i < |r| && icons[i].id !in done ==> r[i] == icons[i])
    decreases |done|
  {
    if done != [] {
      var prefix := done[..|done| - 1];
      CommitOnlyMovesHandled(icons, selected, prefix, dx, dy, maxWidth, maxHeight);
      assert forall id :: id in prefix ==> id in done;
    }
  }

  predicate Distinct<T(==)>(s: seq<T>) {
    forall i, j :: 0 <= i < j < |s| ==> s[i] != s[j]
  }

  /** What the commit does to icon i when each selected id is handled once. */
  function Dragged(icons: seq<DesktopIcon>, selected: seq<string>, i: int, dx: int, dy: int, maxWidth: int, maxHeight: int): DesktopIcon
    requires 0 <= i < |icons|
  {
    if IndexOfIcon(icons, icons[i].id) == i && !Blocked(icons, selected, icons[i], dx, dy, maxWidth, maxHeight)
    then icons[i].(position := DragTarget(icons[i], dx, dy, maxWidth, maxHeight))
    else icons[i]
  }

  /**
   * With a duplicate-free selection, every icon is judged against the
   * original layout: a handled icon (the first with its id) moves to its
   * snapped target unless a non-selected icon occupies it; every other icon
   * stays.
   */
  lemma {:induction false} CommitDistinct(icons: seq<DesktopIcon>, selected: seq<string>, done: seq<string>, dx: int, dy: int, maxWidth: int, maxHeight: int)
    requires Distinct(done)
    requires forall id :: id in done ==> id in selected
    ensures var r := Committed(icons, selected, done, dx, dy, maxWidth, maxHeight);
      forall i :: 0 <= i < |icons| ==> r[i] == (if icons[i].id in done then Dragged(icons, selected, i, dx, dy, maxWidth, maxHeight) else icons[i])
    decreases |done|
  {
    if done != [] {
      var prefix, id := done[..|done| - 1], done[|done| - 1];
      assert done == prefix + [id];
      assert id !in prefix;
      CommitDistinct(icons, selected, prefix, dx, dy, maxWidth, maxHeight);
      DistinctStep(icons, Committed(icons, selected, prefix, dx, dy, maxWidth, maxHeight), selected, prefix, id, dx, dy, maxWidth, maxHeight);
    }
  }

  /** One more id, not handled before, moves its icon as judged against the original layout and leaves the rest. */
  lemma DistinctStep(icons: seq<DesktopIcon>, before: seq<DesktopIcon>, selected: seq<string>, prefix: seq<string>, id: string, dx: int, dy: int, maxWidth: int, maxHeight: int)
    requires SameIds(before, icons) && id !in prefix
    requires forall p :: p in prefix ==> p in selected
    requires forall i :: 0 <= i < |icons| ==> before[i] == (if icons[i].id in prefix then Dragged(icons, selected, i, dx, dy, maxWidth, maxHeight) else icons[i])
    ensures var r := MoveSelected(before, selected, id, dx, dy, maxWidth, maxHeight);
      forall i :: 0 <= i < |icons| ==> r[i] == (if icons[i].id in prefix + [id] then Dragged(icons, selected, i, dx, dy, maxWidth, maxHeight) else icons[i])
  {
    SameIdsSameIndex(before, icons, id);
    UnselectedAgree(before, icons, selected);
    var idx := IndexOfIcon(icons, id);
    if idx >= 0 {
      assert before[idx] == icons[idx];
    }
  }

  /** Handling a prefix of the selection one more id at a time. */
  lemma CommittedStep(icons: seq<DesktopIcon>, selected: seq<string>, k: nat, dx: int, dy: int, maxWidth: int, maxHeight: int)
    requires k < |selected|
    ensures Committed(icons, selected, selected[..k + 1], dx, dy, maxWidth, maxHeight)
         == MoveSelected(Committed(icons, selected, selected[..k], dx, dy, maxWidth, maxHeight), selected, selected[k], dx, dy, maxWidth, maxHeight)
  {
    assert selected[..k + 1][..k] == selected[..k];
  }

  /**
   * `onDragEnd`: the dragged icon's snapped drop point fixes the offset; a
   * copy of the icon array is updated in place for each selected id in
   * turn.
   */
  method CommitDrag(icons: seq<DesktopIcon>, selected: seq<string>, dragged: DesktopIcon, rawX: int, rawY: int, maxWidth: int, maxHeight: int)
    returns (r: seq<DesktopIcon>)
    ensures var drop := SnapToGrid(rawX, rawY, maxWidth, maxHeight);
      r == Committed(icons, selected, selected, drop.x - dragged.position.x, drop.y - dragged.position.y, maxWidth, maxHeight)
    ensures SameIds(r, icons)
    ensures forall i :: 0 <= i < |r| ==> r[i] == icons[i].(position := r[i].position)
    ensures forall i :: 0 <= i < |r| && icons[i].id !in selected ==> r[i] == icons[i]
    ensures var drop := SnapToGrid(rawX, rawY, maxWidth, maxHeight);
      Distinct(selected) ==>
      forall i :: 0 <= i < |r| && icons[i].id in selected ==>
        r[i] == Dragged(icons, selected, i, drop.x - dragged.position.x, drop.y - dragged.position.y, maxWidth, maxHeight)
  {
    var drop := SnapToGrid(rawX, rawY, maxWidth, maxHeight);
    var dx, dy := drop.x - dragged.position.x, drop.y - dragged.position.y;
    r := CommitMoves(icons, selected, dx, dy, maxWidth, maxHeight);
    CommitOnlyMovesHandled(icons, selected, selected, dx, dy, maxWidth, maxHeight);
    if Distinct(selected) {
      CommitDistinct(icons, selected, selected, dx, dy, maxWidth, maxHeight);
    }
  }

  /** The commit loop: each selected id in turn, on an array of the icons. */
  method CommitMoves(icons: seq<DesktopIcon>, selected: seq<string>, dx: int, dy: int, maxWidth: int, maxHeight: int)
    returns (r: seq<DesktopIcon>)
    ensures r == Committed(icons, selected, selected, dx, dy, maxWidth, maxHeight)
  {
    var a := new DesktopIcon[|icons|](i requires 0 <= i < |icons| => icons[i]);
    var k := 0;
    while k < |selected|
      invariant 0 <= k <= |selected|
      invariant a[..] == Committed(icons, selected, selected[..k], dx, dy, maxWidth, maxHeight)
    {
      CommittedStep(icons, selected, k, dx, dy, maxWidth, maxHeight);
      var id := selected[k];
      var idx := IndexOfIcon(a[..], id);
      if idx != -1 {
        var target := DragTarget(a[idx], dx, dy, maxWidth, maxHeight);
        if !IsPositionOccupied(target.x, target.y, Unselected(a[..], selected), Some(id)) {
          a[idx] := a[idx].(position := target);
        }
      }
      k := k + 1;
    }
    assert selected[..|selected|] == selected;
    r := a[..];
  }

  // --------------------------------------------------- delete and rename

  const ProtectedIcons: seq<string> := ["this-pc", "recycle-bin", "documents"]

  /** `icons.filter(icon => icon.id !== id)`. */
  function WithoutIcon(icons: seq<DesktopIcon>, id: string): (r: seq<DesktopIcon>)
    ensures forall icon :: icon in r <==> icon in icons && icon.id != id
    ensures |r| <= |icons|
  {
    if icons == [] then []
    else (if icons[0].id == id then [] else [icons[0]]) + WithoutIcon(icons[1..], id)
  }
  /** Deleting keeps the other icons in desktop order. */
  lemma {:induction false} WithoutIconIsFilter(icons: seq<DesktopIcon>, id: string)
    ensures WithoutIcon(icons, id) == Filter(icons, (icon: DesktopIcon) => icon.id != id)
  {
    if icons != [] {
      WithoutIconIsFilter(icons[1..], id);
    }
  }


  /** `handleDeleteIcon`: the three system icons cannot be deleted; any other id is removed. */
  function DeleteIcon(icons: seq<DesktopIcon>, id: string): (r: seq<DesktopIcon>)
    ensures id in ProtectedIcons ==> r == icons
    ensures id !in ProtectedIcons ==> forall icon :: icon in r <==> icon in icons && icon.id != id
  {
    if id in ProtectedIcons then icons else WithoutIcon(icons, id)
  }
  /** A deletion that is not refused keeps every other icon, in desktop order. */
  lemma DeleteIconIsFilter(icons: seq<DesktopIcon>, id: string)
    ensures DeleteIcon(icons, id) ==
      if id in ProtectedIcons then icons else Filter(icons, (icon: DesktopIcon) => icon.id != id)
  {
    WithoutIconIsFilter(icons, id);
  }


  /** Deleting an id no icon carries leaves the list as it was. */
  lemma {:induction false} DeleteAbsentIcon(icons: seq<DesktopIcon>, id: string)
    requires forall icon :: icon in icons ==> icon.id != id
    ensures DeleteIcon(icons, id) == icons
  {
    if icons != [] && id !in ProtectedIcons {
      DeleteAbsentIcon(icons[1..], id);
      assert WithoutIcon(icons, id) == [icons[0]] + WithoutIcon(icons[1..], id);
    }
  }

  /** `handleRenameIcon`: the icons with that id take the new name; nothing else changes. */
  function RenameIcon(icons: seq<DesktopIcon>, id: string, name: string): (r: seq<DesktopIcon>)
    ensures SameIds(r, icons)
    ensures forall i :: 0 <= i < |r| ==> r[i].position == icons[i].position
    ensures forall i :: 0 <= i < |r| ==> r[i].name == (if icons[i].id == id then name else icons[i].name)
    ensures forall i :: 0 <= i < |r| ==> r[i] == icons[i].(name := r[i].name)
  {
    seq(|icons|, i requires 0 <= i < |icons| => if icons[i].id == id then icons[i].(name := name) else icons[i])
  }

  /** Renaming twice is the same as renaming once to the second name. */
  lemma RenameTwice(icons: seq<DesktopIcon>, id: string, first: string, second: string)
    ensures RenameIcon(RenameIcon(icons, id, first), id, second) == RenameIcon(icons, id, second)
  {
    var a, b := RenameIcon(RenameIcon(icons, id, first), id, second), RenameIcon(icons, id, second);
    assert forall i :: 0 <= i < |a| ==> a[i] == b[i];
  }

  // ------------------------------------------------------------ selection

  /** Ctrl- or Meta-click: remove the id if selected, otherwise append it. */
  function Toggled(selected: seq<string>, id: string): (r: seq<string>)
    ensures id in selected ==> forall s :: s in r <==> s in selected && s != id
    ensures id !in selected ==> r == selected + [id]
  {
    if id in selected then Dropped(selected, id) else selected + [id]
  }

  /** `selected.filter(s => s !== id)`. */
  function Dropped(selected: seq<string>, id: string): (r: seq<string>)
    ensures forall s :: s in r <==> s in selected && s != id
  {
    if selected == [] then []
    else (if selected[0] == id then [] else [selected[0]]) + Dropped(selected[1..], id)
  }
  /** Dropping keeps the rest of the selection in selection order. */
  lemma {:induction false} DroppedIsFilter(selected: seq<string>, id: string)
    ensures Dropped(selected, id) == Filter(selected, (s: string) => s != id)
  {
    if selected != [] {
      DroppedIsFilter(selected[1..], id);
    }
  }

  /** A Ctrl-click on a selected icon keeps the others in selection order; on another icon it appends it. */
  lemma ToggledIsFilter(selected: seq<string>, id: string)
    ensures Toggled(selected, id) ==
      if id in selected then Filter(selected, (s: string) => s != id) else selected + [id]
  {
    DroppedIsFilter(selected, id);
  }


  lemma {:induction false} DroppedAbsent(selected: seq<string>, id: string)
    requires id !in selected
    ensures Dropped(selected, id) == selected
  {
    if selected != [] {
      DroppedAbsent(selected[1..], id);
      assert selected == [selected[0]] + selected[1..];
    }
  }

  /** Toggling an unselected icon twice gives back the selection exactly. */
  lemma ToggleTwice(selected: seq<string>, id: string)
    requires id !in selected
    ensures Toggled(Toggled(selected, id), id) == selected
  {
    DroppedAbsent(selected, id);
    DroppedAppended(selected, id);
  }

  lemma {:induction false} DroppedAppended(selected: seq<string>, id: string)
    ensures Dropped(selected + [id], id) == Dropped(selected, id)
  {
    if selected != [] {
      assert (selected + [id])[1..] == selected[1..] + [id];
      DroppedAppended(selected[1..], id);
    } else {
      assert Dropped([id], id) == [] + Dropped([], id);
    }
  }

  lemma {:induction false} DroppedDistinct(selected: seq<string>, id: string)
    requires Distinct(selected)
    ensures Distinct(Dropped(selected, id))
  {
    if selected != [] {
      DroppedDistinct(selected[1..], id);
      var rest := Dropped(selected[1..], id);
      assert selected[0] !in selected[1..];
      assert selected[0] !in rest;
    }
  }

  /** A toggle keeps a duplicate-free selection duplicate-free. */
  lemma ToggleKeepsDistinct(selected: seq<string>, id: string)
    requires Distinct(selected)
    ensures Distinct(Toggled(selected, id))
  {
    if id in selected { DroppedDistinct(selected, id); }
  }

  /** The ids of a run of icons, in order. */
  function IconIds(icons: seq<DesktopIcon>): (r: seq<string>)
    ensures |r| == |icons| && forall i :: 0 <= i < |icons| ==> r[i] == icons[i].id
  {
    seq(|icons|, i requires 0 <= i < |icons| => icons[i].id)
  }

  /** A relative index of `Array.prototype.slice`: negative counts from the end. */
  function SliceIndex(k: int, n: nat): (r: nat)
    ensures r <= n
  {
    if k < 0 then Max(n + k, 0) else Min(k, n)
  }
  /** A non-negative index is capped at the length; a negative one counts back from the end, stopping at the start. */
  lemma SliceIndexCountsFromEnd(k: int, n: nat)
    ensures 0 <= k ==> SliceIndex(k, n) == (if k <= n then k else n)
    ensures -(n as int) <= k < 0 ==> SliceIndex(k, n) == n + k
    ensures k < -(n as int) ==> SliceIndex(k, n) == 0
  {
  }


  /** `icons.slice(start, end)`. */
  function Slice(icons: seq<DesktopIcon>, start: int, end: int): (r: seq<DesktopIcon>)
    ensures 0 <= start <= end <= |icons| ==> r == icons[start..end]
  {
    var s, e := SliceIndex(start, |icons|), SliceIndex(end, |icons|);
    if s < e then icons[s..e] else []
  }

  /**
   * `icons.slice(min(a, b), max(a, b) + 1)` for two results of `findIndex`:
   * the run between them when both were found, and `slice(-1, a + 1)` when
   * only `a` was.
   */
  lemma RunBetween(icons: seq<DesktopIcon>, a: int, b: int)
    requires -1 <= a < |icons| && -1 <= b < |icons|
    ensures var run := IconIds(Slice(icons, Min(a, b), Max(a, b) + 1));
      a >= 0 && b >= 0 ==>
        && run == IconIds(icons[Min(a, b)..Max(a, b) + 1])
        && icons[a].id in run && icons[b].id in run
    ensures var run := IconIds(Slice(icons, Min(a, b), Max(a, b) + 1));
      a >= 0 && b < 0 ==> run == if a == |icons| - 1 then [icons[a].id] else []
  {
    var lo, hi := Min(a, b), Max(a, b) + 1;
    var run := IconIds(Slice(icons, lo, hi));
    if a >= 0 && b >= 0 {
      assert Slice(icons, lo, hi) == icons[lo..hi];
      assert run[a - lo] == icons[a].id;
      assert run[b - lo] == icons[b].id;
    } else if a >= 0 {
      assert SliceIndex(lo, |icons|) == |icons| - 1;
      assert SliceIndex(hi, |icons|) == a + 1;
      if a == |icons| - 1 {
        assert Slice(icons, lo, hi) == [icons[a]];
      }
    }
  }

  /**
   * Shift-click with a non-empty selection: the run of icons between the
   * clicked one and the last selected one. A last selected id that is no
   * longer on the desktop gives index -1, which `slice` reads as "the last
   * icon".
   */
  function RangeSelection(icons: seq<DesktopIcon>, selected: seq<string>, id: string): (r: seq<string>)
    requires |selected| > 0
    ensures var a, b := IndexOfIcon(icons, id), IndexOfIcon(icons, selected[|selected| - 1]);
      a >= 0 && b >= 0 ==>
        && r == IconIds(icons[Min(a, b)..Max(a, b) + 1])
        && id in r && selected[|selected| - 1] in r
    ensures var a, b := IndexOfIcon(icons, id), IndexOfIcon(icons, selected[|selected| - 1]);
      a >= 0 && b < 0 ==> r == (if a == |icons| - 1 then [id] else [])
  {
    var a, b := IndexOfIcon(icons, id), IndexOfIcon(icons, selected[|selected| - 1]);
    RunBetween(icons, a, b);
    assert a >= 0 ==> icons[a].id == id;
    assert b >= 0 ==> icons[b].id == selected[|selected| - 1];
    IconIds(Slice(icons, Min(a, b), Max(a, b) + 1))
  }

  /** The selection after a click on icon `id`. */
  function ClickSelection(icons: seq<DesktopIcon>, selected: seq<string>, id: string, ctrlOrMeta: bool, shift: bool): (r: seq<string>)
    ensures ctrlOrMeta ==> r == Toggled(selected, id)
    ensures !ctrlOrMeta && shift && |selected| > 0 ==> r == RangeSelection(icons, selected, id)
    ensures !ctrlOrMeta && !(shift && |selected| > 0) ==> r == [id]
  {
    if ctrlOrMeta then Toggled(selected, id)
    else if shift && |selected| > 0 then RangeSelection(icons, selected, id)
    else [id]
  }

  /** Starting to drag an unselected icon makes it the whole selection; a selected one keeps the selection. */
  function DragStartSelection(selected: seq<string>, id: string): (r: seq<string>)
    ensures id in r
    ensures id in selected ==> r == selected
    ensures id !in selected ==> r == [id]
  {
    if id in selected then selected else [id]
  }

  // ------------------------------------------------------- saved layout

  /** `saved.find(s => s.id === id)`. */
  function FindSaved(saved: seq<DesktopIcon>, id: string): (r: Option<DesktopIcon>)
    ensures r.Some? <==> exists s :: s in saved && s.id == id
    ensures r.Some? ==> r.value in saved && r.value.id == id
    ensures var k := IndexOfIcon(saved, id); r == if k >= 0 then Some(saved[k]) else None
  {
    if saved == [] then None
    else if saved[0].id == id then Some(saved[0])
    else FindSaved(saved[1..], id)
  }

  /** A default icon with its saved position, when one was saved. */
  function WithSavedPosition(d: DesktopIcon, saved: seq<DesktopIcon>): DesktopIcon {
    match FindSaved(saved, d.id)
    case Some(s) => d.(position := s.position)
    case None => d
  }

  /** `saved.filter(s => !defaults.find(d => d.id === s.id))`. */
  function Extras(saved: seq<DesktopIcon>, defaults: seq<DesktopIcon>): (r: seq<DesktopIcon>)
    ensures forall s :: s in r <==> s in saved && forall d :: d in defaults ==> d.id != s.id
    ensures |r| <= |saved|
  {
    if saved == [] then []
    else (if exists d :: d in defaults && d.id == saved[0].id then [] else [saved[0]]) + Extras(saved[1..], defaults)
  }
  /** The extras keep the saved order. */
  lemma {:induction false} ExtrasIsFilter(saved: seq<DesktopIcon>, defaults: seq<DesktopIcon>)
    ensures Extras(saved, defaults) == Filter(saved, (s: DesktopIcon) => forall d :: d in defaults ==> d.id != s.id)
  {
    if saved != [] {
      ExtrasIsFilter(saved[1..], defaults);
    }
  }


  /**
   * Restoring the saved layout: every default icon in default order, with
   * its saved position if one was saved, then the saved icons that are not
   * defaults.
   */
  function MergeLayout(defaults: seq<DesktopIcon>, saved: seq<DesktopIcon>): (r: seq<DesktopIcon>)
    ensures |r| == |defaults| + |Extras(saved, defaults)|
    ensures SameIds(r[..|defaults|], defaults)
    ensures forall i :: 0 <= i < |defaults| ==> r[i] == defaults[i].(position := r[i].position)
    ensures forall i :: 0 <= i < |defaults| && (forall s :: s in saved ==> s.id != defaults[i].id) ==> r[i] == defaults[i]
    ensures forall i :: 0 <= i < |defaults| ==>
      r[i].position == match FindSaved(saved, defaults[i].id) case Some(s) => s.position case None => defaults[i].position
    ensures forall s :: s in r[|defaults|..] <==> s in saved && forall d :: d in defaults ==> d.id != s.id
    ensures r[|defaults|..] == Extras(saved, defaults)
  {
    seq(|defaults|, i requires 0 <= i < |defaults| => WithSavedPosition(defaults[i], saved)) + Extras(saved, defaults)
  }

  /** With nothing saved the default layout comes back unchanged. */
  lemma MergeNothingSaved(defaults: seq<DesktopIcon>)
    ensures MergeLayout(defaults, []) == defaults
  {
    assert Extras([], defaults) == [];
  }

  /** Saving the default layout and restoring it gives the defaults back, when their ids are distinct. */
  lemma MergeOwnLayout(defaults: seq<DesktopIcon>)
    requires Distinct(IconIds(defaults))
    ensures MergeLayout(defaults, defaults) == defaults
  {
    NoExtrasFromDefaults(defaults, defaults);
    var r := MergeLayout(defaults, defaults);
    forall i | 0 <= i < |defaults|
      ensures r[i] == defaults[i]
    {
      FirstSavedIsOwn(defaults, i);
    }
  }

  /** Saved icons that all share an id with some default add no extras. */
  lemma {:induction false} NoExtrasFromDefaults(saved: seq<DesktopIcon>, defaults: seq<DesktopIcon>)
    requires forall s :: s in saved ==> s in defaults
    ensures Extras(saved, defaults) == []
  {
    if saved != [] {
      assert saved[0] in defaults;
      NoExtrasFromDefaults(saved[1..], defaults);
    }
  }

  lemma {:induction false} FirstSavedIsOwn(icons: seq<DesktopIcon>, i: int)
    requires Distinct(IconIds(icons))
    requires 0 <= i < |icons|
    ensures FindSaved(icons, icons[i].id) == Some(icons[i])
  {
    if i > 0 {
      var ids := IconIds(icons);
      assert ids[0] != ids[i];
      var tail := icons[1..];
      assert IconIds(tail) == ids[1..];
      FirstSavedIsOwn(tail, i - 1);
    }
  }
}
