/**
 * The window-manager store: the list of open windows, the active window, the
 * z-index counter, the close-handler table, the simulated file store with its
 * recycle bin and clipboard, the settings and the lock flag.
 *
 * Ids that the original builds from the clock and a random number are drawn
 * here from two counters, so a new id is one no existing record carries. The
 * store records which windows have a close handler; what a handler answers when
 * it is called (`true`: the window may close) is passed in at the moment the
 * close is requested, because the handler reads its component's state then.
 */
module WindowStore {
  import opened Options
  import opened WindowTypes
  import opened Lists

  const FirstZIndex: int := 100

  const DefaultSettings: Settings := Settings("default", Light, "blue", Bottom, Centered)

  function BuiltInFolder(id: string, name: string, parent: Option<FileId>): FileItem {
    FileItem(Named(id), name, Folder, parent, None)
  }

  /** The six folders every fresh file store starts with. */
  const DefaultFiles: seq<FileItem> := [
    BuiltInFolder("desktop", "Desktop", None),
    BuiltInFolder("documents", "Documents", Some(Named("this-pc"))),
    BuiltInFolder("downloads", "Downloads", Some(Named("this-pc"))),
    BuiltInFolder("pictures", "Pictures", Some(Named("this-pc"))),
    BuiltInFolder("music", "Music", Some(Named("this-pc"))),
    BuiltInFolder("videos", "Videos", Some(Named("this-pc")))
  ]

  const RecycleBinId: FileId := Named("recycle-bin")
  const DesktopId: FileId := Named("desktop")

  // ----- the window list -----

  predicate HasWindow(ws: seq<WindowState>, id: WindowId) {
    exists i :: 0 <= i < |ws| && ws[i].id == id
  }

  predicate UniqueWindowIds(ws: seq<WindowState>) {
    forall i, j :: 0 <= i < j < |ws| ==> ws[i].id != ws[j].id
  }

  /** Every window lies below z-index `z`. */
  predicate ZBelow(ws: seq<WindowState>, z: int) {
    forall w | w in ws :: w.zIndex < z
  }

  /** `windows.find(w => w.id === id)`. */
  function FindWindow(ws: seq<WindowState>, id: WindowId): (r: Option<WindowState>)
    ensures r.Some? <==> HasWindow(ws, id)
    ensures r.Some? ==> r.value in ws && r.value.id == id
  {
    if ws == [] then None
    else if ws[0].id == id then Some(ws[0])
    else
      var r := FindWindow(ws[1..], id);
      assert HasWindow(ws, id) ==> HasWindow(ws[1..], id) by {
        if HasWindow(ws, id) {
          var i :| 0 <= i < |ws| && ws[i].id == id;
          assert ws[1..][i - 1].id == id;
        }
      }
      r
  }

  /** `ws.findIndex(w => w.id === active)`: the first position holding the active id, or -1. */
  function IndexOfActive(ws: seq<WindowState>, active: Option<WindowId>): (r: int)
    ensures -1 <= r < |ws|
    ensures r >= 0 ==> active == Some(ws[r].id) && forall j :: 0 <= j < r ==> Some(ws[j].id) != active
    ensures r == -1 <==> forall j :: 0 <= j < |ws| ==> Some(ws[j].id) != active
  {
    if ws == [] then -1
    else if Some(ws[0].id) == active then 0
    else
      var k := IndexOfActive(ws[1..], active);
      if k == -1 then -1 else k + 1
  }

  /** `ws.filter(w => !w.isMinimized)`. */
  function Visible(ws: seq<WindowState>): (r: seq<WindowState>)
    ensures forall w :: w in r <==> w in ws && !w.isMinimized
    ensures |r| <= |ws|
  {
    if ws == [] then [] else (if ws[0].isMinimized then [] else [ws[0]]) + Visible(ws[1..])
  }
  /** The visible windows are the minimized ones filtered out, in list order. */
  lemma {:induction false} VisibleIsFilter(ws: seq<WindowState>)
    ensures Visible(ws) == Filter(ws, (w: WindowState) => !w.isMinimized)
  {
    if ws != [] {
      VisibleIsFilter(ws[1..]);
    }
  }


  /**
   * A call a component makes into the store. The components' event handlers
   * are modelled as returning the calls they make, in order; `Store.Perform`
   * carries one out.
   */
  datatype StoreCall =
    | Open(spec: WindowSpec)
    | Close(id: WindowId)
    | RequestClose(id: WindowId)
    | Minimize(id: WindowId)
    | Maximize(id: WindowId)
    | Restore(id: WindowId)
    | Focus(id: WindowId)
    | Move(id: WindowId, x: real, y: real)
    | Resize(id: WindowId, width: real, height: real)
    | MinimizeAll
    | Lock

  /** `prev.filter(w => w.id !== id)`. */
  function WithoutWindow(ws: seq<WindowState>, id: WindowId): (r: seq<WindowState>)
    ensures forall w :: w in r <==> w in ws && w.id != id
  {
    if ws == [] then [] else (if ws[0].id == id then [] else [ws[0]]) + WithoutWindow(ws[1..], id)
  }
  /** Closing keeps the other windows in list order. */
  lemma {:induction false} WithoutWindowIsFilter(ws: seq<WindowState>, id: WindowId)
    ensures WithoutWindow(ws, id) == Filter(ws, (w: WindowState) => w.id != id)
  {
    if ws != [] {
      WithoutWindowIsFilter(ws[1..], id);
    }
  }


  /** Closing an id no window carries leaves the list as it was. */
  lemma {:induction false} WithoutAbsentWindow(ws: seq<WindowState>, id: WindowId)
    requires !HasWindow(ws, id)
    ensures WithoutWindow(ws, id) == ws
  {
    if ws != [] {
      assert !HasWindow(ws[1..], id);
      WithoutAbsentWindow(ws[1..], id);
      assert ws == [ws[0]] + ws[1..];
    }
  }

  /** With unique ids, closing a present window removes exactly one record and keeps the ids unique. */
  lemma {:induction false} WithoutPresentWindow(ws: seq<WindowState>, id: WindowId)
    requires UniqueWindowIds(ws)
    ensures UniqueWindowIds(WithoutWindow(ws, id))
    ensures HasWindow(ws, id) ==> |WithoutWindow(ws, id)| == |ws| - 1
  {
    if ws != [] {
      var tail := ws[1..];
      UniqueTail(ws);
      WithoutPresentWindow(tail, id);
      var rest := WithoutWindow(tail, id);
      if ws[0].id == id {
        assert !HasWindow(tail, id);
        WithoutAbsentWindow(tail, id);
      } else {
        assert HasWindow(ws, id) ==> HasWindow(tail, id) by {
          if HasWindow(ws, id) {
            var i :| 0 <= i < |ws| && ws[i].id == id;
            assert tail[i - 1].id == id;
          }
        }
        assert WithoutWindow(ws, id) == [ws[0]] + rest;
        UniqueCons(ws[0], rest);
      }
    }
  }

  /** Dropping the first window keeps the ids unique, and none of the others carries its id. */
  lemma UniqueTail(ws: seq<WindowState>)
    requires UniqueWindowIds(ws) && ws != []
    ensures UniqueWindowIds(ws[1..])
    ensures forall v :: v in ws[1..] ==> v.id != ws[0].id
  {
    var tail := ws[1..];
    forall i, j | 0 <= i < j < |tail|
      ensures tail[i].id != tail[j].id
    {
      assert tail[i] == ws[i + 1] && tail[j] == ws[j + 1];
    }
    forall v | v in tail
      ensures v.id != ws[0].id
    {
      var k :| 0 <= k < |tail| && tail[k] == v;
      assert ws[k + 1] == v;
    }
  }

  /** A window whose id no window of a list carries can go in front of it. */
  lemma UniqueCons(w: WindowState, ws: seq<WindowState>)
    requires UniqueWindowIds(ws)
    requires forall v :: v in ws ==> v.id != w.id
    ensures UniqueWindowIds([w] + ws)
  {
    var r := [w] + ws;
    forall i, j | 0 <= i < j < |r|
      ensures r[i].id != r[j].id
    {
      assert r[j] == ws[j - 1];
      if i > 0 {
        assert r[i] == ws[i - 1];
      } else {
        assert ws[j - 1] in ws;
      }
    }
  }

  // ----- the file store -----

  function FileIds(fs: seq<FileItem>): set<FileId> {
    set f | f in fs :: f.id
  }

  predicate DistinctFileIds(fs: seq<FileItem>) {
    forall i, j :: 0 <= i < j < |fs| ==> fs[i].id != fs[j].id
  }

  /** Every generated id in `fs` was handed out before the counter reached `n`. */
  predicate GeneratedBelow(fs: seq<FileItem>, n: nat) {
    forall f | f in fs :: f.id.Generated? ==> f.id.serial < n
  }

  /** `files.find(f => f.id === id)`. */
  function FindFile(fs: seq<FileItem>, id: FileId): (r: Option<FileItem>)
    ensures r.Some? <==> id in FileIds(fs)
    ensures r.Some? ==> r.value in fs && r.value.id == id
  {
    if fs == [] then None
    else if fs[0].id == id then Some(fs[0])
    else
      var r := FindFile(fs[1..], id);
      assert FileIds(fs) == {fs[0].id} + FileIds(fs[1..]) by {
        assert fs == [fs[0]] + fs[1..];
      }
      r
  }

  /** `files.filter(f => f.id !== id)`. */
  function WithoutFile(fs: seq<FileItem>, id: FileId): (r: seq<FileItem>)
    ensures forall f {:trigger f in r} :: f in r <==> f in fs && f.id != id
  {
    if fs == [] then [] else (if fs[0].id == id then [] else [fs[0]]) + WithoutFile(fs[1..], id)
  }
  /** Deleting keeps the other files in store order. */
  lemma {:induction false} WithoutFileIsFilter(fs: seq<FileItem>, id: FileId)
    ensures WithoutFile(fs, id) == Filter(fs, (f: FileItem) => f.id != id)
  {
    if fs != [] {
      WithoutFileIsFilter(fs[1..], id);
    }
  }


  lemma HeadIds(fs: seq<FileItem>)
    requires fs != []
    ensures FileIds(fs) == {fs[0].id} + FileIds(fs[1..])
  {
    assert fs == [fs[0]] + fs[1..];
  }

  /** Removing a file id keeps the others, drops that id, and removes nothing when the id is absent. */
  lemma {:induction false} WithoutFileIds(fs: seq<FileItem>, id: FileId)
    ensures FileIds(WithoutFile(fs, id)) == FileIds(fs) - {id}
    ensures id !in FileIds(fs) ==> WithoutFile(fs, id) == fs
  {
    if fs != [] {
      WithoutFileIds(fs[1..], id);
      HeadIds(fs);
      if fs[0].id != id {
        HeadIds(WithoutFile(fs, id));
        assert WithoutFile(fs, id)[1..] == WithoutFile(fs[1..], id);
      }
      assert id !in FileIds(fs) ==> WithoutFile(fs, id) == [fs[0]] + fs[1..];
    }
  }

  /** With distinct ids, removing a present id removes exactly one file, and the ids stay distinct. */
  lemma {:induction false} WithoutFileDistinct(fs: seq<FileItem>, id: FileId)
    requires DistinctFileIds(fs)
    ensures DistinctFileIds(WithoutFile(fs, id))
    ensures id in FileIds(fs) ==> |WithoutFile(fs, id)| == |fs| - 1
  {
    if fs != [] {
      var tail := fs[1..];
      assert DistinctFileIds(tail);
      WithoutFileDistinct(tail, id);
      HeadIds(fs);
      var rest := WithoutFile(tail, id);
      assert fs[0].id !in FileIds(tail);
      if fs[0].id == id {
        WithoutFileIds(tail, id);
      } else {
        forall j | 0 <= j < |rest| ensures rest[j].id != fs[0].id {
          assert rest[j] in rest;
        }
        assert WithoutFile(fs, id) == [fs[0]] + rest;
      }
    }
  }

  /** `files.filter(f => fileIds.includes(f.id))`: the listed files, in file-store order. */
  function FilesWithIds(fs: seq<FileItem>, ids: seq<FileId>): (r: seq<FileItem>)
    ensures forall f :: f in r <==> f in fs && f.id in ids
    ensures |r| <= |fs|
  {
    if fs == [] then []
    else (if fs[0].id in ids then [fs[0]] else []) + FilesWithIds(fs[1..], ids)
  }
  /** The clipboard keeps the listed files in store order, whatever the order of the ids. */
  lemma {:induction false} FilesWithIdsIsFilter(fs: seq<FileItem>, ids: seq<FileId>)
    ensures FilesWithIds(fs, ids) == Filter(fs, (f: FileItem) => f.id in ids)
  {
    if fs != [] {
      FilesWithIdsIsFilter(fs[1..], ids);
    }
  }


  /** `files.filter(f => f.parentId === folderId)`. */
  function FilesInFolder(fs: seq<FileItem>, folder: Option<FileId>): (r: seq<FileItem>)
    ensures forall f :: f in r <==> f in fs && f.parentId == folder
    ensures |r| <= |fs|
  {
    if fs == [] then []
    else (if fs[0].parentId == folder then [fs[0]] else []) + FilesInFolder(fs[1..], folder)
  }
  /** A folder lists its files in store order. */
  lemma {:induction false} FilesInFolderIsFilter(fs: seq<FileItem>, folder: Option<FileId>)
    ensures FilesInFolder(fs, folder) == Filter(fs, (f: FileItem) => f.parentId == folder)
  {
    if fs != [] {
      FilesInFolderIsFilter(fs[1..], folder);
    }
  }


  /** `prev.map(f => f.id === id ? g(f) : f)` for the two field updates of the file store. */
  function RenamedFile(fs: seq<FileItem>, id: FileId, name: string): (r: seq<FileItem>)
    ensures |r| == |fs|
    ensures forall i :: 0 <= i < |fs| ==> r[i] == if fs[i].id == id then fs[i].(name := name) else fs[i]
  {
    seq(|fs|, i requires 0 <= i < |fs| => if fs[i].id == id then fs[i].(name := name) else fs[i])
  }

  function WithContent(fs: seq<FileItem>, id: FileId, content: string): (r: seq<FileItem>)
    ensures |r| == |fs|
    ensures forall i :: 0 <= i < |fs| ==> r[i] == if fs[i].id == id then fs[i].(content := Some(content)) else fs[i]
  {
    seq(|fs|, i requires 0 <= i < |fs| => if fs[i].id == id then fs[i].(content := Some(content)) else fs[i])
  }

  lemma {:induction false} MappedIds(fs: seq<FileItem>, r: seq<FileItem>)
    requires |r| == |fs| && forall i :: 0 <= i < |fs| ==> r[i].id == fs[i].id
    ensures FileIds(r) == FileIds(fs)
    ensures DistinctFileIds(fs) ==> DistinctFileIds(r)
  {
    forall x | x in FileIds(r) ensures x in FileIds(fs) {
      var f :| f in r && f.id == x;
      var i :| 0 <= i < |r| && r[i] == f;
      assert fs[i] in fs;
    }
    forall x | x in FileIds(fs) ensures x in FileIds(r) {
      var f :| f in fs && f.id == x;
      var i :| 0 <= i < |fs| && fs[i] == f;
      assert r[i] in r;
    }
  }

  /** `{ ...prev, ...newSettings }`. */
  function MergeSettings(s: Settings, p: SettingsPatch): (r: Settings)
    ensures p.wallpaper.Some? ==> r.wallpaper == p.wallpaper.value
    ensures p.wallpaper.None? ==> r.wallpaper == s.wallpaper
    ensures p.theme.Some? ==> r.theme == p.theme.value
    ensures p.theme.None? ==> r.theme == s.theme
    ensures p.accentColor.Some? ==> r.accentColor == p.accentColor.value
    ensures p.accentColor.None? ==> r.accentColor == s.accentColor
    ensures p.taskbarPosition.Some? ==> r.taskbarPosition == p.taskbarPosition.value
    ensures p.taskbarPosition.None? ==> r.taskbarPosition == s.taskbarPosition
    ensures p.taskbarAlignment.Some? ==> r.taskbarAlignment == p.taskbarAlignment.value
    ensures p.taskbarAlignment.None? ==> r.taskbarAlignment == s.taskbarAlignment
  {
    Settings(
      if p.wallpaper.Some? then p.wallpaper.value else s.wallpaper,
      if p.theme.Some? then p.theme.value else s.theme,
      if p.accentColor.Some? then p.accentColor.value else s.accentColor,
      if p.taskbarPosition.Some? then p.taskbarPosition.value else s.taskbarPosition,
      if p.taskbarAlignment.Some? then p.taskbarAlignment.value else s.taskbarAlignment)
  }

  // ----- pasting -----

  /** The copy a paste makes of `f`: a new id, the target folder as parent, everything else kept. */
  function PastedCopy(f: FileItem, target: FileId, n: nat): FileItem {
    f.(id := Generated(n), parentId := Some(target))
  }

  /** One iteration of the paste loop: add the copy, and for a cut drop the original. */
  function PasteStep(fs: seq<FileItem>, f: FileItem, op: ClipOperation, target: FileId, n: nat): seq<FileItem> {
    var added := fs + [PastedCopy(f, target, n)];
    if op == Cut then WithoutFile(added, f.id) else added
  }

  /** The whole paste loop over the clipboard files, ids drawn from `n` on. */
  function Pasted(fs: seq<FileItem>, cs: seq<FileItem>, op: ClipOperation, target: FileId, n: nat): seq<FileItem>
    decreases |cs|
  {
    if cs == [] then fs else Pasted(PasteStep(fs, cs[0], op, target, n), cs[1..], op, target, n + 1)
  }

  lemma PastedCons(fs: seq<FileItem>, cs: seq<FileItem>, op: ClipOperation, target: FileId, n: nat)
    requires cs != []
    ensures Pasted(fs, cs, op, target, n) == Pasted(PasteStep(fs, cs[0], op, target, n), cs[1..], op, target, n + 1)
  {
  }

  /** The copies a paste appends, in clipboard order. */
  function Copies(cs: seq<FileItem>, target: FileId, n: nat): (r: seq<FileItem>)
    ensures |r| == |cs|
    ensures forall k {:trigger r[k]} :: 0 <= k < |cs| ==> r[k] == PastedCopy(cs[k], target, n + k)
  {
    if cs == [] then [] else [PastedCopy(cs[0], target, n)] + Copies(cs[1..], target, n + 1)
  }

  /** `fs` without every file whose id is in `ids`. */
  function WithoutIds(fs: seq<FileItem>, ids: set<FileId>): seq<FileItem> {
    if fs == [] then [] else (if fs[0].id in ids then [] else [fs[0]]) + WithoutIds(fs[1..], ids)
  }

  lemma {:induction false} WithoutIdsAppend(a: seq<FileItem>, b: seq<FileItem>, ids: set<FileId>)
    ensures WithoutIds(a + b, ids) == WithoutIds(a, ids) + WithoutIds(b, ids)
  {
    if a != [] {
      WithoutIdsAppend(a[1..], b, ids);
      assert (a + b)[0] == a[0];
      assert (a + b)[1..] == a[1..] + b;
    } else {
      assert a + b == b;
    }
  }

  lemma {:induction false} WithoutFileIsWithoutIds(fs: seq<FileItem>, id: FileId)
    ensures WithoutFile(fs, id) == WithoutIds(fs, {id})
  {
    if fs != [] {
      WithoutFileIsWithoutIds(fs[1..], id);
    }
  }

  lemma {:induction false} WithoutIdsTwice(fs: seq<FileItem>, a: set<FileId>, b: set<FileId>)
    ensures WithoutIds(WithoutIds(fs, a), b) == WithoutIds(fs, a + b)
  {
    if fs != [] {
      var t := fs[1..];
      WithoutIdsTwice(t, a, b);
      if fs[0].id in a {
        assert WithoutIds(fs, a) == WithoutIds(t, a);
      } else {
        var wa := WithoutIds(fs, a);
        assert wa == [fs[0]] + WithoutIds(t, a);
        assert wa[0] == fs[0] && wa[1..] == WithoutIds(t, a);
      }
    }
  }

  function ClipIds(cs: seq<FileItem>): set<FileId> {
    set f | f in cs :: f.id
  }

  /** A copy paste appends one copy per clipboard file and keeps every existing file. */
  lemma {:induction false} PasteCopyAppends(fs: seq<FileItem>, cs: seq<FileItem>, target: FileId, n: nat)
    ensures Pasted(fs, cs, Copy, target, n) == fs + Copies(cs, target, n)
    decreases |cs|
  {
    if cs != [] {
      PasteCopyAppends(fs + [PastedCopy(cs[0], target, n)], cs[1..], target, n + 1);
    }
  }

  /** One cut step: the original leaves the list and its copy is appended. */
  lemma CutStep(fs: seq<FileItem>, c: FileItem, target: FileId, n: nat)
    requires c.id != Generated(n)
    ensures PasteStep(fs, c, Cut, target, n) == WithoutIds(fs, {c.id}) + [PastedCopy(c, target, n)]
  {
    var copy := PastedCopy(c, target, n);
    WithoutFileIsWithoutIds(fs + [copy], c.id);
    WithoutIdsAppend(fs, [copy], {c.id});
    assert WithoutIds([copy], {c.id}) == [copy];
  }

  lemma ClipIdsCons(cs: seq<FileItem>)
    requires cs != []
    ensures ClipIds(cs) == {cs[0].id} + ClipIds(cs[1..])
  {
    assert cs == [cs[0]] + cs[1..];
  }

  /**
   * A cut paste removes every original and appends one copy per clipboard
   * file, provided the ids it hands out are new to the clipboard.
   */
  lemma {:induction false} PasteCutMoves(fs: seq<FileItem>, cs: seq<FileItem>, target: FileId, n: nat)
    requires GeneratedBelow(cs, n)
    ensures Pasted(fs, cs, Cut, target, n) == WithoutIds(fs, ClipIds(cs)) + Copies(cs, target, n)
    decreases |cs|
  {
    if cs != [] {
      GeneratedBelowStep(cs, n);
      var kept := WithoutIds(fs, {cs[0].id}) + [PastedCopy(cs[0], target, n)];
      PasteCutMoves(kept, cs[1..], target, n + 1);
      CutMovesStep(fs, cs, target, n);
    } else {
      assert ClipIds(cs) == {};
      WithoutNoIds(fs);
    }
  }

  /** The step of `PasteCutMoves`: the first file moves, and the rest moves as the induction hypothesis says. */
  lemma CutMovesStep(fs: seq<FileItem>, cs: seq<FileItem>, target: FileId, n: nat)
    requires cs != [] && cs[0].id != Generated(n) && Generated(n) !in ClipIds(cs[1..])
    requires var kept := WithoutIds(fs, {cs[0].id}) + [PastedCopy(cs[0], target, n)];
      Pasted(kept, cs[1..], Cut, target, n + 1) == WithoutIds(kept, ClipIds(cs[1..])) + Copies(cs[1..], target, n + 1)
    ensures Pasted(fs, cs, Cut, target, n) == WithoutIds(fs, ClipIds(cs)) + Copies(cs, target, n)
  {
    var copy := PastedCopy(cs[0], target, n);
    var kept := WithoutIds(fs, {cs[0].id}) + [copy];
    CutFirst(fs, cs, target, n);
    CutKept(fs, cs, target, n);
    CopiesCons(cs, target, n);
    ConcatRegroup(Pasted(fs, cs, Cut, target, n), WithoutIds(kept, ClipIds(cs[1..])),
      WithoutIds(fs, ClipIds(cs)), copy, Copies(cs[1..], target, n + 1), Copies(cs, target, n));
  }

  lemma ConcatRegroup(whole: seq<FileItem>, front: seq<FileItem>, moved: seq<FileItem>, copy: FileItem, later: seq<FileItem>, copies: seq<FileItem>)
    requires whole == front + later && front == moved + [copy] && copies == [copy] + later
    ensures whole == moved + copies
  {
  }

  /** A cut paste begins by moving the first clipboard file. */
  lemma CutFirst(fs: seq<FileItem>, cs: seq<FileItem>, target: FileId, n: nat)
    requires cs != [] && cs[0].id != Generated(n)
    ensures Pasted(fs, cs, Cut, target, n) == Pasted(WithoutIds(fs, {cs[0].id}) + [PastedCopy(cs[0], target, n)], cs[1..], Cut, target, n + 1)
  {
    CutStep(fs, cs[0], target, n);
    PastedCons(fs, cs, Cut, target, n);
  }

  /** The files kept by the rest of a cut, with the first copy after them. */
  lemma CutKept(fs: seq<FileItem>, cs: seq<FileItem>, target: FileId, n: nat)
    requires cs != [] && Generated(n) !in ClipIds(cs[1..])
    ensures WithoutIds(WithoutIds(fs, {cs[0].id}) + [PastedCopy(cs[0], target, n)], ClipIds(cs[1..])) == WithoutIds(fs, ClipIds(cs)) + [PastedCopy(cs[0], target, n)]
  {
    AppendFreshCopy(WithoutIds(fs, {cs[0].id}), PastedCopy(cs[0], target, n), ClipIds(cs[1..]));
    KeptThenRest(fs, cs);
  }

  lemma CopiesCons(cs: seq<FileItem>, target: FileId, n: nat)
    requires cs != []
    ensures Copies(cs, target, n) == [PastedCopy(cs[0], target, n)] + Copies(cs[1..], target, n + 1)
  {
  }

  /** A copy whose id is not being removed survives the removal, after the files kept before it. */
  lemma AppendFreshCopy(kept: seq<FileItem>, copy: FileItem, ids: set<FileId>)
    requires copy.id !in ids
    ensures WithoutIds(kept + [copy], ids) == WithoutIds(kept, ids) + [copy]
  {
    WithoutIdsAppend(kept, [copy], ids);
    assert WithoutIds([copy], ids) == [copy];
  }

  /** Removing the first clipboard id, then the others, removes all of them. */
  lemma KeptThenRest(fs: seq<FileItem>, cs: seq<FileItem>)
    requires cs != []
    ensures WithoutIds(WithoutIds(fs, {cs[0].id}), ClipIds(cs[1..])) == WithoutIds(fs, ClipIds(cs))
  {
    WithoutIdsTwice(fs, {cs[0].id}, ClipIds(cs[1..]));
    ClipIdsCons(cs);
  }

  lemma {:induction false} WithoutNoIds(fs: seq<FileItem>)
    ensures WithoutIds(fs, {}) == fs
  {
    if fs != [] {
      WithoutNoIds(fs[1..]);
      assert fs == [fs[0]] + fs[1..];
    }
  }

  lemma GeneratedBelowStep(cs: seq<FileItem>, n: nat)
    requires cs != [] && GeneratedBelow(cs, n)
    ensures cs[0].id != Generated(n)
    ensures GeneratedBelow(cs[1..], n + 1)
    ensures Generated(n) !in ClipIds(cs[1..])
  {
    assert cs[0] in cs;
    forall f | f in cs[1..] ensures f in cs {
    }
  }

  /**
   * The id discipline of the file store: ids are distinct within the files
   * and within the bin, no id is in both, and every generated id is below the
   * counter.
   */
  predicate FileStoreIds(fs: seq<FileItem>, bin: seq<FileItem>, n: nat) {
    && DistinctFileIds(fs)
    && DistinctFileIds(bin)
    && FileIds(fs) !! FileIds(bin)
    && GeneratedBelow(fs, n)
    && GeneratedBelow(bin, n)
  }

  /** One paste step keeps the id discipline with the counter advanced. */
  lemma PasteStepKeeps(fs: seq<FileItem>, bin: seq<FileItem>, c: FileItem, op: ClipOperation, target: FileId, n: nat)
    requires FileStoreIds(fs, bin, n)
    ensures FileStoreIds(PasteStep(fs, c, op, target, n), bin, n + 1)
  {
    var added := fs + [PastedCopy(c, target, n)];
    AppendFresh(fs, bin, PastedCopy(c, target, n), n);
    if op == Cut {
      WithoutFileIds(added, c.id);
      WithoutFileDistinct(added, c.id);
    }
  }

  /** Appending a file under a fresh generated id keeps the file-store ids distinct and below the counter. */
  lemma AppendFresh(fs: seq<FileItem>, bin: seq<FileItem>, f: FileItem, n: nat)
    requires DistinctFileIds(fs) && FileIds(fs) !! FileIds(bin)
    requires GeneratedBelow(fs, n) && GeneratedBelow(bin, n)
    requires f.id == Generated(n)
    ensures DistinctFileIds(fs + [f]) && FileIds(fs + [f]) !! FileIds(bin)
    ensures GeneratedBelow(fs + [f], n + 1) && GeneratedBelow(bin, n + 1)
  {
    assert f.id !in FileIds(fs) && f.id !in FileIds(bin);
    assert FileIds(fs + [f]) == FileIds(fs) + {f.id};
  }

  /**
   * The `forEach` of `pasteFiles`: each clipboard file in turn is copied
   * under the target with the next fresh id and, for a cut, its original is
   * filtered out. Returns the new file list and the advanced id counter.
   */
  method PasteLoop(files: seq<FileItem>, cs: seq<FileItem>, op: ClipOperation, target: FileId, next: nat)
    returns (fs: seq<FileItem>, n: nat)
    ensures fs == Pasted(files, cs, op, target, next)
    ensures n == next + |cs|
  {
    fs, n := files, next;
    var i := 0;
    assert cs[i..] == cs;
    while i < |cs|
      invariant 0 <= i <= |cs| && n == next + i
      invariant Pasted(files, cs, op, target, next) == Pasted(fs, cs[i..], op, target, n)
    {
      PastedNext(fs, cs, i, op, target, n);
      ghost var step := PasteStep(fs, cs[i], op, target, n);
      var added := fs + [PastedCopy(cs[i], target, n)];
      fs := if op == Cut then WithoutFile(added, cs[i].id) else added;
      assert fs == step;
      n, i := n + 1, i + 1;
    }
    assert cs[i..] == [];
  }

  /** The paste from clipboard position `i` on is one step followed by the paste from `i + 1` on. */
  lemma PastedNext(fs: seq<FileItem>, cs: seq<FileItem>, i: nat, op: ClipOperation, target: FileId, n: nat)
    requires i < |cs|
    ensures Pasted(fs, cs[i..], op, target, n) == Pasted(PasteStep(fs, cs[i], op, target, n), cs[i + 1..], op, target, n + 1)
  {
    PastedCons(fs, cs[i..], op, target, n);
    assert cs[i..][0] == cs[i] && cs[i..][1..] == cs[i + 1..];
  }

  /** A whole paste keeps the id discipline, with the counter advanced once per clipboard file. */
  lemma {:induction false} PastedKeeps(fs: seq<FileItem>, bin: seq<FileItem>, cs: seq<FileItem>, op: ClipOperation, target: FileId, n: nat)
    requires FileStoreIds(fs, bin, n)
    ensures FileStoreIds(Pasted(fs, cs, op, target, n), bin, n + |cs|)
    decreases |cs|
  {
    if cs != [] {
      PasteStepKeeps(fs, bin, cs[0], op, target, n);
      PastedKeeps(PasteStep(fs, cs[0], op, target, n), bin, cs[1..], op, target, n + 1);
    }
  }

  /** The store: every field of the original context that its operations replace or mutate. */
  class Store {
    var windows: seq<WindowState>
    var activeWindowId: Option<WindowId>
    var nextZIndex: int
    /** The windows that registered a close handler. */
    var closeHandlers: set<WindowId>
    var files: seq<FileItem>
    var recycledFiles: seq<FileItem>
    var clipboard: Option<ClipboardItem>
    var settings: Settings
    var isLocked: bool
    /** The counters that hand out fresh window and file ids. */
    var nextWindowId: WindowId
    var nextFileId: nat

    ghost predicate Valid()
      reads this
    {
      && nextZIndex >= FirstZIndex
      && ZBelow(windows, nextZIndex)
      && UniqueWindowIds(windows)
      && (forall w | w in windows :: w.id < nextWindowId)
      && FileStoreIds(files, recycledFiles, nextFileId)
      && (clipboard.Some? ==> GeneratedBelow(clipboard.value.files, nextFileId))
    }

    /** The file-store part of the state, which the window operations leave alone. */
    ghost function FilePart(): (seq<FileItem>, seq<FileItem>, Option<ClipboardItem>, nat)
      reads this
    {
      (files, recycledFiles, clipboard, nextFileId)
    }

    /** The window part of the state, which the file operations leave alone. */
    ghost function WindowPart(): (seq<WindowState>, Option<WindowId>, int, set<WindowId>, WindowId)
      reads this
    {
      (windows, activeWindowId, nextZIndex, closeHandlers, nextWindowId)
    }

    constructor ()
      ensures Valid()
      ensures windows == [] && activeWindowId == None && nextZIndex == FirstZIndex && closeHandlers == {}
      ensures files == DefaultFiles && recycledFiles == [] && clipboard == None
      ensures settings == DefaultSettings && isLocked
    {
      windows := [];
      activeWindowId := None;
      nextZIndex := FirstZIndex;
      closeHandlers := {};
      files := DefaultFiles;
      recycledFiles := [];
      clipboard := None;
      settings := DefaultSettings;
      isLocked := true;
      nextWindowId := 0;
      nextFileId := 0;
      assert FileIds([]) == {};
    }

    /** `openWindow`: append the window with a fresh id on top of every other window and make it active. */
    method OpenWindow(spec: WindowSpec) returns (id: WindowId)
      requires Valid()
      modifies this
      ensures Valid()
      ensures !HasWindow(old(windows), id)
      ensures windows == old(windows) + [spec.WithIdAndZ(id, old(nextZIndex))]
      ensures ZBelow(old(windows), windows[|windows| - 1].zIndex)
      ensures activeWindowId == Some(id)
      ensures nextZIndex == old(nextZIndex) + 1
      ensures closeHandlers == old(closeHandlers)
      ensures FilePart() == old(FilePart()) && settings == old(settings) && isLocked == old(isLocked)
    {
      id := nextWindowId;
      windows := windows + [spec.WithIdAndZ(id, nextZIndex)];
      activeWindowId := Some(id);
      nextZIndex := nextZIndex + 1;
      nextWindowId := nextWindowId + 1;
    }

    /** `closeWindow`: drop the handler and the window; the active id is cleared only if it named this window. */
    method CloseWindow(id: WindowId)
      requires Valid()
      modifies this
      ensures Valid()
      ensures windows == WithoutWindow(old(windows), id)
      ensures HasWindow(old(windows), id) ==> |windows| == |old(windows)| - 1
      ensures closeHandlers == old(closeHandlers) - {id}
      ensures activeWindowId == if old(activeWindowId) == Some(id) then None else old(activeWindowId)
      ensures nextZIndex == old(nextZIndex) && nextWindowId == old(nextWindowId)
      ensures FilePart() == old(FilePart()) && settings == old(settings) && isLocked == old(isLocked)
    {
      WithoutPresentWindow(windows, id);
      closeHandlers := closeHandlers - {id};
      windows := WithoutWindow(windows, id);
      if activeWindowId == Some(id) {
        activeWindowId := None;
      }
    }

    /**
     * `requestCloseWindow`: a window with a registered handler closes only when
     * the handler, called now, answers `true` (`handlerAnswer`); a window
     * without one closes.
     */
    method RequestCloseWindow(id: WindowId, handlerAnswer: bool)
      requires Valid()
      modifies this
      ensures Valid()
      ensures id in old(closeHandlers) && !handlerAnswer ==> WindowPart() == old(WindowPart())
      ensures !(id in old(closeHandlers) && !handlerAnswer) ==>
        && windows == WithoutWindow(old(windows), id)
        && closeHandlers == old(closeHandlers) - {id}
        && activeWindowId == (if old(activeWindowId) == Some(id) then None else old(activeWindowId))
        && nextZIndex == old(nextZIndex) && nextWindowId == old(nextWindowId)
      ensures FilePart() == old(FilePart()) && settings == old(settings) && isLocked == old(isLocked)
    {
      if id in closeHandlers {
        if handlerAnswer {
          CloseWindow(id);
        }
      } else {
        CloseWindow(id);
      }
    }

    /** `registerCloseHandler`: the window's close requests now go through its handler. */
    method RegisterCloseHandler(id: WindowId)
      modifies this`closeHandlers
      ensures closeHandlers == old(closeHandlers) + {id}
    {
      closeHandlers := closeHandlers + {id};
    }

    method UnregisterCloseHandler(id: WindowId)
      modifies this`closeHandlers
      ensures closeHandlers == old(closeHandlers) - {id}
    {
      closeHandlers := closeHandlers - {id};
    }

    /** `minimizeWindow`: only the target is minimized, and no window is active afterwards, whichever was. */
    method MinimizeWindow(id: WindowId)
      requires Valid()
      modifies this`windows, this`activeWindowId
      ensures Valid()
      ensures |windows| == |old(windows)|
      ensures forall i :: 0 <= i < |windows| ==>
        windows[i] == if old(windows)[i].id == id then old(windows)[i].(isMinimized := true) else old(windows)[i]
      ensures activeWindowId == None
    {
      windows := seq(|windows|, i requires 0 <= i < |windows| reads this =>
        if windows[i].id == id then windows[i].(isMinimized := true) else windows[i]);
      activeWindowId := None;
    }

    /** `maximizeWindow`: sets the flag on the target and nothing else. */
    method MaximizeWindow(id: WindowId)
      requires Valid()
      modifies this`windows
      ensures Valid()
      ensures |windows| == |old(windows)|
      ensures forall i :: 0 <= i < |windows| ==>
        windows[i] == if old(windows)[i].id == id then old(windows)[i].(isMaximized := true) else old(windows)[i]
    {
      windows := seq(|windows|, i requires 0 <= i < |windows| reads this =>
        if windows[i].id == id then windows[i].(isMaximized := true) else windows[i]);
    }

    /** `restoreWindow`: clears both flags, raises the window above all others and activates it. */
    method RestoreWindow(id: WindowId)
      requires Valid()
      modifies this`windows, this`activeWindowId, this`nextZIndex
      ensures Valid()
      ensures |windows| == |old(windows)|
      ensures forall i :: 0 <= i < |windows| ==>
        windows[i] == if old(windows)[i].id == id
          then old(windows)[i].(isMinimized := false, isMaximized := false, zIndex := old(nextZIndex))
          else old(windows)[i]
      ensures forall i, j :: 0 <= i < |windows| && 0 <= j < |windows| && windows[i].id == id && j != i ==>
        windows[j].zIndex < windows[i].zIndex
      ensures activeWindowId == Some(id)
      ensures nextZIndex == old(nextZIndex) + 1
    {
      var z := nextZIndex;
      windows := seq(|windows|, i requires 0 <= i < |windows| reads this =>
        if windows[i].id == id then windows[i].(isMinimized := false, isMaximized := false, zIndex := z) else windows[i]);
      activeWindowId := Some(id);
      nextZIndex := nextZIndex + 1;
    }

    /** `focusWindow`: un-minimizes the window, raises it above all others and activates it. */
    method FocusWindow(id: WindowId)
      requires Valid()
      modifies this`windows, this`activeWindowId, this`nextZIndex
      ensures Valid()
      ensures |windows| == |old(windows)|
      ensures forall i :: 0 <= i < |windows| ==>
        windows[i] == if old(windows)[i].id == id
          then old(windows)[i].(zIndex := old(nextZIndex), isMinimized := false)
          else old(windows)[i]
      ensures forall i, j :: 0 <= i < |windows| && 0 <= j < |windows| && windows[i].id == id && j != i ==>
        windows[j].zIndex < windows[i].zIndex
      ensures activeWindowId == Some(id)
      ensures nextZIndex == old(nextZIndex) + 1
    {
      var z := nextZIndex;
      activeWindowId := Some(id);
      nextZIndex := nextZIndex + 1;
      windows := seq(|windows|, i requires 0 <= i < |windows| reads this =>
        if windows[i].id == id then windows[i].(zIndex := z, isMinimized := false) else windows[i]);
    }

    method UpdateWindowPosition(id: WindowId, x: real, y: real)
      requires Valid()
      modifies this`windows
      ensures Valid()
      ensures |windows| == |old(windows)|
      ensures forall i :: 0 <= i < |windows| ==>
        windows[i] == if old(windows)[i].id == id then old(windows)[i].(x := x, y := y) else old(windows)[i]
    {
      windows := seq(|windows|, i requires 0 <= i < |windows| reads this =>
        if windows[i].id == id then windows[i].(x := x, y := y) else windows[i]);
    }

    method UpdateWindowSize(id: WindowId, width: real, height: real)
      requires Valid()
      modifies this`windows
      ensures Valid()
      ensures |windows| == |old(windows)|
      ensures forall i :: 0 <= i < |windows| ==>
        windows[i] == if old(windows)[i].id == id then old(windows)[i].(width := width, height := height) else old(windows)[i]
    {
      windows := seq(|windows|, i requires 0 <= i < |windows| reads this =>
        if windows[i].id == id then windows[i].(width := width, height := height) else windows[i]);
    }

    /** `addFile`: append the file under a fresh id and return that id. */
    method AddFile(name: string, kind: FileKind, parentId: Option<FileId>, content: Option<string>) returns (id: FileId)
      requires Valid()
      modifies this`files, this`nextFileId
      ensures Valid()
      ensures id !in FileIds(old(files)) && id !in FileIds(recycledFiles)
      ensures files == old(files) + [FileItem(id, name, kind, parentId, content)]
    {
      id := Generated(nextFileId);
      var f := FileItem(id, name, kind, parentId, content);
      assert FileIds(files + [f]) == FileIds(files) + {id};
      files := files + [f];
      nextFileId := nextFileId + 1;
    }

    method DeleteFile(id: FileId)
      requires Valid()
      modifies this`files
      ensures Valid()
      ensures files == WithoutFile(old(files), id)
    {
      WithoutFileIds(files, id);
      WithoutFileDistinct(files, id);
      files := WithoutFile(files, id);
    }

    method RenameFile(id: FileId, name: string)
      requires Valid()
      modifies this`files
      ensures Valid()
      ensures files == RenamedFile(old(files), id, name)
    {
      MappedIds(files, RenamedFile(files, id, name));
      files := RenamedFile(files, id, name);
    }

    method UpdateFileContent(id: FileId, content: string)
      requires Valid()
      modifies this`files
      ensures Valid()
      ensures files == WithContent(old(files), id, content)
    {
      MappedIds(files, WithContent(files, id, content));
      files := WithContent(files, id, content);
    }

    function GetFileById(id: FileId): (r: Option<FileItem>)
      reads this
      ensures r.Some? <==> id in FileIds(files)
      ensures r.Some? ==> r.value in files && r.value.id == id
    {
      FindFile(files, id)
    }

    function GetFilesInFolder(folder: Option<FileId>): (r: seq<FileItem>)
      reads this
      ensures forall f :: f in r <==> f in files && f.parentId == folder
      ensures r == Filter(files, (f: FileItem) => f.parentId == folder)
    {
      FilesInFolderIsFilter(files, folder);
      FilesInFolder(files, folder)
    }

    method UpdateSettings(patch: SettingsPatch)
      modifies this`settings
      ensures settings == MergeSettings(old(settings), patch)
    {
      settings := MergeSettings(settings, patch);
    }

    /** `moveToRecycleBin`: an existing file moves to the bin with 'recycle-bin' as parent; an unknown id changes nothing. */
    method MoveToRecycleBin(id: FileId)
      requires Valid()
      modifies this`files, this`recycledFiles
      ensures Valid()
      ensures id !in FileIds(old(files)) ==> files == old(files) && recycledFiles == old(recycledFiles)
      ensures id in FileIds(old(files)) ==>
        && files == WithoutFile(old(files), id)
        && recycledFiles == old(recycledFiles) + [FindFile(old(files), id).value.(parentId := Some(RecycleBinId))]
      ensures |files| + |recycledFiles| == |old(files)| + |old(recycledFiles)|
    {
      var found := FindFile(files, id);
      if found.Some? {
        var moved := found.value.(parentId := Some(RecycleBinId));
        assert FileIds(recycledFiles + [moved]) == FileIds(recycledFiles) + {id};
        WithoutFileIds(files, id);
        WithoutFileDistinct(files, id);
        recycledFiles := recycledFiles + [moved];
        files := WithoutFile(files, id);
      }
    }

    /** `restoreFromRecycleBin`: a binned file moves back with 'desktop' as parent; an unknown id changes nothing. */
    method RestoreFromRecycleBin(id: FileId)
      requires Valid()
      modifies this`files, this`recycledFiles
      ensures Valid()
      ensures id !in FileIds(old(recycledFiles)) ==> files == old(files) && recycledFiles == old(recycledFiles)
      ensures id in FileIds(old(recycledFiles)) ==>
        && recycledFiles == WithoutFile(old(recycledFiles), id)
        && files == old(files) + [FindFile(old(recycledFiles), id).value.(parentId := Some(DesktopId))]
      ensures |files| + |recycledFiles| == |old(files)| + |old(recycledFiles)|
    {
      var found := FindFile(recycledFiles, id);
      if found.Some? {
        var moved := found.value.(parentId := Some(DesktopId));
        assert FileIds(files + [moved]) == FileIds(files) + {id};
        WithoutFileIds(recycledFiles, id);
        WithoutFileDistinct(recycledFiles, id);
        files := files + [moved];
        recycledFiles := WithoutFile(recycledFiles, id);
      }
    }

    method EmptyRecycleBin()
      requires Valid()
      modifies this`recycledFiles
      ensures Valid()
      ensures recycledFiles == []
    {
      recycledFiles := [];
      assert FileIds([]) == {};
    }

    /** `copyFiles`: the clipboard holds the listed files, in file-store order, for copying. */
    method CopyFiles(ids: seq<FileId>)
      requires Valid()
      modifies this`clipboard
      ensures Valid()
      ensures clipboard == Some(ClipboardItem(FilesWithIds(files, ids), Copy))
    {
      clipboard := Some(ClipboardItem(FilesWithIds(files, ids), Copy));
    }

    /** `cutFiles`: as `copyFiles`, marked as a cut. */
    method CutFiles(ids: seq<FileId>)
      requires Valid()
      modifies this`clipboard
      ensures Valid()
      ensures clipboard == Some(ClipboardItem(FilesWithIds(files, ids), Cut))
    {
      clipboard := Some(ClipboardItem(FilesWithIds(files, ids), Cut));
    }

    /**
     * `pasteFiles`: nothing without a clipboard; otherwise one copy per
     * clipboard file under the target, the originals removed for a cut, and
     * the clipboard emptied after a cut but kept after a copy.
     */
    method PasteFiles(target: FileId)
      requires Valid()
      modifies this`files, this`nextFileId, this`clipboard
      ensures Valid()
      ensures old(clipboard).None? ==> files == old(files) && clipboard == None
      ensures old(clipboard).Some? && old(clipboard).value.operation == Copy ==>
        files == old(files) + Copies(old(clipboard).value.files, target, old(nextFileId)) && clipboard == old(clipboard)
      ensures old(clipboard).Some? && old(clipboard).value.operation == Cut ==>
        && files == WithoutIds(old(files), ClipIds(old(clipboard).value.files)) + Copies(old(clipboard).value.files, target, old(nextFileId))
        && clipboard == None
    {
      if clipboard.None? {
        return;
      }
      var clip := clipboard.value;
      var cs := clip.files;
      var fs, n := PasteLoop(files, cs, clip.operation, target, nextFileId);
      PastedKeeps(files, recycledFiles, cs, clip.operation, target, nextFileId);
      files, nextFileId := fs, n;
      assert files == Pasted(old(files), cs, clip.operation, target, old(nextFileId));
      if clip.operation == Cut {
        PasteCutMoves(old(files), cs, target, old(nextFileId));
        clipboard := None;
      } else {
        PasteCopyAppends(old(files), cs, target, old(nextFileId));
      }
    }

    /** `windows.forEach(w => minimizeWindow(w.id))`: every window ends minimized; the active id is cleared unless there was no window to minimize. */
    method MinimizeAllWindows()
      requires Valid()
      modifies this`windows, this`activeWindowId
      ensures Valid()
      ensures |windows| == |old(windows)|
      ensures forall i :: 0 <= i < |windows| ==> windows[i] == old(windows)[i].(isMinimized := true)
      ensures activeWindowId == if old(windows) == [] then old(activeWindowId) else None
    {
      var ids := seq(|windows|, i requires 0 <= i < |windows| reads this => windows[i].id);
      var k := 0;
      while k < |ids|
        invariant 0 <= k <= |ids|
        invariant Valid()
        invariant |windows| == |old(windows)|
        invariant forall i :: 0 <= i < |windows| ==> windows[i].id == ids[i]
        invariant forall i :: 0 <= i < |windows| ==>
          windows[i] == if i < k then old(windows)[i].(isMinimized := true) else old(windows)[i]
        invariant activeWindowId == if k == 0 then old(activeWindowId) else None
      {
        MinimizeWindow(ids[k]);
        k := k + 1;
      }
    }

    /**
     * Carries out one store call: the new state is the one the matching
     * operation promises. `handlerAnswer` is what the window's close handler
     * answers if a close request consults it.
     */
    method Perform(call: StoreCall, handlerAnswer: bool)
      requires Valid()
      modifies this
      ensures Valid()
      ensures FilePart() == old(FilePart()) && settings == old(settings)
      ensures isLocked == (call.Lock? || old(isLocked))
      ensures !(call.Close? || call.RequestClose?) ==> closeHandlers == old(closeHandlers)
      ensures !call.Open? ==> nextWindowId == old(nextWindowId)
      ensures call.Open? ==>
        && |windows| == |old(windows)| + 1
        && !HasWindow(old(windows), windows[|windows| - 1].id)
        && windows == old(windows) + [call.spec.WithIdAndZ(windows[|windows| - 1].id, old(nextZIndex))]
        && activeWindowId == Some(windows[|windows| - 1].id)
        && nextZIndex == old(nextZIndex) + 1
      ensures call.Close? ==>
        && windows == WithoutWindow(old(windows), call.id)
        && closeHandlers == old(closeHandlers) - {call.id}
        && activeWindowId == (if old(activeWindowId) == Some(call.id) then None else old(activeWindowId))
        && nextZIndex == old(nextZIndex)
      ensures call.RequestClose? && call.id in old(closeHandlers) && !handlerAnswer ==>
        WindowPart() == old(WindowPart())
      ensures call.RequestClose? && !(call.id in old(closeHandlers) && !handlerAnswer) ==>
        && windows == WithoutWindow(old(windows), call.id)
        && closeHandlers == old(closeHandlers) - {call.id}
        && activeWindowId == (if old(activeWindowId) == Some(call.id) then None else old(activeWindowId))
        && nextZIndex == old(nextZIndex)
      ensures !(call.Open? || call.Close? || call.RequestClose? || call.Lock?) ==> |windows| == |old(windows)|
      ensures call.Minimize? ==>
        && (forall i :: 0 <= i < |windows| ==>
          windows[i] == if old(windows)[i].id == call.id then old(windows)[i].(isMinimized := true) else old(windows)[i])
        && activeWindowId == None && nextZIndex == old(nextZIndex)
      ensures call.Maximize? ==>
        && (forall i :: 0 <= i < |windows| ==>
          windows[i] == if old(windows)[i].id == call.id then old(windows)[i].(isMaximized := true) else old(windows)[i])
        && activeWindowId == old(activeWindowId) && nextZIndex == old(nextZIndex)
      ensures call.Restore? ==>
        forall i :: 0 <= i < |windows| ==>
          windows[i] == if old(windows)[i].id == call.id
            then old(windows)[i].(isMinimized := false, isMaximized := false, zIndex := old(nextZIndex))
            else old(windows)[i]
      ensures call.Focus? ==>
        forall i :: 0 <= i < |windows| ==>
          windows[i] == if old(windows)[i].id == call.id
            then old(windows)[i].(zIndex := old(nextZIndex), isMinimized := false)
            else old(windows)[i]
      ensures (call.Focus? || call.Restore?) ==>
        activeWindowId == Some(call.id) && nextZIndex == old(nextZIndex) + 1
      ensures call.Move? ==>
        && (forall i :: 0 <= i < |windows| ==>
          windows[i] == if old(windows)[i].id == call.id then old(windows)[i].(x := call.x, y := call.y) else old(windows)[i])
        && activeWindowId == old(activeWindowId) && nextZIndex == old(nextZIndex)
      ensures call.Resize? ==>
        && (forall i :: 0 <= i < |windows| ==>
          windows[i] == if old(windows)[i].id == call.id
            then old(windows)[i].(width := call.width, height := call.height)
            else old(windows)[i])
        && activeWindowId == old(activeWindowId) && nextZIndex == old(nextZIndex)
      ensures call.MinimizeAll? ==>
        && (forall i :: 0 <= i < |windows| ==> windows[i] == old(windows)[i].(isMinimized := true))
        && activeWindowId == (if old(windows) == [] then old(activeWindowId) else None)
        && nextZIndex == old(nextZIndex)
      ensures call.Lock? ==> WindowPart() == old(WindowPart())
    {
      match call
      case Open(spec) => var _ := OpenWindow(spec);
      case Close(id) => CloseWindow(id);
      case RequestClose(id) => RequestCloseWindow(id, handlerAnswer);
      case MinimizeAll => MinimizeAllWindows();
      case Minimize(id) => MinimizeWindow(id);
      case Maximize(id) => MaximizeWindow(id);
      case Restore(id) => RestoreWindow(id);
      case Focus(id) => FocusWindow(id);
      case Move(id, x, y) => UpdateWindowPosition(id, x, y);
      case Resize(id, w, h) => UpdateWindowSize(id, w, h);
      case Lock => LockScreen();
    }

    method LockScreen()
      modifies this`isLocked
      ensures isLocked
    {
      isLocked := true;
    }

    method UnlockScreen()
      modifies this`isLocked
      ensures !isLocked
    {
      isLocked := false;
    }
  }
}
