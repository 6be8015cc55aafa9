/**
 * The terminal's in-memory file tree and its path handling: resolving a
 * path against the working directory, looking a path up, and writing or
 * deleting the node at a path.
 *
 * A map of entries keeps its keys in the order a JavaScript object does:
 * keys that are array indices first, in ascending numeric order, then the
 * other keys in the order they were first assigned. The root of the tree is a bare map with no type tag, not a directory
 * node; it is modelled as a `Plain` node, and so is any copy of it.
 */
module TerminalFs {
  import opened Options
  import opened Strings

  datatype Node =
    | File(content: string)
    | Dir(children: seq<Entry>)
    | Plain(entries: seq<Entry>)

  datatype Entry = Entry(name: string, node: Node)

  /** A `Record<string, FileSystemNode>`: entries in the object's key order. */
  type Tree = seq<Entry>

  function Names(m: Tree): set<string> {
    if m == [] then {} else {m[0].name} + Names(m[1..])
  }

  /** `m[name]`. */
  function Get(m: Tree, name: string): (r: Option<Node>)
    ensures r.Some? <==> name in Names(m)
    ensures r.Some? ==> Entry(name, r.value) in m
  {
    if m == [] then None
    else if m[0].name == name then Some(m[0].node)
    else Get(m[1..], name)
  }

  /** A key a JavaScript object treats as an array index: a canonical decimal numeral below 2^32 - 1. */
  predicate IsIndexKey(name: string) {
    && name != []
    && (forall i :: 0 <= i < |name| ==> IsDigit(name[i]))
    && (name[0] == '0' ==> |name| == 1)
    && DigitsValue(name) < 0xFFFF_FFFF
  }

  /** An index key is listed before every key that is not an index and before every larger index. */
  predicate ListedBefore(name: string, other: string) {
    IsIndexKey(name) && (!IsIndexKey(other) || DigitsValue(name) < DigitsValue(other))
  }

  /** The key order of a JavaScript object: no key is listed after a key it belongs before. */
  predicate KeyOrdered(m: Tree) {
    forall i, j :: 0 <= i < j < |m| ==> !ListedBefore(m[j].name, m[i].name)
  }

  /**
   * `m[name] = node`: an existing key keeps its place; a new index key goes
   * before the first key it is listed before, and any other new key goes last.
   */
  function Put(m: Tree, name: string, node: Node): (r: Tree)
    ensures Names(r) == Names(m) + {name}
    ensures Get(r, name) == Some(node)
    ensures forall k :: k != name ==> Get(r, k) == Get(m, k)
  {
    if m == [] then [Entry(name, node)]
    else if m[0].name == name then [Entry(name, node)] + m[1..]
    else if name !in Names(m) && ListedBefore(name, m[0].name) then [Entry(name, node)] + m
    else [m[0]] + Put(m[1..], name, node)
  }

  /** Assigning an existing key keeps every key in its place. */
  lemma {:induction false} PutExistingKeepsOrder(m: Tree, name: string, node: Node)
    requires name in Names(m)
    ensures var r := Put(m, name, node);
      |r| == |m| && forall i :: 0 <= i < |m| ==> r[i].name == m[i].name
  {
    if m != [] && m[0].name != name {
      PutExistingKeepsOrder(m[1..], name, node);
    }
  }

  /** Assigning a new key that is not an array index appends it. */
  lemma {:induction false} PutNewAppends(m: Tree, name: string, node: Node)
    requires name !in Names(m) && !IsIndexKey(name)
    ensures Put(m, name, node) == m + [Entry(name, node)]
  {
    if m != [] {
      var e := Entry(name, node);
      assert m[0].name != name && name !in Names(m[1..]);
      PutNewAppends(m[1..], name, node);
      assert Put(m, name, node) == [m[0]] + (m[1..] + [e]);
      assert [m[0]] + (m[1..] + [e]) == m + [e];
    }
  }

  /** Assigning a new key inserts it at one place and moves nothing else. */
  lemma {:induction false} PutNewInserts(m: Tree, name: string, node: Node) returns (k: nat)
    requires name !in Names(m)
    ensures k <= |m| && Put(m, name, node) == m[..k] + [Entry(name, node)] + m[k..]
  {
    var e := Entry(name, node);
    if m == [] || ListedBefore(name, m[0].name) {
      k := 0;
      assert m[..0] + [e] + m[0..] == [e] + m;
    } else {
      assert m[0].name != name && name !in Names(m[1..]);
      var rest := Put(m[1..], name, node);
      assert Put(m, name, node) == [m[0]] + rest;
      var k' := PutNewInserts(m[1..], name, node);
      k := k' + 1;
      InsertBehind(m[0], m[1..], k', e);
      assert [m[0]] + m[1..] == m;
    }
  }

  /** Inserting behind a first element shifts the insertion point by one. */
  lemma InsertBehind<T>(x: T, s: seq<T>, k: nat, e: T)
    requires k <= |s|
    ensures [x] + (s[..k] + [e] + s[k..]) == ([x] + s)[..k + 1] + [e] + ([x] + s)[k + 1..]
  {
    assert ([x] + s)[..k + 1] == [x] + s[..k];
    assert ([x] + s)[k + 1..] == s[k..];
  }

  /** A key in a map's names is the name of one of its entries. */
  lemma {:induction false} NameAt(m: Tree, name: string) returns (k: nat)
    requires name in Names(m)
    ensures k < |m| && m[k].name == name
  {
    if m[0].name == name {
      k := 0;
    } else {
      var k' := NameAt(m[1..], name);
      k := k' + 1;
    }
  }

  /** Every entry after a `Put` is the new one or was there before. */
  lemma {:induction false} PutEntries(m: Tree, name: string, node: Node)
    ensures forall e :: e in Put(m, name, node) ==> e.name == name || e in m
  {
    if m != [] && m[0].name != name && !(name !in Names(m) && ListedBefore(name, m[0].name)) {
      PutEntries(m[1..], name, node);
    }
  }

  /** An entry listed before none of a key-ordered map's keys can go in front of it. */
  lemma ConsKeyOrdered(e: Entry, m: Tree)
    requires KeyOrdered(m)
    requires forall j :: 0 <= j < |m| ==> !ListedBefore(m[j].name, e.name)
    ensures KeyOrdered([e] + m)
  {
    var r := [e] + m;
    forall i, j | 0 <= i < j < |r|
      ensures !ListedBefore(r[j].name, r[i].name)
    {
      assert r[j] == m[j - 1];
      if i > 0 {
        assert r[i] == m[i - 1];
      }
    }
  }

  /** Assigning a key keeps a map in the key order of a JavaScript object. */
  lemma {:induction false} PutKeepsKeyOrder(m: Tree, name: string, node: Node)
    requires KeyOrdered(m)
    ensures KeyOrdered(Put(m, name, node))
  {
    var r := Put(m, name, node);
    if m == [] {
    } else if m[0].name == name {
      assert forall i :: 0 <= i < |r| ==> r[i].name == m[i].name;
    } else if name !in Names(m) && ListedBefore(name, m[0].name) {
      forall j | 0 <= j < |m|
        ensures !ListedBefore(m[j].name, name)
      {
        if j > 0 {
          assert !ListedBefore(m[j].name, m[0].name);
        }
      }
      ConsKeyOrdered(Entry(name, node), m);
    } else {
      var rest := Put(m[1..], name, node);
      assert r == [m[0]] + rest;
      assert KeyOrdered(m[1..]) by {
        forall i, j | 0 <= i < j < |m[1..]|
          ensures !ListedBefore(m[1..][j].name, m[1..][i].name)
        {
          assert m[1..][i] == m[i + 1] && m[1..][j] == m[j + 1];
        }
      }
      PutKeepsKeyOrder(m[1..], name, node);
      PutEntries(m[1..], name, node);
      forall j | 0 <= j < |rest|
        ensures !ListedBefore(rest[j].name, m[0].name)
      {
        assert rest[j] in rest;
        if rest[j].name == name {
          if name in Names(m) {
            var k := NameAt(m, name);
            assert !ListedBefore(m[k].name, m[0].name);
          }
        } else {
          var k :| 0 <= k < |m[1..]| && m[1..][k] == rest[j];
          assert m[k + 1] == rest[j];
        }
      }
      ConsKeyOrdered(m[0], rest);
    }
  }

  /** Array-index keys are listed first and in ascending order, whatever order they were assigned in. */
  lemma IndexKeysListedFirst(n: Node)
    ensures var m := Put(Put(Put([], "b", n), "10", n), "2", n);
      |m| == 3 && m[0].name == "2" && m[1].name == "10" && m[2].name == "b"
  {
    assert !IsIndexKey("b");
    assert DigitsValue("10") == 10 by {
      assert "10"[..1] == "1";
    }
    assert IsIndexKey("10");
    assert DigitsValue("2") == 2;
    assert IsIndexKey("2");
    var m1 := Put([], "b", n);
    assert m1 == [Entry("b", n)];
    var m2 := Put(m1, "10", n);
    assert "10" !in Names(m1);
    assert m2 == [Entry("10", n), Entry("b", n)];
    var m3 := Put(m2, "2", n);
    assert "2" !in Names(m2);
    assert m3 == [Entry("2", n), Entry("10", n), Entry("b", n)];
  }

  /** `delete m[name]`. */
  function Remove(m: Tree, name: string): (r: Tree)
    ensures Names(r) == Names(m) - {name}
    ensures Get(r, name) == None
    ensures forall k :: k != name ==> Get(r, k) == Get(m, k)
    ensures |r| <= |m|
  {
    if m == [] then []
    else
      var rest := Remove(m[1..], name);
      if m[0].name == name then rest
      else
        var r := [m[0]] + rest;
        assert r[1..] == rest;
        r
  }

  const InitialFileSystem: Tree := [
    Entry("home", Dir([
      Entry("user", Dir([
        Entry("Documents", Dir([
          Entry("readme.txt", File("Welcome to LovableOS!")),
          Entry("notes.txt", File("Remember to explore all the apps."))])),
        Entry("Downloads", Dir([])),
        Entry("Pictures", Dir([])),
        Entry("Desktop", Dir([]))]))])),
    Entry("etc", Dir([Entry("hostname", File("lovable-os"))])),
    Entry("tmp", Dir([]))
  ]

  const HomePath: string := "/home/user"

  // ------------------------------------------------------------- paths

  /** `path.split('/').filter(Boolean)`. */
  function Segments(path: string): seq<string> {
    NonEmpty(Split(path, '/'))
  }

  /** Every segment is non-empty and free of '/'. */
  predicate Clean(stack: seq<string>) {
    forall k :: 0 <= k < |stack| ==> stack[k] != [] && '/' !in stack[k]
  }

  lemma SegmentsAreClean(path: string)
    ensures Clean(Segments(path))
  {
  }

  /** `'/' + stack.join('/')` splits back into the stack when every segment is clean. */
  lemma JoinedSegments(stack: seq<string>)
    requires Clean(stack)
    ensures Segments("/" + Join(stack, '/')) == stack
  {
    SplitAtSeparator("", '/', Join(stack, '/'));
    assert "/" + Join(stack, '/') == "" + ['/'] + Join(stack, '/');
    if stack == [] {
      assert "/" + Join(stack, '/') == ['/'];
      assert Split(['/'], '/') == ["", ""];
      assert NonEmpty(["", ""]) == [];
    } else {
      SplitJoin(stack, '/');
      NonEmptyKeeps(stack);
    }
  }

  /** One segment of a relative path applied to the directory stack. */
  function Apply(stack: seq<string>, part: string): (r: seq<string>)
    ensures part == ".." ==> r == (if stack == [] then [] else stack[..|stack| - 1])
    ensures part == "." || part == "" ==> r == stack
    ensures part != ".." && part != "." && part != "" ==> r == stack + [part]
  {
    if part == ".." then (if stack == [] then [] else stack[..|stack| - 1])
    else if part != "." && part != "" then stack + [part]
    else stack
  }

  function ApplyAll(stack: seq<string>, parts: seq<string>): seq<string>
    decreases |parts|
  {
    if parts == [] then stack else ApplyAll(Apply(stack, parts[0]), parts[1..])
  }

  lemma {:induction false} ApplyAllClean(stack: seq<string>, parts: seq<string>)
    requires Clean(stack)
    requires forall k :: 0 <= k < |parts| ==> '/' !in parts[k]
    ensures Clean(ApplyAll(stack, parts))
    decreases |parts|
  {
    if parts != [] {
      ApplyAllClean(Apply(stack, parts[0]), parts[1..]);
    }
  }

  /**
   * `resolvePath`: a path starting with '/' is taken as it is, without
   * normalising '.' or '..'; any other path is applied segment by segment to
   * the working directory.
   */
  function ResolvedPath(cwd: string, path: string): (r: string)
    ensures |r| > 0 && r[0] == '/'
    ensures StartsWith(path, "/") ==> r == path
  {
    if StartsWith(path, "/") then path
    else "/" + Join(ApplyAll(Segments(cwd), Split(path, '/')), '/')
  }

  /** A resolved relative path names exactly the directory stack the segments produce. */
  lemma ResolvedSegments(cwd: string, path: string)
    requires !StartsWith(path, "/")
    ensures Segments(ResolvedPath(cwd, path)) == ApplyAll(Segments(cwd), Split(path, '/'))
  {
    ApplyAllClean(Segments(cwd), Split(path, '/'));
    JoinedSegments(ApplyAll(Segments(cwd), Split(path, '/')));
  }

  /** `..` goes up one directory, and stays at the root when already there. */
  lemma ResolveParent(cwd: string)
    ensures var up := Segments(ResolvedPath(cwd, ".."));
      var here := Segments(cwd);
      up == (if here == [] then [] else here[..|here| - 1])
  {
    ResolvedSegments(cwd, "..");
    SplitNoSeparator("..", '/');
  }

  /** The loop of `resolvePath`, pushing and popping a copy of the working directory's segments. */
  method ResolvePath(cwd: string, path: string) returns (r: string)
    ensures r == ResolvedPath(cwd, path)
  {
    if StartsWith(path, "/") {
      return path;
    }
    var parts := Segments(cwd);
    var newParts := Split(path, '/');
    var i := 0;
    while i < |newParts|
      invariant 0 <= i <= |newParts|
      invariant ApplyAll(parts, newParts[i..]) == ApplyAll(Segments(cwd), newParts)
    {
      var part := newParts[i];
      assert newParts[i..][1..] == newParts[i + 1..];
      if part == ".." {
        if parts != [] {
          parts := parts[..|parts| - 1];
        }
      } else if part != "." && part != "" {
        parts := parts + [part];
      }
      i := i + 1;
    }
    return "/" + Join(parts, '/');
  }

  datatype ParentName = ParentName(parentPath: string, name: string)

  /** `getParentAndName`: the last non-empty segment is the name, the rest the parent. */
  function ParentAndName(path: string): (r: ParentName)
    ensures var segs := Segments(path);
      && (segs == [] ==> r.name == "" && Segments(r.parentPath) == [])
      && (segs != [] ==> r.name == segs[|segs| - 1] && Segments(r.parentPath) == segs[..|segs| - 1])
    ensures |r.parentPath| > 0 && r.parentPath[0] == '/'
  {
    var parts := Segments(path);
    var init := if parts == [] then [] else parts[..|parts| - 1];
    JoinedSegments(init);
    ParentName("/" + Join(init, '/'), if parts == [] then "" else parts[|parts| - 1])
  }

  // ------------------------------------------------------------ lookup

  /**
   * The map the next segment is looked up in: a directory's children, or a
   * bare map itself. A file cannot be descended, and neither can a bare map
   * holding an entry named "type", which the lookup takes for a node whose
   * type is not 'directory'.
   */
  function Container(n: Node): (r: Option<Tree>)
    ensures n.File? ==> r.None?
    ensures n.Dir? ==> r == Some(n.children)
  {
    match n
    case File(_) => None
    case Dir(ch) => Some(ch)
    case Plain(m) => if "type" in Names(m) then None else Some(m)
  }

  /** Walk down from `n` along `parts`. */
  function Descend(n: Node, parts: seq<string>): Option<Node>
    decreases |parts|
  {
    if parts == [] then Some(n)
    else match Container(n)
      case None => None
      case Some(m) =>
        match Get(m, parts[0])
        case None => None
        case Some(child) => Descend(child, parts[1..])
  }

  /** `getNodeAtPath`: the node at a path; a path with no segments gives the root map itself. */
  function Lookup(fs: Tree, path: string): (r: Option<Node>)
    ensures Segments(path) == [] ==> r == Some(Plain(fs))
  {
    Descend(Plain(fs), Segments(path))
  }

  /** The loop of `getNodeAtPath`, moving a cursor down one segment at a time. */
  method GetNodeAtPath(fs: Tree, path: string) returns (r: Option<Node>)
    ensures r == Lookup(fs, path)
  {
    var parts := Segments(path);
    var current := Plain(fs);
    var i := 0;
    while i < |parts|
      invariant 0 <= i <= |parts|
      invariant Descend(current, parts[i..]) == Lookup(fs, path)
    {
      assert parts[i..][1..] == parts[i + 1..];
      var map_: Tree;
      match current {
        case File(_) =>
          return None;
        case Dir(ch) =>
          map_ := ch;
        case Plain(m) =>
          if "type" in Names(m) {
            return None;
          }
          map_ := m;
      }
      var child := Get(map_, parts[i]);
      if child.None? {
        return None;
      }
      current := child.value;
      i := i + 1;
    }
    assert parts[i..] == [];
    return Some(current);
  }

  /** A file has nothing below it. */
  lemma NothingBelowFile(content: string, parts: seq<string>)
    requires parts != []
    ensures Descend(File(content), parts) == None
  {
  }

  /** Walking two paths one after the other is walking their concatenation. */
  lemma {:induction false} DescendAppend(n: Node, a: seq<string>, b: seq<string>)
    ensures Descend(n, a + b) == match Descend(n, a) case None => None case Some(x) => Descend(x, b)
    decreases |a|
  {
    if a == [] {
      assert a + b == b;
    } else {
      assert (a + b)[0] == a[0] && (a + b)[1..] == a[1..] + b;
      match Container(n)
      case None =>
      case Some(m) =>
        match Get(m, a[0])
        case None =>
        case Some(child) => DescendAppend(child, a[1..], b);
    }
  }

  /** A path whose first `i` segments lead to a map without its next segment leads nowhere. */
  lemma LookupMissingSegment(fs: Tree, path: string, i: nat, m: Tree)
    requires i < |Segments(path)|
    requires Descend(Plain(fs), Segments(path)[..i]).Some?
    requires Container(Descend(Plain(fs), Segments(path)[..i]).value) == Some(m)
    requires Segments(path)[i] !in Names(m)
    ensures Lookup(fs, path) == None
  {
    var parts := Segments(path);
    assert parts == parts[..i] + parts[i..];
    DescendAppend(Plain(fs), parts[..i], parts[i..]);
    assert parts[i..][0] == parts[i];
  }

  /** A path with a file at one of its proper prefixes leads nowhere. */
  lemma LookupBelowFile(fs: Tree, path: string, i: nat, content: string)
    requires i < |Segments(path)|
    requires Descend(Plain(fs), Segments(path)[..i]) == Some(File(content))
    ensures Lookup(fs, path) == None
  {
    var parts := Segments(path);
    assert parts == parts[..i] + parts[i..];
    DescendAppend(Plain(fs), parts[..i], parts[i..]);
    NothingBelowFile(content, parts[i..]);
  }

  // ------------------------------------------------------------ update

  /** The entries of a map node, whatever they hold. */
  function EntriesOf(n: Node): (r: Tree)
    requires !n.File?
    ensures Container(n).Some? ==> r == Container(n).value
  {
    if n.Dir? then n.children else n.entries
  }

  /** The same kind of map node holding other entries. */
  function WithEntries(n: Node, m: Tree): (r: Node)
    ensures n.Dir? ==> r == Dir(m)
    ensures n.Plain? ==> r == Plain(m)
  {
    match n
    case File(_) => n
    case Dir(_) => Dir(m)
    case Plain(_) => Plain(m)
  }

  /**
   * The walk of `setNodeAtPath` below the map `m`: descend through
   * directories and bare maps along `parts`, then write (`Some`) or delete
   * (`None`) the entry `name`. A missing segment abandons the update. A
   * file on the way also abandons it here.
   */
  function SetIn(m: Tree, parts: seq<string>, name: string, value: Option<Node>): Option<Tree>
    decreases |parts|
  {
    if parts == [] then
      Some(match value case None => Remove(m, name) case Some(v) => Put(m, name, v))
    else match Get(m, parts[0])
      case None => None
      case Some(child) =>
        if child.File? then None
        else match SetIn(EntriesOf(child), parts[1..], name, value)
          case None => None
          case Some(m2) => Some(Put(m, parts[0], WithEntries(child, m2)))
  }

  /** `setNodeAtPath(path, node)` on the tree `fs`; an abandoned walk leaves the tree as it was. */
  function SetNodeAtPath(fs: Tree, path: string, value: Option<Node>): Tree {
    var pn := ParentAndName(path);
    match SetIn(fs, Segments(pn.parentPath), pn.name, value)
    case None => fs
    case Some(fs2) => fs2
  }

  /** The walk of `setNodeAtPath` succeeds and yields the node `c` rebuilt around the updated map. */
  predicate Updates(c: Node, parts: seq<string>, name: string, value: Option<Node>, c2: Node)
    requires !c.File?
  {
    !c2.File? && SetIn(EntriesOf(c), parts, name, value) == Some(EntriesOf(c2)) && c2 == WithEntries(c, EntriesOf(c2))
  }

  /** The parent itself is written: the entry `name` now holds the value, or is gone. */
  lemma SetAtParent(c: Node, name: string, value: Option<Node>) returns (c2: Node)
    requires Container(c).Some?
    requires c.Dir? || value.None?
    ensures Updates(c, [], name, value, c2)
    ensures Container(c2).Some? && c2.Dir? == c.Dir?
    ensures Descend(c2, [name]) == value
  {
    var m2 := SetIn(EntriesOf(c), [], name, value).value;
    c2 := WithEntries(c, m2);
    assert Descend(c2, [name]) == Get(m2, name);
  }

  /**
   * Writing below a map node whose parent path leads to a map: the walk
   * succeeds, the path then leads to the written value (or to nothing after
   * a delete), and the parent is still a map of the same kind. Writing into
   * a bare parent is only claimed for deletion: a bare map that gained an
   * entry named "type" could no longer be descended.
   */
  lemma {:induction false} SetThenDescend(c: Node, parts: seq<string>, name: string, value: Option<Node>) returns (c2: Node)
    requires Container(c).Some?
    requires Descend(c, parts).Some? && Container(Descend(c, parts).value).Some?
    requires Descend(c, parts).value.Dir? || value.None?
    ensures Updates(c, parts, name, value, c2)
    ensures Container(c2).Some?
    ensures Descend(c2, parts + [name]) == value
    ensures Descend(c2, parts).Some?
    ensures Descend(c2, parts).value.Dir? == Descend(c, parts).value.Dir?
    ensures Container(Descend(c2, parts).value).Some?
    decreases |parts|
  {
    if parts == [] {
      assert [] + [name] == [name];
      c2 := SetAtParent(c, name, value);
    } else {
      c2 := SetBelow(c, parts, name, value);
    }
  }

  /** The inductive step of `SetThenDescend`: one segment down, then the rest of the walk. */
  lemma {:induction false} SetBelow(c: Node, parts: seq<string>, name: string, value: Option<Node>) returns (c2: Node)
    requires parts != []
    requires Container(c).Some?
    requires Descend(c, parts).Some? && Container(Descend(c, parts).value).Some?
    requires Descend(c, parts).value.Dir? || value.None?
    ensures Updates(c, parts, name, value, c2)
    ensures Container(c2).Some?
    ensures Descend(c2, parts + [name]) == value
    ensures Descend(c2, parts).Some?
    ensures Descend(c2, parts).value.Dir? == Descend(c, parts).value.Dir?
    ensures Container(Descend(c2, parts).value).Some?
    decreases |parts|, 0
  {
    var m := EntriesOf(c);
    assert Container(c) == Some(m);
    var p, rest := parts[0], parts[1..];
    var child := Get(m, p).value;
    assert Descend(c, parts) == Descend(child, rest);
    var child2 := SetThenDescend(child, rest, name, value);
    var m2 := Put(m, p, child2);
    assert SetIn(m, parts, name, value) == Some(m2);
    c2 := WithEntries(c, m2);
    assert Names(m2) == Names(m);
    assert Container(c2) == Some(m2) && EntriesOf(c2) == m2;
    assert Get(m2, p) == Some(child2);
    assert (parts + [name])[0] == p && (parts + [name])[1..] == rest + [name];
    assert Descend(c2, parts + [name]) == Descend(child2, rest + [name]);
    assert Descend(c2, parts) == Descend(child2, rest);
  }

  /**
   * At the level of paths: once the parent path of a non-root path leads to
   * a directory, writing the path makes it lead to the value; once it leads
   * to any map, deleting the path makes it lead nowhere.
   */
  lemma SetThenLookup(fs: Tree, path: string, value: Option<Node>)
    requires Segments(path) != []
    requires var parent := Lookup(fs, ParentAndName(path).parentPath);
      parent.Some? && Container(parent.value).Some? && (parent.value.Dir? || value.None?)
    ensures Lookup(SetNodeAtPath(fs, path, value), path) == value
    ensures var parent := Lookup(SetNodeAtPath(fs, path, value), ParentAndName(path).parentPath);
      parent.Some? && Container(parent.value).Some?
      && parent.value.Dir? == Lookup(fs, ParentAndName(path).parentPath).value.Dir?
  {
    var segs := Segments(path);
    var init, last := segs[..|segs| - 1], segs[|segs| - 1];
    var pn := ParentAndName(path);
    assert Segments(pn.parentPath) == init && pn.name == last;
    assert segs == init + [last];
    var root := SetThenDescend(Plain(fs), init, last, value);
    assert SetIn(fs, init, last, value) == Some(root.entries);
    assert SetNodeAtPath(fs, path, value) == root.entries;
  }
}
