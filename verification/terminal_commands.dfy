/**
 * The terminal's commands, each as a function from the file tree, the
 * working directory and the arguments to what it prints and the new tree
 * and working directory.
 */
module TerminalCommands {
  import opened Options
  import opened Strings
  import opened TerminalFs
  import opened Lists

  datatype Kind = InputLine | OutputLine | ErrorLine

  datatype Line = Line(content: string, kind: Kind)

  /** What a command leaves behind: the lines it printed, whether it cleared the screen, the tree and the working directory. */
  datatype Outcome = Outcome(lines: seq<Line>, cleared: bool, fs: Tree, cwd: string)

  /** What a command sees: the tree, the working directory and the history before the command. */
  datatype Context = Context(fs: Tree, cwd: string, history: seq<string>)

  /** The commands that change the tree. */
  const Writers: set<string> := {"mkdir", "touch", "rm", "cp", "mv"}

  const CommandNames: seq<string> := Keys(CommandTable)

  function Keys(table: seq<(string, Command)>): (r: seq<string>)
    ensures |r| == |table| && forall i :: 0 <= i < |table| ==> r[i] == table[i].0
  {
    if table == [] then [] else [table[0].0] + Keys(table[1..])
  }

  /** `commands[name]`: the first handler listed under the name. */
  function Search(name: string, table: seq<(string, Command)>): (r: Option<Command>)
    ensures r.Some? <==> name in Keys(table)
    ensures r.Some? ==> (name, r.value) in table
  {
    if table == [] then None
    else if table[0].0 == name then Some(table[0].1)
    else Search(name, table[1..])
  }

  const HeadCount: nat := 10
  const FindDepth: nat := 3

  function Print(fs: Tree, cwd: string, text: seq<string>): (o: Outcome)
    ensures o.fs == fs && o.cwd == cwd && !o.cleared
    ensures |o.lines| == |text| && forall i :: 0 <= i < |text| ==> o.lines[i] == Line(text[i], OutputLine)
  {
    Outcome(seq(|text|, i requires 0 <= i < |text| => Line(text[i], OutputLine)), false, fs, cwd)
  }

  function Fail(fs: Tree, cwd: string, message: string): (o: Outcome)
    ensures o == Outcome([Line(message, ErrorLine)], false, fs, cwd)
  {
    Outcome([Line(message, ErrorLine)], false, fs, cwd)
  }

  function Quiet(fs: Tree, cwd: string): Outcome {
    Outcome([], false, fs, cwd)
  }

  /** `node.content || ''`: a bare map has no content and reads as empty. */
  function TextOf(n: Node): string {
    if n.File? then n.content else ""
  }

  /** The operand that does not start with '-', as `args.filter(a => !a.startsWith('-'))[0]`. */
  function FirstOperand(args: seq<string>): (r: Option<string>)
    ensures r.Some? ==> r.value in args && !StartsWith(r.value, "-")
    ensures r.None? ==> forall a :: a in args ==> StartsWith(a, "-")
  {
    if args == [] then None
    else if !StartsWith(args[0], "-") then Some(args[0])
    else FirstOperand(args[1..])
  }

  // ---------------------------------------------------------------- ls

  /**
   * The size `ls -l` shows: a file's JavaScript length (UTF-16 code units),
   * or 4096 for a directory, a bare map or an empty file.
   */
  function SizeOf(n: Node): (r: nat)
    ensures r > 0
    ensures n.File? && n.content != [] ==> |n.content| <= r <= 2 * |n.content|
    ensures !(n.File? && n.content != []) ==> r == 4096
  {
    if n.File? && |n.content| > 0 then Utf16Length(n.content) else 4096
  }

  /** The size column of `ls -l`: the size right-aligned in six characters. */
  function SizeField(n: Node): (r: string)
    ensures |r| >= 6
  {
    PadStart(NatToString(SizeOf(n)), 6, ' ')
  }

  /** The size column reads back, once its padding is trimmed, as the size. */
  lemma SizeFieldReadsBack(n: Node)
    ensures ParseNat(TrimStart(SizeField(n))) == Some(SizeOf(n))
  {
    PaddedReadsBack(SizeOf(n));
  }

  /** A number right-aligned in six characters reads back, once its padding is trimmed, as itself. */
  lemma PaddedReadsBack(v: nat)
    ensures ParseNat(TrimStart(PadStart(NatToString(v), 6, ' '))) == Some(v)
  {
    var digits := NatToString(v);
    var field := PadStart(digits, 6, ' ');
    assert field == field[..|field| - |digits|] + digits;
    TrimSpacesBefore(field[..|field| - |digits|], digits);
    ParsePrinted(v);
  }

  /** Trimming the start drops a run of spaces in front of a text that starts with something else. */
  lemma {:induction false} TrimSpacesBefore(pad: string, s: string)
    requires forall i :: 0 <= i < |pad| ==> pad[i] == ' '
    requires s != [] && !IsSpace(s[0])
    ensures TrimStart(pad + s) == s
  {
    if pad != [] {
      assert (pad + s)[1..] == pad[1..] + s;
      TrimSpacesBefore(pad[1..], s);
    } else {
      assert pad + s == s;
    }
  }

  /**
   * One line of `ls -l`: the type letter and fixed permissions, links and
   * owner, the size column, the fixed date and the name as the short
   * listing shows it.
   */
  function LongLine(e: Entry): (r: string)
    ensures |r| > 0 && r[0] == (if e.node.Dir? then 'd' else '-')
    ensures r == [r[0]] + "rwxr-xr-x 1 user user " + SizeField(e.node) + " Jan  1 00:00 " + ShortName(e)
    ensures EndsWith(r, e.name + (if e.node.Dir? then "/" else ""))
  {
    var tail := e.name + (if e.node.Dir? then "/" else "");
    var r := (if e.node.Dir? then "d" else "-") + "rwxr-xr-x 1 user user " + PadStart(NatToString(SizeOf(e.node)), 6, ' ')
      + " Jan  1 00:00 " + tail;
    assert r[|r| - |tail|..] == tail;
    r
  }

  /** An entry's name as the short listing shows it: directories end in '/'. */
  function ShortName(e: Entry): string {
    if e.node.Dir? then e.name + "/" else e.name
  }

  function LongLines(entries: seq<Entry>): (r: seq<string>)
    ensures |r| == |entries| && forall i :: 0 <= i < |entries| ==> r[i] == LongLine(entries[i])
  {
    if entries == [] then [] else [LongLine(entries[0])] + LongLines(entries[1..])
  }

  function ShortNames(entries: seq<Entry>): (r: seq<string>)
    ensures |r| == |entries| && forall i :: 0 <= i < |entries| ==> r[i] == ShortName(entries[i])
  {
    if entries == [] then [] else [ShortName(entries[0])] + ShortNames(entries[1..])
  }

  /** The last piece of a path split on '/', as `path.split('/').pop()`. */
  function LastPiece(path: string): string {
    var pieces := Split(path, '/');
    pieces[|pieces| - 1]
  }

  /**
   * `ls`: a directory's entries (with a leading `..` under `-a`), on one line
   * joined by two spaces, or one long line each under `-l`; anything that
   * is not a directory node prints its own name.
   */
  function RunLs(fs: Tree, cwd: string, args: seq<string>): (o: Outcome)
    ensures o.fs == fs && o.cwd == cwd && !o.cleared
    ensures var target := FirstOperand(args);
      var path := if target.Some? then ResolvedPath(cwd, target.value) else cwd;
      var n := Lookup(fs, path);
      && (n.None? ==> o == Fail(fs, cwd, "ls: cannot access '" + (if target.Some? then target.value else path) + "': No such file or directory"))
      && (n.Some? && !n.value.Dir? ==> o == Print(fs, cwd, [if target.Some? then target.value else LastPiece(path)]))
      && (n.Some? && n.value.Dir? ==>
            var all := "-a" in args || "-la" in args || "-al" in args;
            var long := "-l" in args || "-la" in args || "-al" in args;
            var entries := (if all then [Entry("..", Dir([]))] else []) + n.value.children;
            && (entries == [] ==> o.lines == [])
            && (entries != [] && long ==> o == Print(fs, cwd, LongLines(entries)))
            && (entries != [] && !long ==> o == Print(fs, cwd, [JoinWith(ShortNames(entries), "  ")])))
  {
    var all := "-a" in args || "-la" in args || "-al" in args;
    var long := "-l" in args || "-la" in args || "-al" in args;
    var target := FirstOperand(args);
    var path := if target.Some? then ResolvedPath(cwd, target.value) else cwd;
    match Lookup(fs, path)
    case None => Fail(fs, cwd, "ls: cannot access '" + (if target.Some? then target.value else path) + "': No such file or directory")
    case Some(n) =>
      if !n.Dir? then Print(fs, cwd, [if target.Some? then target.value else LastPiece(path)])
      else
        var entries := (if all then [Entry("..", Dir([]))] else []) + n.children;
        if entries == [] then Quiet(fs, cwd)
        else if long then Print(fs, cwd, LongLines(entries))
        else Print(fs, cwd, [JoinWith(ShortNames(entries), "  ")])
  }

  /** `ls -a` always lists `..` first, even in an empty directory. */
  lemma LsAllShowsParent(fs: Tree, cwd: string)
    requires Lookup(fs, cwd).Some? && Lookup(fs, cwd).value.Dir?
    ensures RunLs(fs, cwd, ["-a"]).lines != []
    ensures StartsWith(RunLs(fs, cwd, ["-a"]).lines[0].content, "../")
  {
    var entries := [Entry("..", Dir([]))] + Lookup(fs, cwd).value.children;
    assert FirstOperand(["-a"]) == None by {
      assert StartsWith("-a", "-");
    }
    var names := ShortNames(entries);
    assert names[0] == "../";
    if |names| > 1 {
      assert JoinWith(names, "  ")[..3] == "../";
    }
  }

  // ------------------------------------------------------ fixed answers

  function RunUname(fs: Tree, cwd: string, args: seq<string>): (o: Outcome)
    ensures o.fs == fs && o.cwd == cwd && |o.lines| == 1
  {
    Print(fs, cwd, [if "-a" in args then "LovableOS 1.0.0 lovable-os x86_64 JavaScript/TypeScript" else "LovableOS"])
  }

  /** `kill` never kills: without an operand it prints its usage, otherwise a refusal. */
  function RunKill(fs: Tree, cwd: string, args: seq<string>): (o: Outcome)
    ensures o.fs == fs && o.cwd == cwd && |o.lines| == 1
    ensures (o.lines[0].kind == ErrorLine) <==> |args| == 0
  {
    if |args| == 0 then Fail(fs, cwd, "kill: usage: kill [-s sigspec | -n signum | -sigspec] pid | jobspec ... or kill -l [sigspec]")
    else Print(fs, cwd, ["-bash: kill: (" + args[0] + ") - Operation not permitted"])
  }

  /** `export` echoes its arguments and sets nothing. */
  function RunExport(fs: Tree, cwd: string, args: seq<string>): (o: Outcome)
    ensures o.fs == fs && o.cwd == cwd && |o.lines| == 1
    ensures (o.lines[0].kind == ErrorLine) <==> |args| == 0
  {
    if |args| == 0 then Fail(fs, cwd, "export: usage: export VAR=value")
    else Print(fs, cwd, ["export: " + Join(args, ' ')])
  }

  const EnvLines: seq<string> := [
    "USER=user", "HOME=/home/user", "SHELL=/bin/bash", "PATH=/usr/local/bin:/usr/bin:/bin",
    "TERM=xterm-256color", "LANG=en_US.UTF-8", "NODE_ENV=development"
  ]

  const AliasLines: seq<string> := ["alias ll='ls -la'", "alias la='ls -a'", "alias ..='cd ..'", "alias cls='clear'"]

  const DfLines: seq<string> := [
    "Filesystem     1K-blocks    Used Available Use% Mounted on",
    "/dev/root       51200000 2048000  49152000   4% /",
    "tmpfs            8192000       0   8192000   0% /tmp",
    "/dev/home       25600000  512000  25088000   2% /home"
  ]

  const FreeLines: seq<string> := [
    "              total        used        free      shared  buff/cache   available",
    "Mem:        8192000     1024000     5120000       64000     2048000     6912000",
    "Swap:       2048000           0     2048000"
  ]

  /** The manual pages `man` knows, by lower-cased name. */
  function ManPage(name: string): Option<seq<string>> {
    if name == "ls" then
      Some(["LS(1)", "", "NAME", "       ls - list directory contents", "", "SYNOPSIS", "       ls [OPTION]... [FILE]...", "",
            "DESCRIPTION", "       List information about the FILEs.", "       -a  do not ignore entries starting with .",
            "       -l  use a long listing format"])
    else if name == "cd" then
      Some(["CD(1)", "", "NAME", "       cd - change directory", "", "SYNOPSIS", "       cd [dir]", "", "DESCRIPTION",
            "       Change the current directory to dir."])
    else if name == "cat" then
      Some(["CAT(1)", "", "NAME", "       cat - concatenate files and print on standard output", "", "SYNOPSIS",
            "       cat [FILE]...", "", "DESCRIPTION", "       Concatenate FILE(s) to standard output."])
    else None
  }

  function RunMan(fs: Tree, cwd: string, args: seq<string>): (o: Outcome)
    ensures o.fs == fs && o.cwd == cwd && !o.cleared
    ensures |args| == 0 ==> o == Fail(fs, cwd, "What manual page do you want?")
    ensures |args| > 0 && ManPage(Lower(args[0])).None? ==> o == Print(fs, cwd, ["No manual entry for " + args[0]])
    ensures |args| > 0 && ManPage(Lower(args[0])).Some? ==> o == Print(fs, cwd, ManPage(Lower(args[0])).value)
  {
    if |args| == 0 then Fail(fs, cwd, "What manual page do you want?")
    else match ManPage(Lower(args[0]))
      case None => Print(fs, cwd, ["No manual entry for " + args[0]])
      case Some(page) => Print(fs, cwd, page)
  }

  // ---------------------------------------------------------------- cd

  function RunCd(fs: Tree, cwd: string, args: seq<string>): (o: Outcome)
    ensures o.fs == fs && !o.cleared
    ensures |args| == 0 || args[0] == "~" ==> o == Quiet(fs, HomePath)
    ensures o.cwd != cwd ==> o.lines == [] && (o.cwd == HomePath || (Lookup(fs, o.cwd).Some? && Lookup(fs, o.cwd).value.Dir?))
    ensures |args| > 0 && args[0] != "~" ==>
      var target := Lookup(fs, ResolvedPath(cwd, args[0]));
      && (target.None? ==> o == Fail(fs, cwd, "cd: " + args[0] + ": No such file or directory"))
      && (target.Some? && !target.value.Dir? ==> o == Fail(fs, cwd, "cd: " + args[0] + ": Not a directory"))
      && (target.Some? && target.value.Dir? ==> o == Quiet(fs, ResolvedPath(cwd, args[0])))
  {
    if |args| == 0 || args[0] == "~" then Quiet(fs, HomePath)
    else
      var path := ResolvedPath(cwd, args[0]);
      match Lookup(fs, path)
      case None => Fail(fs, cwd, "cd: " + args[0] + ": No such file or directory")
      case Some(n) =>
        if !n.Dir? then Fail(fs, cwd, "cd: " + args[0] + ": Not a directory")
        else Quiet(fs, path)
  }

  /** The root is a bare map, not a directory node, so `cd /` is refused. */
  lemma CdRootRefused(fs: Tree, cwd: string)
    ensures RunCd(fs, cwd, ["/"]) == Fail(fs, cwd, "cd: /: Not a directory")
  {
    assert StartsWith("/", "/");
    assert Segments("/") == [] by {
      assert Split("/", '/') == ["", ""];
      assert NonEmpty(["", ""]) == [];
    }
    assert ResolvedPath(cwd, "/") == "/";
    assert Lookup(fs, "/") == Some(Plain(fs));
    assert "cd: " + "/" + ": Not a directory" == "cd: /: Not a directory";
  }

  // --------------------------------------------------- reading a file

  function RunCat(fs: Tree, cwd: string, args: seq<string>): (o: Outcome)
    ensures o.fs == fs && o.cwd == cwd
    ensures |args| == 0 ==> o == Fail(fs, cwd, "cat: missing file operand")
    ensures |args| > 0 ==>
      var n := Lookup(fs, ResolvedPath(cwd, args[0]));
      && (n.None? ==> o == Fail(fs, cwd, "cat: " + args[0] + ": No such file or directory"))
      && (n.Some? && n.value.Dir? ==> o == Fail(fs, cwd, "cat: " + args[0] + ": Is a directory"))
      && (n.Some? && !n.value.Dir? ==> o == Print(fs, cwd, [TextOf(n.value)]))
  {
    if |args| == 0 then Fail(fs, cwd, "cat: missing file operand")
    else match Lookup(fs, ResolvedPath(cwd, args[0]))
      case None => Fail(fs, cwd, "cat: " + args[0] + ": No such file or directory")
      case Some(n) =>
        if n.Dir? then Fail(fs, cwd, "cat: " + args[0] + ": Is a directory")
        else Print(fs, cwd, [TextOf(n)])
  }

  /** `lines.filter(line => line.toLowerCase().includes(pattern.toLowerCase()))`. */
  function Matching(lines: seq<string>, pattern: string): (r: seq<string>)
    ensures forall l :: l in r <==> l in lines && ContainsIgnoringCase(l, pattern)
    ensures |r| <= |lines|
  {
    if lines == [] then []
    else (if ContainsIgnoringCase(lines[0], pattern) then [lines[0]] else []) + Matching(lines[1..], pattern)
  }

  /** `Matching` is the general filter with the case-blind containment test. */
  lemma {:induction false} MatchingIsFilter(lines: seq<string>, pattern: string)
    ensures Matching(lines, pattern) == Filter(lines, (l: string) => ContainsIgnoringCase(l, pattern))
  {
    if lines != [] {
      MatchingIsFilter(lines[1..], pattern);
    }
  }

  function RunGrep(fs: Tree, cwd: string, args: seq<string>): (o: Outcome)
    ensures o.fs == fs && o.cwd == cwd && !o.cleared
    ensures |args| < 2 ==> o == Fail(fs, cwd, "grep: missing pattern or file")
    ensures |args| >= 2 ==>
      var n := Lookup(fs, ResolvedPath(cwd, args[1]));
      && (n.None? ==> o == Fail(fs, cwd, "grep: " + args[1] + ": No such file or directory"))
      && (n.Some? && n.value.Dir? ==> o == Fail(fs, cwd, "grep: " + args[1] + ": Is a directory"))
      && (n.Some? && !n.value.Dir? ==>
            && o == Print(fs, cwd, Matching(Split(TextOf(n.value), '\n'), args[0]))
            && forall l :: Line(l, OutputLine) in o.lines <==> l in Split(TextOf(n.value), '\n') && ContainsIgnoringCase(l, args[0]))
  {
    if |args| < 2 then Fail(fs, cwd, "grep: missing pattern or file")
    else match Lookup(fs, ResolvedPath(cwd, args[1]))
      case None => Fail(fs, cwd, "grep: " + args[1] + ": No such file or directory")
      case Some(n) =>
        if n.Dir? then Fail(fs, cwd, "grep: " + args[1] + ": Is a directory")
        else
          var found := Matching(Split(TextOf(n), '\n'), args[0]);
          var o := Print(fs, cwd, found);
          assert forall l :: Line(l, OutputLine) in o.lines <==> l in found by {
            forall l | Line(l, OutputLine) in o.lines ensures l in found {
              var i :| 0 <= i < |o.lines| && o.lines[i] == Line(l, OutputLine);
              assert found[i] == l;
            }
            forall l | l in found ensures Line(l, OutputLine) in o.lines {
              var i :| 0 <= i < |found| && found[i] == l;
              assert o.lines[i] == Line(l, OutputLine);
            }
          }
          o
  }

  /** `lines.slice(0, 10)`: the first ten lines, or all of them. */
  function FirstLines(lines: seq<string>): (r: seq<string>)
    ensures |r| == if |lines| < HeadCount then |lines| else HeadCount
    ensures r <= lines
  {
    if |lines| <= HeadCount then lines else lines[..HeadCount]
  }

  /** `lines.slice(-10)`: the last ten lines, or all of them. */
  function LastLines(lines: seq<string>): (r: seq<string>)
    ensures |r| == if |lines| < HeadCount then |lines| else HeadCount
    ensures r == lines[|lines| - |r|..]
  {
    if |lines| <= HeadCount then lines else lines[|lines| - HeadCount..]
  }

  /** Ten lines or fewer: head and tail both show the whole file. */
  lemma ShortFileHeadIsTail(lines: seq<string>)
    requires |lines| <= HeadCount
    ensures FirstLines(lines) == LastLines(lines) == lines
  {
  }

  /** `head` and `tail`, which differ only in which ten lines they keep. */
  function RunHeadOrTail(fs: Tree, cwd: string, args: seq<string>, head: bool): (o: Outcome)
    ensures o.fs == fs && o.cwd == cwd && !o.cleared
    ensures var name := if head then "head" else "tail";
      && (|args| == 0 ==> o == Fail(fs, cwd, name + ": missing file operand"))
      && (|args| > 0 ==>
          var n := Lookup(fs, ResolvedPath(cwd, args[0]));
          && (n.None? || n.value.Dir? ==> o == Fail(fs, cwd, name + ": cannot open '" + args[0] + "' for reading"))
          && (n.Some? && !n.value.Dir? ==>
                var lines := Split(TextOf(n.value), '\n');
                o == Print(fs, cwd, if head then FirstLines(lines) else LastLines(lines))))
  {
    var name := if head then "head" else "tail";
    if |args| == 0 then Fail(fs, cwd, name + ": missing file operand")
    else
      var n := Lookup(fs, ResolvedPath(cwd, args[0]));
      if n.None? || n.value.Dir? then Fail(fs, cwd, name + ": cannot open '" + args[0] + "' for reading")
      else
        var lines := Split(TextOf(n.value), '\n');
        Print(fs, cwd, if head then FirstLines(lines) else LastLines(lines))
  }

  /**
   * `wc`: the line count, the number of white-space separated words and the
   * JavaScript length (UTF-16 code units) of the file, then its operand.
   */
  function RunWc(fs: Tree, cwd: string, args: seq<string>): (o: Outcome)
    ensures o.fs == fs && o.cwd == cwd && !o.cleared
    ensures |args| == 0 ==> o == Fail(fs, cwd, "wc: missing file operand")
    ensures |args| > 0 ==>
      var n := Lookup(fs, ResolvedPath(cwd, args[0]));
      && (n.None? || n.value.Dir? ==> o == Fail(fs, cwd, "wc: " + args[0] + ": Is a directory"))
      && (n.Some? && !n.value.Dir? ==>
            var text := TextOf(n.value);
            o == Print(fs, cwd, ["  " + NatToString(Count(text, '\n') + 1) + "   " + NatToString(|Words(text)|)
                                 + "  " + NatToString(Utf16Length(text)) + " " + args[0]]))
  {
    if |args| == 0 then Fail(fs, cwd, "wc: missing file operand")
    else
      var n := Lookup(fs, ResolvedPath(cwd, args[0]));
      if n.None? || n.value.Dir? then Fail(fs, cwd, "wc: " + args[0] + ": Is a directory")
      else
        var text := TextOf(n.value);
        var lines := |Split(text, '\n')|;
        Print(fs, cwd, ["  " + NatToString(lines) + "   " + NatToString(|Words(text)|) + "  " + NatToString(Utf16Length(text)) + " " + args[0]])
  }

  // --------------------------------------------------------- find, tree

  /** `listRecursive(path, n, depth)`: the path, then, below depth 3, every child's listing. */
  function FindLines(path: string, n: Node, depth: nat): (r: seq<string>)
    ensures |r| >= 1 && r[0] == path
    ensures forall l :: l in r ==> StartsWith(l, path)
    ensures depth >= FindDepth || !n.Dir? ==> r == [path]
    decreases n
  {
    [path] + (if n.Dir? && depth < FindDepth then FindChildren(path, n.children, depth + 1) else [])
  }

  function FindChildren(path: string, children: seq<Entry>, depth: nat): (r: seq<string>)
    ensures forall l :: l in r ==> StartsWith(l, path + "/")
    decreases children
  {
    if children == [] then []
    else
      var here := FindLines(path + "/" + children[0].name, children[0].node, depth);
      assert forall l :: l in here ==> StartsWith(l, path + "/") by {
        forall l | l in here ensures StartsWith(l, path + "/") {
          assert StartsWith(l, path + "/" + children[0].name);
        }
      }
      here + FindChildren(path, children[1..], depth)
  }

  /** The path reached from `path` by following the names `parts`, joined with '/'. */
  function Under(path: string, parts: seq<string>): (r: string)
    ensures StartsWith(r, path)
    decreases |parts|
  {
    if parts == [] then path
    else
      var r := Under(path + "/" + parts[0], parts[1..]);
      assert StartsWith(r, path + "/" + parts[0]);
      r
  }

  /** From `n`, the names `parts` lead through directory entries, one level at a time. */
  ghost predicate HasPath(n: Node, parts: seq<string>)
    decreases |parts|
  {
    parts == [] || (n.Dir? && exists e :: e in n.children && e.name == parts[0] && HasPath(e.node, parts[1..]))
  }

  /** `l` is the path of an entry at most `budget` directory levels below `n`, which sits at `path`. */
  ghost predicate FoundBelow(path: string, n: Node, budget: nat, l: string) {
    exists parts :: |parts| <= budget && HasPath(n, parts) && l == Under(path, parts)
  }

  /** Below a file, or with no levels left, only the starting path is found. */
  lemma FoundAtTop(path: string, n: Node, budget: nat, l: string)
    requires !n.Dir? || budget == 0
    ensures FoundBelow(path, n, budget, l) <==> l == path
  {
    assert HasPath(n, []) && Under(path, []) == path;
  }

  /** Below a directory, the paths found are its own and those found below one of its entries with one level fewer. */
  lemma FoundInDir(path: string, n: Node, budget: nat, l: string)
    requires n.Dir? && budget > 0
    ensures FoundBelow(path, n, budget, l) <==>
      (l == path || exists e :: e in n.children && FoundBelow(path + "/" + e.name, e.node, budget - 1, l))
  {
    assert HasPath(n, []) && Under(path, []) == path;
    if FoundBelow(path, n, budget, l) && l != path {
      var parts :| |parts| <= budget && HasPath(n, parts) && l == Under(path, parts);
      var e :| e in n.children && e.name == parts[0] && HasPath(e.node, parts[1..]);
      assert FoundBelow(path + "/" + e.name, e.node, budget - 1, l);
    }
    if exists e :: e in n.children && FoundBelow(path + "/" + e.name, e.node, budget - 1, l) {
      var e :| e in n.children && FoundBelow(path + "/" + e.name, e.node, budget - 1, l);
      var parts :| |parts| <= budget - 1 && HasPath(e.node, parts) && l == Under(path + "/" + e.name, parts);
      var longer := [e.name] + parts;
      assert longer[1..] == parts;
      assert HasPath(n, longer);
    }
  }

  /** `find` prints exactly the paths of the entries at most three directory levels below where it starts. */
  lemma {:induction false} FindLinesExactly(path: string, n: Node, depth: nat)
    requires depth <= FindDepth
    ensures forall l :: l in FindLines(path, n, depth) <==> FoundBelow(path, n, FindDepth - depth, l)
    decreases n, 1
  {
    var r := FindLines(path, n, depth);
    if n.Dir? && depth < FindDepth {
      var below := FindChildren(path, n.children, depth + 1);
      FindChildrenExactly(path, n.children, depth + 1);
      assert r == [path] + below;
      forall l
        ensures l in r <==> FoundBelow(path, n, FindDepth - depth, l)
      {
        FoundInDir(path, n, FindDepth - depth, l);
      }
    } else {
      assert r == [path];
      forall l
        ensures l in r <==> FoundBelow(path, n, FindDepth - depth, l)
      {
        FoundAtTop(path, n, FindDepth - depth, l);
      }
    }
  }

  /** The children's listings hold exactly the paths found below one of the children. */
  lemma {:induction false} FindChildrenExactly(path: string, children: seq<Entry>, depth: nat)
    requires depth <= FindDepth
    ensures forall l :: l in FindChildren(path, children, depth) <==>
      (exists e :: e in children && FoundBelow(path + "/" + e.name, e.node, FindDepth - depth, l))
    decreases children
  {
    if children != [] {
      var c := children[0];
      var here := FindLines(path + "/" + c.name, c.node, depth);
      var rest := FindChildren(path, children[1..], depth);
      FindLinesExactly(path + "/" + c.name, c.node, depth);
      FindChildrenExactly(path, children[1..], depth);
      assert FindChildren(path, children, depth) == here + rest;
      assert forall e :: e in children <==> e == c || e in children[1..];
    }
  }

  /** Each child's listing is one block, and the blocks follow the children's order. */
  lemma {:induction false} FindChildrenAppend(path: string, a: seq<Entry>, b: seq<Entry>, depth: nat)
    ensures FindChildren(path, a + b, depth) == FindChildren(path, a, depth) + FindChildren(path, b, depth)
  {
    if a == [] {
      assert a + b == b;
    } else {
      assert (a + b)[0] == a[0] && (a + b)[1..] == a[1..] + b;
      FindChildrenAppend(path, a[1..], b, depth);
    }
  }

  function RunFind(fs: Tree, cwd: string, args: seq<string>): (o: Outcome)
    ensures o.fs == fs && o.cwd == cwd && !o.cleared
    ensures var path := if |args| > 0 then ResolvedPath(cwd, args[0]) else cwd;
      var n := Lookup(fs, path);
      && (n.None? || !n.value.Dir? ==>
            o == Fail(fs, cwd, "find: '" + (if |args| > 0 then args[0] else path) + "': No such file or directory"))
      && (n.Some? && n.value.Dir? ==> o == Print(fs, cwd, FindLines(path, n.value, 0)))
  {
    var path := if |args| > 0 then ResolvedPath(cwd, args[0]) else cwd;
    var n := Lookup(fs, path);
    if n.None? || !n.value.Dir? then
      Fail(fs, cwd, "find: '" + (if |args| > 0 then args[0] else path) + "': No such file or directory")
    else Print(fs, cwd, FindLines(path, n.value, 0))
  }

  datatype Listing = Listing(lines: seq<string>, dirs: nat, files: nat)

  const Tee: string := "\U{251C}\U{2500}\U{2500} "
  const Elbow: string := "\U{2514}\U{2500}\U{2500} "
  const Bar: string := "\U{2502}   "
  const Blank: string := "    "

  /**
   * `printTree` over a directory's entries: one line per entry, a directory
   * followed by its own entries one level deeper; directories are counted
   * as directories and everything else as files.
   */
  function TreeEntries(children: seq<Entry>, prefix: string): (r: Listing)
    ensures |r.lines| == r.dirs + r.files
    ensures forall l :: l in r.lines ==> StartsWith(l, prefix)
    ensures children != [] ==> |r.lines| > 0 && r.lines[0] == prefix + Connector(0, |children|) + ShortName(children[0])
    decreases children
  {
    if children == [] then Listing([], 0, 0)
    else
      var last := |children| == 1;
      var connector := if last then Elbow else Tee;
      var inner := prefix + (if last then Blank else Bar);
      var e := children[0];
      var here :=
        if e.node.Dir? then
          var sub := TreeEntries(e.node.children, inner);
          assert forall l :: l in sub.lines ==> StartsWith(l, prefix) by {
            forall l | l in sub.lines ensures StartsWith(l, prefix) {
              assert StartsWith(l, inner);
            }
          }
          Listing([prefix + connector + e.name + "/"] + sub.lines, sub.dirs + 1, sub.files)
        else Listing([prefix + connector + e.name], 0, 1);
      var rest := TreeEntries(children[1..], prefix);
      Listing(here.lines + rest.lines, here.dirs + rest.dirs, here.files + rest.files)
  }

  /** The connector in front of entry `i` of `count`: an elbow for the last entry, a tee for the others. */
  function Connector(i: nat, count: nat): string {
    if i == count - 1 then Elbow else Tee
  }

  /** Every entry of the directory has its own line: the prefix, its connector and its name as `ls` shows it. */
  lemma {:induction false} TreeEntriesNames(children: seq<Entry>, prefix: string)
    ensures forall i :: 0 <= i < |children| ==>
      prefix + Connector(i, |children|) + ShortName(children[i]) in TreeEntries(children, prefix).lines
  {
    if children != [] {
      var r := TreeEntries(children, prefix);
      var rest := TreeEntries(children[1..], prefix);
      TreeEntriesNames(children[1..], prefix);
      forall i | 1 <= i < |children|
        ensures prefix + Connector(i, |children|) + ShortName(children[i]) in r.lines
      {
        assert Connector(i - 1, |children[1..]|) == Connector(i, |children|);
        assert children[1..][i - 1] == children[i];
        assert forall l :: l in rest.lines ==> l in r.lines;
      }
    }
  }

  /** A directory without subdirectories lists one line per entry, in order, and counts them all as files. */
  lemma {:induction false} TreeEntriesFlat(children: seq<Entry>, prefix: string)
    requires forall i :: 0 <= i < |children| ==> !children[i].node.Dir?
    ensures var r := TreeEntries(children, prefix);
      && r.dirs == 0 && r.files == |children| && |r.lines| == |children|
      && forall i :: 0 <= i < |children| ==> r.lines[i] == prefix + Connector(i, |children|) + children[i].name
  {
    if children != [] {
      var r := TreeEntries(children, prefix);
      var rest := TreeEntries(children[1..], prefix);
      TreeEntriesFlat(children[1..], prefix);
      assert r.lines == [r.lines[0]] + rest.lines;
      forall i | 1 <= i < |children|
        ensures r.lines[i] == prefix + Connector(i, |children|) + children[i].name
      {
        assert r.lines[i] == rest.lines[i - 1];
        assert Connector(i - 1, |children[1..]|) == Connector(i, |children|);
      }
    }
  }

  function RunTree(fs: Tree, cwd: string, args: seq<string>): (o: Outcome)
    ensures o.fs == fs && o.cwd == cwd && !o.cleared
    ensures var path := if |args| > 0 then ResolvedPath(cwd, args[0]) else cwd;
      var n := Lookup(fs, path);
      && (n.None? || !n.value.Dir? ==>
            o == Fail(fs, cwd, "tree: '" + (if |args| > 0 then args[0] else path) + "': Not a directory"))
      && (n.Some? && n.value.Dir? ==>
            var listing := TreeEntries(n.value.children, "");
            o == Print(fs, cwd, [path] + listing.lines + ["", NatToString(listing.dirs) + " directories, " + NatToString(listing.files) + " files"]))
  {
    var path := if |args| > 0 then ResolvedPath(cwd, args[0]) else cwd;
    var n := Lookup(fs, path);
    if n.None? || !n.value.Dir? then
      Fail(fs, cwd, "tree: '" + (if |args| > 0 then args[0] else path) + "': Not a directory")
    else
      var listing := TreeEntries(n.value.children, "");
      Print(fs, cwd, [path] + listing.lines + ["", NatToString(listing.dirs) + " directories, " + NatToString(listing.files) + " files"])
  }

  // ------------------------------------------------- changing the tree

  /** The parent path of `path` leads to a directory node. */
  predicate ParentIsDir(fs: Tree, path: string) {
    var parent := Lookup(fs, ParentAndName(path).parentPath);
    parent.Some? && parent.value.Dir?
  }

  /** `mkdir` (with `touch` sharing the shape): refuse an existing target or a parent that is not a directory. */
  function RunMkdir(fs: Tree, cwd: string, args: seq<string>): (o: Outcome)
    ensures o.cwd == cwd && !o.cleared
    ensures |args| == 0 ==> o == Fail(fs, cwd, "mkdir: missing operand")
    ensures |args| > 0 ==>
      var path := ResolvedPath(cwd, args[0]);
      && (Lookup(fs, path).Some? ==> o == Fail(fs, cwd, "mkdir: cannot create directory '" + args[0] + "': File exists"))
      && (Lookup(fs, path).None? && !ParentIsDir(fs, path) ==>
            o == Fail(fs, cwd, "mkdir: cannot create directory '" + args[0] + "': No such file or directory"))
      && (Lookup(fs, path).None? && ParentIsDir(fs, path) ==>
            o == Quiet(SetNodeAtPath(fs, path, Some(Dir([]))), cwd))
    ensures o.lines != [] <==> o.fs == fs
  {
    if |args| == 0 then Fail(fs, cwd, "mkdir: missing operand")
    else
      var path := ResolvedPath(cwd, args[0]);
      if Lookup(fs, path).Some? then Fail(fs, cwd, "mkdir: cannot create directory '" + args[0] + "': File exists")
      else if !ParentIsDir(fs, path) then Fail(fs, cwd, "mkdir: cannot create directory '" + args[0] + "': No such file or directory")
      else
        MadeNodeDiffers(fs, path, Dir([]));
        Quiet(SetNodeAtPath(fs, path, Some(Dir([]))), cwd)
  }

  /** Writing a node where there was none changes the tree. */
  lemma MadeNodeDiffers(fs: Tree, path: string, node: Node)
    requires Lookup(fs, path).None? && ParentIsDir(fs, path)
    ensures SetNodeAtPath(fs, path, Some(node)) != fs
  {
    assert Segments(path) != [];
    SetThenLookup(fs, path, Some(node));
  }

  function RunTouch(fs: Tree, cwd: string, args: seq<string>): (o: Outcome)
    ensures o.cwd == cwd && !o.cleared
    ensures |args| == 0 ==> o == Fail(fs, cwd, "touch: missing file operand")
    ensures |args| > 0 ==>
      var path := ResolvedPath(cwd, args[0]);
      && (Lookup(fs, path).Some? ==> o == Quiet(fs, cwd))
      && (Lookup(fs, path).None? && !ParentIsDir(fs, path) ==>
            o == Fail(fs, cwd, "touch: cannot touch '" + args[0] + "': No such file or directory"))
      && (Lookup(fs, path).None? && ParentIsDir(fs, path) ==>
            o == Quiet(SetNodeAtPath(fs, path, Some(File(""))), cwd))
  {
    if |args| == 0 then Fail(fs, cwd, "touch: missing file operand")
    else
      var path := ResolvedPath(cwd, args[0]);
      if Lookup(fs, path).Some? then Quiet(fs, cwd)
      else if !ParentIsDir(fs, path) then Fail(fs, cwd, "touch: cannot touch '" + args[0] + "': No such file or directory")
      else Quiet(SetNodeAtPath(fs, path, Some(File(""))), cwd)
  }

  function RunRm(fs: Tree, cwd: string, args: seq<string>): (o: Outcome)
    ensures o.cwd == cwd && !o.cleared
    ensures var target := FirstOperand(args);
      var recursive := "-r" in args || "-rf" in args;
      && (target.None? ==> o == Fail(fs, cwd, "rm: missing operand"))
      && (target.Some? ==>
          var path := ResolvedPath(cwd, target.value);
          var n := Lookup(fs, path);
          && (n.None? ==> o == Fail(fs, cwd, "rm: cannot remove '" + target.value + "': No such file or directory"))
          && (n.Some? && n.value.Dir? && !recursive ==> o == Fail(fs, cwd, "rm: cannot remove '" + target.value + "': Is a directory"))
          && (n.Some? && (!n.value.Dir? || recursive) ==> o == Quiet(SetNodeAtPath(fs, path, None), cwd)))
  {
    var recursive := "-r" in args || "-rf" in args;
    match FirstOperand(args)
    case None => Fail(fs, cwd, "rm: missing operand")
    case Some(target) =>
      var path := ResolvedPath(cwd, target);
      match Lookup(fs, path)
      case None => Fail(fs, cwd, "rm: cannot remove '" + target + "': No such file or directory")
      case Some(n) =>
        if n.Dir? && !recursive then Fail(fs, cwd, "rm: cannot remove '" + target + "': Is a directory")
        else Quiet(SetNodeAtPath(fs, path, None), cwd)
  }

  /** `cp` and `mv`: write a copy of the source at the destination; `mv` then deletes the source. */
  function RunCopyOrMove(fs: Tree, cwd: string, args: seq<string>, move: bool): (o: Outcome)
    ensures o.cwd == cwd && !o.cleared
    ensures var name := if move then "mv" else "cp";
      && (|args| < 2 ==> o == Fail(fs, cwd, name + ": missing destination file operand"))
      && (|args| >= 2 ==>
          var src, dst := ResolvedPath(cwd, args[0]), ResolvedPath(cwd, args[1]);
          var node := Lookup(fs, src);
          && (node.None? ==> o == Fail(fs, cwd, name + ": cannot stat '" + args[0] + "': No such file or directory"))
          && (node.Some? && !ParentIsDir(fs, dst) ==>
                o == Fail(fs, cwd, name + (if move then ": cannot move '" else ": cannot create '") + args[1] + "': No such file or directory"))
          && (node.Some? && ParentIsDir(fs, dst) ==>
                var copied := SetNodeAtPath(fs, dst, node);
                o == Quiet(if move then SetNodeAtPath(copied, src, None) else copied, cwd)))
  {
    var name := if move then "mv" else "cp";
    if |args| < 2 then Fail(fs, cwd, name + ": missing destination file operand")
    else
      var src, dst := ResolvedPath(cwd, args[0]), ResolvedPath(cwd, args[1]);
      var node := Lookup(fs, src);
      if node.None? then Fail(fs, cwd, name + ": cannot stat '" + args[0] + "': No such file or directory")
      else if !ParentIsDir(fs, dst) then
        Fail(fs, cwd, name + (if move then ": cannot move '" else ": cannot create '") + args[1] + "': No such file or directory")
      else
        var copied := SetNodeAtPath(fs, dst, node);
        Quiet(if move then SetNodeAtPath(copied, src, None) else copied, cwd)
  }

  // ---------------------------------------------- what the commands achieve

  /** After a successful `mkdir`, the path leads to an empty directory. */
  lemma MkdirCreatesEmptyDir(fs: Tree, cwd: string, arg: string)
    requires RunMkdir(fs, cwd, [arg]).lines == []
    ensures Lookup(RunMkdir(fs, cwd, [arg]).fs, ResolvedPath(cwd, arg)) == Some(Dir([]))
  {
    var path := ResolvedPath(cwd, arg);
    assert Segments(path) != [];
    SetThenLookup(fs, path, Some(Dir([])));
  }

  /** After `touch` of a missing path under a directory, the path leads to an empty file. */
  lemma TouchCreatesEmptyFile(fs: Tree, cwd: string, arg: string)
    requires Lookup(fs, ResolvedPath(cwd, arg)).None? && ParentIsDir(fs, ResolvedPath(cwd, arg))
    ensures Lookup(RunTouch(fs, cwd, [arg]).fs, ResolvedPath(cwd, arg)) == Some(File(""))
  {
    var path := ResolvedPath(cwd, arg);
    assert Segments(path) != [];
    SetThenLookup(fs, path, Some(File("")));
  }

  /** After a successful `rm` of anything but the root map, the path leads nowhere. */
  lemma RmRemoves(fs: Tree, cwd: string, args: seq<string>)
    requires RunRm(fs, cwd, args).lines == []
    requires Segments(ResolvedPath(cwd, FirstOperand(args).value)) != []
    ensures Lookup(RunRm(fs, cwd, args).fs, ResolvedPath(cwd, FirstOperand(args).value)) == None
  {
    var path := ResolvedPath(cwd, FirstOperand(args).value);
    ParentOfFoundIsMap(fs, path);
    SetThenLookup(fs, path, None);
  }

  /** A path that leads somewhere passed through maps: its parent path leads to a map. */
  lemma ParentOfFoundIsMap(fs: Tree, path: string)
    requires Segments(path) != []
    requires Lookup(fs, path).Some?
    ensures var parent := Lookup(fs, ParentAndName(path).parentPath);
      parent.Some? && Container(parent.value).Some?
  {
    var segs := Segments(path);
    assert segs == segs[..|segs| - 1] + [segs[|segs| - 1]];
    DescendSplit(Plain(fs), segs[..|segs| - 1], segs[|segs| - 1]);
  }

  /** Walking one segment further than a path means walking the path and then one step. */
  lemma {:induction false} DescendSplit(n: Node, parts: seq<string>, last: string)
    requires Descend(n, parts + [last]).Some?
    ensures Descend(n, parts).Some? && Container(Descend(n, parts).value).Some?
    decreases |parts|
  {
    if parts != [] {
      assert (parts + [last])[1..] == parts[1..] + [last];
      var child := Get(Container(n).value, parts[0]).value;
      DescendSplit(child, parts[1..], last);
    }
  }

  /** After a successful `cp`, the destination leads to the source node. */
  lemma CpCopies(fs: Tree, cwd: string, src: string, dst: string)
    requires RunCopyOrMove(fs, cwd, [src, dst], false).lines == []
    requires Segments(ResolvedPath(cwd, dst)) != []
    ensures Lookup(RunCopyOrMove(fs, cwd, [src, dst], false).fs, ResolvedPath(cwd, dst)) == Lookup(fs, ResolvedPath(cwd, src))
  {
    SetThenLookup(fs, ResolvedPath(cwd, dst), Lookup(fs, ResolvedPath(cwd, src)));
  }

  /** `mv x x` writes x over itself and then deletes it, so x is gone. */
  lemma MvOntoItselfDeletes(fs: Tree, cwd: string, arg: string)
    requires RunCopyOrMove(fs, cwd, [arg, arg], true).lines == []
    requires Segments(ResolvedPath(cwd, arg)) != []
    ensures Lookup(RunCopyOrMove(fs, cwd, [arg, arg], true).fs, ResolvedPath(cwd, arg)) == None
  {
    var path := ResolvedPath(cwd, arg);
    var node := Lookup(fs, path);
    SetThenLookup(fs, path, node);
    SetThenLookup(SetNodeAtPath(fs, path, node), path, None);
  }

  // -------------------------------------------------------------- dispatch

  /** `history`: every earlier command, numbered from 1. */
  function HistoryLines(history: seq<string>, from: nat): (r: seq<string>)
    ensures |r| == |history|
    ensures forall i :: 0 <= i < |history| ==> r[i] == "  " + NatToString(from + i + 1) + "  " + history[i]
    decreases |history|
  {
    if history == [] then []
    else ["  " + NatToString(from + 1) + "  " + history[0]] + HistoryLines(history[1..], from + 1)
  }

  /** The commands the terminal knows, by what they may change. */
  datatype Command = Clear | Cd | Writes(w: Writer) | Reads(r: Reader) | Reports(p: Reporter)

  /** The commands that change the tree. */
  datatype Writer = Mkdir | Touch | Rm | Cp | Mv

  /** The commands that look into the tree and print what they find. */
  datatype Reader = Ls | Cat | Grep | Head | Tail | Wc | Find | TreeView

  /** The commands that print without looking into the tree. */
  datatype Reporter =
      Help | Echo | Date | Whoami | Hostname | Pwd | Uname | History | Neofetch
    | Uptime | Df | Free | Ps | Kill | Env | Export | Alias | Man

  /**
   * The `commands` record: each command word with the command it runs, in
   * declaration order. `help` and `neofetch`, whose output is a fixed
   * banner, and `date`, `uptime` and `ps`, whose output depends on the clock
   * or on random numbers, print nothing here.
   */
  const CommandTable: seq<(string, Command)> := [
    ("help", Reports(Help)),
    ("clear", Clear),
    ("echo", Reports(Echo)),
    ("date", Reports(Date)),
    ("whoami", Reports(Whoami)),
    ("hostname", Reports(Hostname)),
    ("pwd", Reports(Pwd)),
    ("ls", Reads(Ls)),
    ("cd", Cd),
    ("cat", Reads(Cat)),
    ("uname", Reports(Uname)),
    ("history", Reports(History)),
    ("neofetch", Reports(Neofetch)),
    ("uptime", Reports(Uptime)),
    ("df", Reports(Df)),
    ("free", Reports(Free)),
    ("ps", Reports(Ps)),
    ("kill", Reports(Kill)),
    ("grep", Reads(Grep)),
    ("head", Reads(Head)),
    ("tail", Reads(Tail)),
    ("wc", Reads(Wc)),
    ("find", Reads(Find)),
    ("env", Reports(Env)),
    ("export", Reports(Export)),
    ("alias", Reports(Alias)),
    ("tree", Reads(TreeView)),
    ("man", Reports(Man)),
    ("mkdir", Writes(Mkdir)),
    ("touch", Writes(Touch)),
    ("rm", Writes(Rm)),
    ("cp", Writes(Cp)),
    ("mv", Writes(Mv))
  ]

  /**
   * What each command does with what it sees and its arguments: only
   * `clear` clears the screen, only `cd` moves, only the writers touch the
   * tree.
   */
  function Execute(c: Command, x: Context, args: seq<string>): (o: Outcome)
    ensures o.cleared <==> c.Clear?
    ensures o.cwd != x.cwd ==> c.Cd?
    ensures o.fs != x.fs ==> c.Writes?
  {
    match c
    case Clear => Outcome([], true, x.fs, x.cwd)
    case Cd => RunCd(x.fs, x.cwd, args)
    case Writes(w) => ExecuteWrite(w, x, args)
    case Reads(r) => ExecuteRead(r, x, args)
    case Reports(p) => ExecuteReport(p, x, args)
  }

  /** A writing command: the directory and the screen are left as they were. */
  function ExecuteWrite(w: Writer, x: Context, args: seq<string>): (o: Outcome)
    ensures o.cwd == x.cwd && !o.cleared
  {
    match w
    case Mkdir => RunMkdir(x.fs, x.cwd, args)
    case Touch => RunTouch(x.fs, x.cwd, args)
    case Rm => RunRm(x.fs, x.cwd, args)
    case Cp => RunCopyOrMove(x.fs, x.cwd, args, false)
    case Mv => RunCopyOrMove(x.fs, x.cwd, args, true)
  }

  /** A reading command: it changes nothing. */
  function ExecuteRead(r: Reader, x: Context, args: seq<string>): (o: Outcome)
    ensures o.fs == x.fs && o.cwd == x.cwd && !o.cleared
  {
    match r
    case Ls => RunLs(x.fs, x.cwd, args)
    case Cat => RunCat(x.fs, x.cwd, args)
    case Grep => RunGrep(x.fs, x.cwd, args)
    case Head => RunHeadOrTail(x.fs, x.cwd, args, true)
    case Tail => RunHeadOrTail(x.fs, x.cwd, args, false)
    case Wc => RunWc(x.fs, x.cwd, args)
    case Find => RunFind(x.fs, x.cwd, args)
    case TreeView => RunTree(x.fs, x.cwd, args)
  }

  /** A reporting command: it changes nothing. */
  function ExecuteReport(p: Reporter, x: Context, args: seq<string>): (o: Outcome)
    ensures o.fs == x.fs && o.cwd == x.cwd && !o.cleared
  {
    match p
    case Help => Quiet(x.fs, x.cwd)
    case Echo => Print(x.fs, x.cwd, [Join(args, ' ')])
    case Date => Quiet(x.fs, x.cwd)
    case Whoami => Print(x.fs, x.cwd, ["user"])
    case Hostname => Print(x.fs, x.cwd, ["lovable-os"])
    case Pwd => Print(x.fs, x.cwd, [x.cwd])
    case Uname => RunUname(x.fs, x.cwd, args)
    case History => Print(x.fs, x.cwd, HistoryLines(x.history, 0))
    case Neofetch => Quiet(x.fs, x.cwd)
    case Uptime => Quiet(x.fs, x.cwd)
    case Df => Print(x.fs, x.cwd, DfLines)
    case Free => Print(x.fs, x.cwd, FreeLines)
    case Ps => Quiet(x.fs, x.cwd)
    case Kill => RunKill(x.fs, x.cwd, args)
    case Env => Print(x.fs, x.cwd, EnvLines)
    case Export => RunExport(x.fs, x.cwd, args)
    case Alias => Print(x.fs, x.cwd, AliasLines)
    case Man => RunMan(x.fs, x.cwd, args)
  }

  /**
   * Run the handler that `commands` lists under `command` lower-cased,
   * with its arguments.
   */
  function Run(commands: seq<(string, Command)>, x: Context, command: string, args: seq<string>): Outcome {
    match Search(Lower(command), commands)
    case None => Fail(x.fs, x.cwd, command + ": command not found. Type \"help\" for available commands.")
    case Some(c) => Execute(c, x, args)
  }

  /** Tab completion: the one command name that starts with the lower-cased input, followed by a space. */
  function Completion(names: seq<string>, input: string): (r: Option<string>)
    ensures r.Some? ==> exists name :: name in names && StartsWith(name, Lower(input)) && r.value == name + " "
    ensures r.Some? <==> |Candidates(names, Lower(input))| == 1
  {
    var matches := Candidates(names, Lower(input));
    if |matches| == 1 then
      assert matches[0] in matches;
      Some(matches[0] + " ")
    else None
  }

  /** `names.filter(cmd => cmd.startsWith(partial))`. */
  function Candidates(names: seq<string>, partial: string): (r: seq<string>)
    ensures forall n :: n in r <==> n in names && StartsWith(n, partial)
  {
    if names == [] then []
    else (if StartsWith(names[0], partial) then [names[0]] else []) + Candidates(names[1..], partial)
  }

  /** `Candidates` is the general filter with the prefix test, so it counts the names with that prefix. */
  lemma {:induction false} CandidatesIsFilter(names: seq<string>, partial: string)
    ensures Candidates(names, partial) == Filter(names, (n: string) => StartsWith(n, partial))
    ensures |Candidates(names, partial)| == CountWhere(names, (n: string) => StartsWith(n, partial))
  {
    if names != [] {
      CandidatesIsFilter(names[1..], partial);
    }
  }

  /** Tab completes exactly when one command name starts with the lower-cased input. */
  lemma CompletionWhenUnique(names: seq<string>, input: string)
    ensures Completion(names, input).Some? <==> CountWhere(names, (n: string) => StartsWith(n, Lower(input))) == 1
  {
    CandidatesIsFilter(names, Lower(input));
  }

  /** A word that names no command prints the "command not found" error and changes nothing. */
  lemma UnknownCommand(x: Context, command: string, args: seq<string>)
    requires Lower(command) !in CommandNames
    ensures Run(CommandTable, x, command, args) ==
      Fail(x.fs, x.cwd, command + ": command not found. Type \"help\" for available commands.")
  {
  }

  /** Only the five writing commands change the tree. */
  lemma OnlyWritersChangeTree(x: Context, args: seq<string>)
    ensures forall i :: 0 <= i < |CommandTable| && CommandTable[i].0 !in Writers ==> Execute(CommandTable[i].1, x, args).fs == x.fs
  {
    WritersNamed();
  }

  /** Only `cd` changes the working directory. */
  lemma OnlyCdMoves(x: Context, args: seq<string>)
    ensures forall i :: 0 <= i < |CommandTable| && CommandTable[i].0 != "cd" ==> Execute(CommandTable[i].1, x, args).cwd == x.cwd
  {
    CdNamed();
  }

  /** Only `clear` clears the screen. */
  lemma OnlyClearClears(x: Context, args: seq<string>)
    ensures forall i :: 0 <= i < |CommandTable| ==> (Execute(CommandTable[i].1, x, args).cleared <==> CommandTable[i].0 == "clear")
  {
    ClearNamed();
  }

  /** The table lists `clear` under "clear" and under no other word. */
  lemma ClearNamed()
    ensures forall i :: 0 <= i < |CommandTable| ==> (CommandTable[i].1.Clear? <==> CommandTable[i].0 == "clear")
  {
  }

  /** The table lists `cd` under "cd" and under no other word. */
  lemma CdNamed()
    ensures forall i :: 0 <= i < |CommandTable| ==> (CommandTable[i].1.Cd? <==> CommandTable[i].0 == "cd")
  {
  }

  /** The table lists each writing command under one of the five writing words. */
  lemma WritersNamed()
    ensures forall i :: 0 <= i < |CommandTable| && CommandTable[i].1.Writes? ==> CommandTable[i].0 in Writers
  {
  }

  /** The command word is matched whatever its case. */
  lemma CommandCaseIgnored(x: Context, command: string, args: seq<string>)
    requires Lower(command) in CommandNames
    ensures Run(CommandTable, x, command, args) == Run(CommandTable, x, Lower(command), args)
  {
    LowerIdempotent(command);
  }

  lemma {:induction false} LowerIdempotent(s: string)
    ensures Lower(Lower(s)) == Lower(s)
  {
    if s != [] {
      LowerIdempotent(s[1..]);
    }
  }
}
