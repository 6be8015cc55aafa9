/**
 * The terminal window's state: the printed lines, the input line, the
 * working directory, the command history with its browsing cursor, and the
 * file tree the commands work on.
 */
module Terminal {
  import opened Options
  import opened Strings
  import opened TerminalFs
  import opened TerminalCommands

  const Banner: seq<Line> := [
    Line("LovableOS Terminal v1.0.0", OutputLine),
    Line("Type \"help\" for available commands.", OutputLine),
    Line("", OutputLine)
  ]

  function Prompt(cwd: string): (r: string)
    ensures StartsWith(r, "user@lovable:") && EndsWith(r, "$")
  {
    assert ("user@lovable:" + cwd + "$")[..13] == "user@lovable:";
    "user@lovable:" + cwd + "$"
  }

  /** The history entry the cursor shows: index 0 is the newest; -1 shows an empty line. */
  function Recalled(history: seq<string>, index: int): (r: string)
    ensures 0 <= index < |history| ==> r == history[|history| - 1 - index]
    ensures index < 0 || |history| <= index ==> r == ""
  {
    if 0 <= index < |history| then history[|history| - 1 - index] else ""
  }

  /** ArrowUp moves the cursor one entry older, stopping at the oldest. */
  function UpIndex(count: nat, index: int): (r: int)
    requires count > 0 && -1 <= index < count
    ensures index <= r < count
    ensures r == index <==> index == count - 1
  {
    if index < count - 1 then index + 1 else index
  }

  /** ArrowDown moves the cursor one entry newer, or off the history onto an empty line. */
  function DownIndex(index: int): (r: int)
    requires index >= -1
    ensures -1 <= r && (r < index || r == index == -1)
    ensures index >= 1 ==> r == index - 1
  {
    if index > 0 then index - 1 else -1
  }

  /** Short of the oldest entry, ArrowDown undoes ArrowUp. */
  lemma UpThenDownRestores(count: nat, index: int)
    requires count > 0 && -1 <= index < count - 1
    ensures DownIndex(UpIndex(count, index)) == index
  {
  }

  class Terminal {
    /** The `commands` table the component builds. */
    const commands: seq<(string, Command)>
    var output: seq<Line>
    var currentInput: string
    var currentPath: string
    var commandHistory: seq<string>
    var historyIndex: int
    var fileSystem: Tree

    /** The cursor is -1 or on an entry, and every entry is a non-empty, trimmed command. */
    ghost predicate Valid()
      reads this`commandHistory, this`historyIndex
    {
      && -1 <= historyIndex < |commandHistory|
      && CleanHistory(commandHistory)
    }

    constructor ()
      ensures Valid()
      ensures output == Banner && currentInput == "" && currentPath == HomePath
      ensures commandHistory == [] && historyIndex == -1 && fileSystem == InitialFileSystem
      ensures commands == CommandTable
    {
      commands := CommandTable;
      output := Banner;
      currentInput := "";
      currentPath := HomePath;
      commandHistory := [];
      historyIndex := -1;
      fileSystem := InitialFileSystem;
    }

    /**
     * Echo the trimmed input after the prompt; unless it is blank, record
     * it, reset the cursor and run its first word on the rest.
     */
    method ExecuteCommand(input: string)
      requires Valid()
      modifies this`output, this`commandHistory, this`historyIndex, this`fileSystem, this`currentPath
      ensures Valid()
      ensures Echoed(old(output), old(currentPath), input) <= output || output == []
      ensures Trim(input) == [] ==>
        && output == Echoed(old(output), old(currentPath), input)
        && fileSystem == old(fileSystem) && currentPath == old(currentPath)
        && commandHistory == old(commandHistory) && historyIndex == old(historyIndex)
      ensures Trim(input) != [] ==>
        && Words(Trim(input)) != []
        && var o := Dispatch(commands, old(fileSystem), old(currentPath), old(commandHistory), Trim(input));
        && output == (if o.cleared then [] else Echoed(old(output), old(currentPath), input) + o.lines)
        && fileSystem == o.fs && currentPath == o.cwd
        && commandHistory == old(commandHistory) + [Trim(input)] && historyIndex == -1
    {
      output := Echoed(output, currentPath, input);
      var trimmed := Trim(input);
      if trimmed != [] {
        TrimmedHasWords(input);
        Submit(trimmed);
      }
    }

    /** Run a trimmed, non-blank line, then record it in the history. */
    method Submit(line: string)
      requires Valid() && line != [] && Trim(line) == line && Words(line) != []
      modifies this`output, this`commandHistory, this`historyIndex, this`fileSystem, this`currentPath
      ensures Valid()
      ensures var o := Dispatch(commands, old(fileSystem), old(currentPath), old(commandHistory), line);
        && output == (if o.cleared then [] else old(output) + o.lines)
        && fileSystem == o.fs && currentPath == o.cwd
        && commandHistory == old(commandHistory) + [line] && historyIndex == -1
    {
      Perform(line);
      Record(line);
    }

    /** Run a non-blank line against the tree and directory; the history it sees is the one before the line. */
    method Perform(line: string)
      requires Words(line) != []
      modifies this`output, this`fileSystem, this`currentPath
      ensures var o := Dispatch(commands, old(fileSystem), old(currentPath), commandHistory, line);
        && output == (if o.cleared then [] else old(output) + o.lines)
        && fileSystem == o.fs && currentPath == o.cwd
    {
      var o := Dispatch(commands, fileSystem, currentPath, commandHistory, line);
      output := if o.cleared then [] else output + o.lines;
      fileSystem := o.fs;
      currentPath := o.cwd;
    }

    /** Append a line to the history and put the cursor back on the empty line. */
    method Record(line: string)
      requires Valid() && line != [] && Trim(line) == line
      modifies this`commandHistory, this`historyIndex
      ensures Valid()
      ensures commandHistory == old(commandHistory) + [line] && historyIndex == -1
    {
      CleanHistoryGrows(commandHistory, line);
      commandHistory := commandHistory + [line];
      historyIndex := -1;
    }

    /** Enter runs the input line and empties it. */
    method Enter()
      requires Valid()
      modifies this`output, this`commandHistory, this`historyIndex, this`fileSystem, this`currentPath, this`currentInput
      ensures Valid()
      ensures currentInput == ""
      ensures Echoed(old(output), old(currentPath), old(currentInput)) <= output || output == []
      ensures Trim(old(currentInput)) == [] ==>
        && output == Echoed(old(output), old(currentPath), old(currentInput))
        && fileSystem == old(fileSystem) && currentPath == old(currentPath)
        && commandHistory == old(commandHistory) && historyIndex == old(historyIndex)
      ensures Trim(old(currentInput)) != [] ==>
        && Words(Trim(old(currentInput))) != []
        && var o := Dispatch(commands, old(fileSystem), old(currentPath), old(commandHistory), Trim(old(currentInput)));
        && output == (if o.cleared then [] else Echoed(old(output), old(currentPath), old(currentInput)) + o.lines)
        && fileSystem == o.fs && currentPath == o.cwd
        && commandHistory == old(commandHistory) + [Trim(old(currentInput))] && historyIndex == -1
    {
      ExecuteCommand(currentInput);
      currentInput := "";
    }

    /** ArrowUp: with a history, step to the next older entry and show it. */
    method ArrowUp()
      requires Valid()
      modifies this`historyIndex, this`currentInput
      ensures Valid()
      ensures commandHistory == [] ==> historyIndex == old(historyIndex) && currentInput == old(currentInput)
      ensures commandHistory != [] ==>
        && historyIndex == UpIndex(|commandHistory|, old(historyIndex))
        && currentInput == Recalled(commandHistory, historyIndex)
        && currentInput in commandHistory
    {
      if |commandHistory| > 0 {
        var newIndex := UpIndex(|commandHistory|, historyIndex);
        historyIndex := newIndex;
        currentInput := commandHistory[|commandHistory| - 1 - newIndex];
      }
    }

    /** ArrowDown: step to the next newer entry, or past the newest onto an empty line. */
    method ArrowDown()
      requires Valid()
      modifies this`historyIndex, this`currentInput
      ensures Valid()
      ensures historyIndex == DownIndex(old(historyIndex))
      ensures currentInput == Recalled(commandHistory, historyIndex)
      ensures old(historyIndex) <= 0 ==> historyIndex == -1 && currentInput == ""
    {
      if historyIndex > 0 {
        var newIndex := historyIndex - 1;
        historyIndex := newIndex;
        currentInput := commandHistory[|commandHistory| - 1 - newIndex];
      } else {
        historyIndex := -1;
        currentInput := "";
      }
    }

    /** Tab: complete the input to the one command it is a prefix of, if there is exactly one. */
    method Tab()
      modifies this`currentInput
      ensures match Completion(Keys(commands), old(currentInput))
        case Some(c) => currentInput == c && currentInput[..|currentInput| - 1] in Keys(commands)
        case None => currentInput == old(currentInput)
    {
      match Completion(Keys(commands), currentInput)
      case Some(c) =>
        var name :| name in Keys(commands) && StartsWith(name, Lower(currentInput)) && c == name + " ";
        assert c[..|c| - 1] == name;
        currentInput := c;
      case None =>
    }

    /** Ctrl+L clears the screen. */
    method ClearScreen()
      modifies this`output
      ensures output == []
    {
      output := [];
    }
  }

  /** Every recorded command is non-empty and already trimmed. */
  predicate CleanHistory(history: seq<string>) {
    forall k :: 0 <= k < |history| ==> history[k] != [] && Trim(history[k]) == history[k]
  }

  lemma CleanHistoryGrows(history: seq<string>, line: string)
    requires CleanHistory(history) && line != [] && Trim(line) == line
    ensures CleanHistory(history + [line])
  {
  }

  /** The screen after the input line is echoed behind the prompt. */
  function Echoed(output: seq<Line>, cwd: string, input: string): (r: seq<Line>)
    ensures |r| == |output| + 1 && output <= r && r[|output|].kind == InputLine
  {
    output + [Line(Prompt(cwd) + " " + Trim(input), InputLine)]
  }

  /** Run a non-blank command line: its first word names the command, the rest are its arguments. */
  function Dispatch(commands: seq<(string, Command)>, fs: Tree, cwd: string, history: seq<string>, line: string): Outcome
    requires Words(line) != []
  {
    var words := Words(line);
    Run(commands, Context(fs, cwd, history), words[0], words[1..])
  }

  /** A trimmed line that is not empty trims to itself and has a first word. */
  lemma TrimmedHasWords(s: string)
    requires Trim(s) != []
    ensures Trim(Trim(s)) == Trim(s) && Words(Trim(s)) != []
  {
    var t := Trim(s);
    TrimmedIsTrim(s);
    assert !IsBlank(t) by {
      assert !IsSpace(t[0]);
    }
    NonBlankHasWords(t);
  }

  /** Trimming is done once: the trimmed input trims to itself. */
  lemma TrimmedIsTrim(s: string)
    ensures Trim(Trim(s)) == Trim(s)
  {
    var t := TrimStart(s);
    var u := TrimEnd(t);
    TrimEndIsPrefix(t);
    if u != [] {
      assert u[0] == t[0];
      assert TrimStart(u) == u;
    }
  }
}
