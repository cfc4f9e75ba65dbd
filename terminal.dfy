/**
 * The desktop terminal (class `Terminal` of Desktop/terminal.js) as an object
 * whose fields the key handlers update: the tree, the current directory, the
 * prompt, the command history with its recall position, the input line and
 * the output lines. Each command handler is proved to leave the terminal in
 * the state the functions of module Commands describe.
 */
module Terminals {
  import opened Wrappers
  import opened Text
  import opened Paths
  import opened Vfs
  import opened Commands

  class Terminal {
    var fs: Node
    var currentPath: string
    var prompt: string
    var commandHistory: seq<string>
    var historyIndex: int
    var input: string
    var output: seq<Line>

    /** The part of the terminal the commands act on. */
    function State(): Shell
      reads this
    {
      Shell(fs, currentPath, prompt, output)
    }

    /**
     * The tree is well formed with a directory at the root, the current
     * directory is absolute, and the recall position is -1 before the first
     * command and otherwise lies between the first command and one past the last.
     */
    ghost predicate Valid()
      reads this
    {
      ShellValid(State()) &&
      (commandHistory == [] ==> historyIndex == -1) &&
      (commandHistory != [] ==> 0 <= historyIndex <= |commandHistory|)
    }

    /** The history, the recall position and the input line, which most commands leave as they were. */
    function Session(): (seq<string>, int, string)
      reads this
    {
      (commandHistory, historyIndex, input)
    }

    /** A new terminal: the initial tree, the home directory, the welcome text. */
    constructor()
      ensures Valid()
      ensures fs == InitialTree() && currentPath == Home && prompt == "user@darksession:~$ "
      ensures commandHistory == [] && historyIndex == -1 && input == "" && output == [Canned(Welcome)]
    {
      fs := InitialTree();
      currentPath := Home;
      prompt := "user@darksession:~$ ";
      commandHistory := [];
      historyIndex := -1;
      input := "";
      output := [Canned(Welcome)];
      InitialTreeWellFormed();
    }

    method AppendOutput(line: Line)
      modifies this
      ensures State() == old(State()).(output := old(output) + [line]) && Session() == old(Session())
    {
      output := output + [line];
    }

    /** `updatePrompt`. */
    method UpdatePrompt()
      modifies this
      ensures prompt == PromptFor(currentPath)
      ensures fs == old(fs) && currentPath == old(currentPath) && output == old(output) && Session() == old(Session())
    {
      var parts := Split(currentPath, '/');
      var shortPath := if |parts| > 3 then ".../" + Join(parts[|parts| - 2..], "/") else currentPath;
      prompt := "user@darksession:" + (if shortPath == "/" then "/" else shortPath) + "$ ";
    }

    /** Enter: the trimmed line joins the history, is echoed after the prompt, and runs. */
    method ExecuteCommand(clock: Clock)
      requires Valid()
      modifies this
      ensures Valid()
      ensures var command := Trim(old(input));
              var shown := old(State()).(output := old(output) + [PromptLine(old(prompt), command)]);
              commandHistory == old(commandHistory) + (if command == "" then [] else [command]) &&
              historyIndex == (if command == "" then old(historyIndex) else |commandHistory|) &&
              input == "" &&
              State() == if command == "" then shown else Process(shown, command, commandHistory, clock)
    {
      var command := Trim(input);
      if command != "" {
        commandHistory := commandHistory + [command];
        historyIndex := |commandHistory|;
      }
      AppendOutput(PromptLine(prompt, command));
      input := "";
      if command != "" {
        ProcessCommand(command, clock);
      }
    }

    /** `processCommand`: the handler the first word names, given the remaining words. */
    method ProcessCommand(command: string, clock: Clock)
      requires Valid()
      modifies this
      ensures Valid()
      ensures State() == Process(old(State()), command, commandHistory, clock) && Session() == old(Session())
    {
      ProcessKeepsValid(State(), command, commandHistory, clock);
      var parts := Words(command);
      var cmd := parts[0];
      var args := parts[1..];
      match Recognise(cmd) {
        case None =>
          AppendOutput(Error("Command not found: " + cmd));
          AppendOutput(Text(Span("comment", "Type 'help' to see available commands")));
        case Some(HelpCmd) => AppendOutput(Canned(Help));
        case Some(LsCmd) => ListDirectory(args, clock.today);
        case Some(CdCmd) => ChangeDirectory(ArgOr(args, 0, Home));
        case Some(PwdCmd) => AppendOutput(Text(Span("path", currentPath)));
        case Some(CatCmd) => CatFile(ArgOr(args, 0, ""));
        case Some(MkdirCmd) => MakeDirectory(ArgOr(args, 0, ""));
        case Some(TouchCmd) => TouchFile(ArgOr(args, 0, ""));
        case Some(RmCmd) => RemoveFile(args);
        case Some(EchoCmd) => AppendOutput(Text(Join(args, " ")));
        case Some(DateCmd) => AppendOutput(Text(clock.now));
        case Some(WhoamiCmd) => AppendOutput(Text("user"));
        case Some(UnameCmd) => AppendOutput(Text(Uname(args)));
        case Some(PsCmd) => AppendOutput(Canned(Processes));
        case Some(ClearCmd) => output := [];
        case Some(HistoryCmd) => ShowHistory();
        case Some(GrepCmd) => Grep(args);
        case Some(FindCmd) => Find(args);
        case Some(TreeCmd) => ShowTree(ArgOr(args, 0, currentPath));
        case Some(IpconfigCmd) => AppendOutput(Canned(IpConfig));
        case Some(WhoCmd) => AppendOutput(Canned(Who));
      }
    }

    /** Another component (the text editor) stores a new tree in `fileSystem`. */
    method ReplaceTree(root: Node)
      requires Valid() && WellFormed(root) && root.Dir?
      modifies this
      ensures Valid() && State() == old(State()).(fs := root) && Session() == old(Session())
    {
      fs := root;
    }

    /** `listDirectory`: one line per shown entry, after a `total` line with `-l`. */
    method ListDirectory(args: seq<string>, today: string)
      modifies this
      ensures State() == old(State()).(output := old(output) + Ls(fs, currentPath, args, today)) && Session() == old(Session())
    {
      var path := ArgOr(args, 0, currentPath);
      var showHidden := "-a" in args || "-la" in args;
      var longFormat := "-l" in args || "-la" in args;
      var dir := GetDirectoryContents(fs, path);
      if dir.None? {
        AppendOutput(Error("ls: cannot access '" + path + "': No such file or directory"));
        return;
      }
      var es := dir.value;
      assert Ls(fs, currentPath, args, today) == Listing(es, showHidden, longFormat, today);
      ghost var header := if longFormat then [Text("total " + NatToString(|es|))] else [];
      if longFormat {
        AppendOutput(Text("total " + NatToString(|es|)));
      }
      assert output == old(output) + header;
      ListEntries(es, showHidden, longFormat, today);
      Regroup(old(output), header, EntryLines(Visible(es, showHidden), longFormat, today));
    }

    /** The `forEach` of `listDirectory`: a line for each entry that is shown. */
    method ListEntries(es: seq<Entry>, showHidden: bool, longFormat: bool, today: string)
      modifies this
      ensures State() == old(State()).(output := old(output) + EntryLines(Visible(es, showHidden), longFormat, today))
      ensures Session() == old(Session())
    {
      var lines := ShownLines(es, showHidden, longFormat, today);
      AppendLines(lines);
    }

    /** `changeDirectory`. */
    method ChangeDirectory(path: string)
      modifies this
      ensures State() == Cd(old(State()), path) && Session() == old(Session())
    {
      var newPath := ResolvePath(path, currentPath);
      var dir := GetDirectoryContents(fs, newPath);
      if dir.None? {
        AppendOutput(Error("cd: no such file or directory: " + path));
        return;
      }
      currentPath := newPath;
      UpdatePrompt();
    }

    /** `catFile`. */
    method CatFile(filename: string)
      modifies this
      ensures State() == old(State()).(output := old(output) + [Cat(fs, currentPath, filename)]) && Session() == old(Session())
    {
      if filename == "" {
        AppendOutput(Error("cat: missing file operand"));
        return;
      }
      var file := GetFileNode(fs, ResolvePath(filename, currentPath));
      if file.None? {
        AppendOutput(Error("cat: " + filename + ": No such file or directory"));
        return;
      }
      if !file.value.File? {
        AppendOutput(Error("cat: " + filename + ": Is a directory"));
        return;
      }
      AppendOutput(Text(file.value.content));
    }

    /** `makeDirectory`. */
    method MakeDirectory(dirname: string)
      modifies this
      ensures State() == Apply(old(State()), Mkdir(old(fs), currentPath, dirname)) && Session() == old(Session())
    {
      ghost var change := Mkdir(fs, currentPath, dirname);
      if dirname == "" {
        AppendOutput(Error("mkdir: missing operand"));
        return;
      }
      var dirPath := ResolvePath(dirname, currentPath);
      var parentPath := ParentPath(dirPath);
      var name := FileName(dirPath);
      var parent := GetDirectoryContents(fs, parentPath);
      if parent.None? {
        AppendOutput(Error("mkdir: cannot create directory '" + dirname + "': No such file or directory"));
        return;
      }
      if Lookup(parent.value, name).Some? {
        assert change.fs == fs;
        AppendOutput(Error("mkdir: cannot create directory '" + dirname + "': File exists"));
        return;
      }
      var created := SetDir(fs, Segments(parentPath), Put(parent.value, name, Dir([])));
      assert change == Change(created, Success("Directory '" + dirname + "' created"));
      fs := created;
      AppendOutput(Success("Directory '" + dirname + "' created"));
    }

    /** `touchFile`. */
    method TouchFile(filename: string)
      modifies this
      ensures State() == Apply(old(State()), Touch(old(fs), currentPath, filename)) && Session() == old(Session())
    {
      ghost var change := Touch(fs, currentPath, filename);
      if filename == "" {
        AppendOutput(Error("touch: missing file operand"));
        return;
      }
      var filePath := ResolvePath(filename, currentPath);
      var parentPath := ParentPath(filePath);
      var name := FileName(filePath);
      var parent := GetDirectoryContents(fs, parentPath);
      if parent.None? {
        AppendOutput(Error("touch: cannot touch '" + filename + "': No such file or directory"));
        return;
      }
      if Lookup(parent.value, name).None? {
        var created := SetDir(fs, Segments(parentPath), Put(parent.value, name, File("")));
        assert change == Change(created, Success("File '" + filename + "' created"));
        fs := created;
        AppendOutput(Success("File '" + filename + "' created"));
      } else {
        assert change == Change(fs, Success("File '" + filename + "' touched"));
        AppendOutput(Success("File '" + filename + "' touched"));
      }
    }

    /** `removeFile`. */
    method RemoveFile(args: seq<string>)
      modifies this
      ensures Rm(old(fs), currentPath, args).None? ==> State() == old(State())
      ensures Rm(old(fs), currentPath, args).Some? ==> State() == Apply(old(State()), Rm(old(fs), currentPath, args).value)
      ensures Session() == old(Session())
    {
      if |args| == 0 {
        AppendOutput(Error("rm: missing operand"));
        return;
      }
      var filename := args[|args| - 1];
      var recursive := "-r" in args || "-rf" in args;
      var force := "-f" in args || "-rf" in args;
      var filePath := ResolvePath(filename, currentPath);
      var parentPath := ParentPath(filePath);
      var name := FileName(filePath);
      var parent := GetDirectoryContents(fs, parentPath);
      if parent.None? || Lookup(parent.value, name).None? {
        if !force {
          AppendOutput(Error("rm: cannot remove '" + filename + "': No such file or directory"));
        }
        return;
      }
      var item := Lookup(parent.value, name).value;
      if item.Dir? && !recursive {
        AppendOutput(Error("rm: cannot remove '" + filename + "': Is a directory"));
        return;
      }
      fs := SetDir(fs, Segments(parentPath), Delete(parent.value, name));
      AppendOutput(Success("Removed '" + filename + "'"));
    }

    /** `showHistory`: every command so far, numbered from 1. */
    method ShowHistory()
      modifies this
      ensures State() == old(State()).(output := old(output) + HistoryLines(commandHistory)) && Session() == old(Session())
    {
      var i := 0;
      while i < |commandHistory|
        invariant 0 <= i <= |commandHistory|
        invariant State() == old(State()).(output := old(output) + HistoryLines(commandHistory)[..i])
        invariant Session() == old(Session())
      {
        assert HistoryLines(commandHistory)[..i + 1] == HistoryLines(commandHistory)[..i] + [Text(HistoryLine(i, commandHistory[i]))];
        AppendOutput(Text(HistoryLine(i, commandHistory[i])));
        i := i + 1;
      }
      assert HistoryLines(commandHistory)[..i] == HistoryLines(commandHistory);
    }

    /** `grep pattern file`: the matching lines, highlighted, in file order. */
    method Grep(args: seq<string>)
      modifies this
      ensures State() == old(State()).(output := old(output) + Commands.Grep(fs, currentPath, args)) && Session() == old(Session())
    {
      if |args| < 2 {
        AppendOutput(Error("grep: missing pattern or file"));
        return;
      }
      var lines := GrepFile(fs, ResolvePath(args[1], currentPath), args[0], args[1]);
      AppendLines(lines);
    }

    /** `forEach(line => this.appendOutput(line))` */
    method AppendLines(lines: seq<Line>)
      modifies this
      ensures State() == old(State()).(output := old(output) + lines) && Session() == old(Session())
    {
      var j := 0;
      while j < |lines|
        invariant 0 <= j <= |lines|
        invariant State() == old(State()).(output := old(output) + lines[..j]) && Session() == old(Session())
      {
        assert lines[..j + 1] == lines[..j] + [lines[j]];
        AppendOutput(lines[j]);
        j := j + 1;
      }
      assert lines[..j] == lines;
    }

    /** `find pattern`: every path below the current directory whose last name contains the pattern. */
    method Find(args: seq<string>)
      modifies this
      ensures State() == old(State()).(output := old(output) + Commands.Find(fs, currentPath, args)) && Session() == old(Session())
    {
      if |args| == 0 {
        AppendOutput(Error("find: missing search pattern"));
        return;
      }
      var pattern := args[0];
      var results := FindInDirectory(currentPath, pattern);
      if |results| == 0 {
        AppendOutput(Text(Span("comment", "No files found matching '" + pattern + "'")));
        return;
      }
      AppendLines(PathLines(results));
    }

    /** `findInDirectory`. */
    method FindInDirectory(path: string, pattern: string) returns (results: seq<string>)
      ensures results == Found(fs, path, pattern)
    {
      var dir := GetDirectoryContents(fs, path);
      if dir.None? {
        return [];
      }
      results := FindEntries(dir.value, path, pattern);
    }

    /** `showTree`: the path itself, then the tree below it. The path is looked up as given. */
    method ShowTree(path: string)
      modifies this
      ensures State() == old(State()).(output := old(output) + Tree(fs, path)) && Session() == old(Session())
    {
      var dir := GetDirectoryContents(fs, path);
      if dir.None? {
        AppendOutput(Error("tree: " + path + ": No such file or directory"));
        return;
      }
      ghost var lines := TreeLines(dir.value, "");
      assert Tree(fs, path) == [Text(Span("path", path))] + lines;
      AppendOutput(Text(Span("path", path)));
      PrintTree(dir.value, "");
      Regroup(old(output), [Text(Span("path", path))], lines);
    }

    /** `printTree`. */
    method PrintTree(es: seq<Entry>, prefix: string)
      modifies this
      ensures State() == old(State()).(output := old(output) + TreeLines(es, prefix)) && Session() == old(Session())
      decreases es, 1
    {
      var i := 0;
      while i < |es|
        invariant 0 <= i <= |es|
        invariant fs == old(fs) && currentPath == old(currentPath) && prompt == old(prompt) && Session() == old(Session())
        invariant output + TreeLines(es[i..], prefix) == old(output) + TreeLines(es, prefix)
      {
        ghost var before := output;
        TreeLinesStep(es, i, prefix);
        PrintEntry(es, i, prefix);
        Advance(before, EntryTree(es, i, prefix), TreeLines(es[i + 1..], prefix), TreeLines(es[i..], prefix), old(output) + TreeLines(es, prefix));
        i := i + 1;
      }
    }

    /** One turn of the `forEach` in `printTree`: the entry's line, then its subtree. */
    method PrintEntry(es: seq<Entry>, i: nat, prefix: string)
      requires i < |es|
      modifies this
      ensures State() == old(State()).(output := old(output) + EntryTree(es, i, prefix)) && Session() == old(Session())
      decreases es, 0
    {
      var isLast := i == |es| - 1;
      var connector := if isLast then Corner else Tee;
      var e := es[i];
      if e.node.Dir? {
        var head := Text(prefix + connector + Span("directory", e.name + "/"));
        var deeper := prefix + if isLast then Blank else Bar;
        assert EntryTree(es, i, prefix) == [head] + TreeLines(e.node.entries, deeper);
        AppendOutput(head);
        assert e in es;
        PrintTree(e.node.entries, deeper);
      } else {
        assert EntryTree(es, i, prefix) == [Text(prefix + connector + Span("file", e.name))];
        AppendOutput(Text(prefix + connector + Span("file", e.name)));
      }
    }

    /** `navigateHistory`: the arrow keys move through the history. */
    method NavigateHistory(direction: int)
      requires Valid()
      modifies this
      ensures Valid()
      ensures Recall(historyIndex, input) == Navigate(old(commandHistory), old(historyIndex), old(input), direction)
      ensures State() == old(State()) && commandHistory == old(commandHistory)
    {
      if |commandHistory| == 0 {
        return;
      }
      historyIndex := historyIndex + direction;
      if historyIndex < 0 {
        historyIndex := 0;
      } else if historyIndex >= |commandHistory| {
        historyIndex := |commandHistory|;
        input := "";
        return;
      }
      input := commandHistory[historyIndex];
    }

    /** `autoComplete`: Tab completes a command name or a path, or lists the choices. */
    method AutoComplete()
      modifies this
      ensures var c := Complete(fs, currentPath, prompt, old(input));
              input == c.input && output == old(output) + c.lines
      ensures fs == old(fs) && currentPath == old(currentPath) && prompt == old(prompt)
      ensures commandHistory == old(commandHistory) && historyIndex == old(historyIndex)
    {
      var c := Completing(fs, currentPath, prompt, input);
      ApplyCompletion(c);
    }

    /** The completion takes effect: the input line is replaced and the listing, if any, printed. */
    method ApplyCompletion(c: Completion)
      modifies this
      ensures input == c.input && output == old(output) + c.lines
      ensures fs == old(fs) && currentPath == old(currentPath) && prompt == old(prompt)
      ensures commandHistory == old(commandHistory) && historyIndex == old(historyIndex)
    {
      input := c.input;
      output := output + c.lines;
    }
  }

  /** The lines of the `forEach`, in entry order, skipping the hidden names. */
  method ShownLines(es: seq<Entry>, showHidden: bool, longFormat: bool, today: string) returns (lines: seq<Line>)
    ensures lines == EntryLines(Visible(es, showHidden), longFormat, today)
  {
    lines := [];
    var i := 0;
    while i < |es|
      invariant 0 <= i <= |es|
      invariant lines == EntryLines(Visible(es[..i], showHidden), longFormat, today)
    {
      ShowPrefix(es, i, showHidden, longFormat, today);
      if showHidden || !StartsWith(es[i].name, ".") {
        lines := lines + [Text(EntryLine(es[i], longFormat, today))];
      }
      i := i + 1;
    }
    assert es[..|es|] == es;
  }

  /** The lines `grep` prints for one file: its matches highlighted, or the error when it is not a file. */
  method GrepFile(root: Node, path: string, pattern: string, filename: string) returns (lines: seq<Line>)
    ensures GetFile(root, path).Some? && GetFile(root, path).value.File? ==>
              lines == Highlights(Matching(Split(GetFile(root, path).value.content, '\n'), pattern), pattern)
    ensures GetFile(root, path).None? || GetFile(root, path).value.Dir? ==>
              lines == [Error("grep: " + filename + ": No such file or directory")]
  {
    var file := GetFileNode(root, path);
    if file.None? || !file.value.File? {
      return [Error("grep: " + filename + ": No such file or directory")];
    }
    var matches := MatchingLines(Split(file.value.content, '\n'), pattern);
    lines := Highlights(matches, pattern);
  }

  /** `lines.filter(line => line.includes(pattern))` */
  method MatchingLines(lines: seq<string>, pattern: string) returns (matches: seq<string>)
    ensures matches == Matching(lines, pattern)
  {
    matches := [];
    var i := 0;
    while i < |lines|
      invariant 0 <= i <= |lines|
      invariant matches == Matching(lines[..i], pattern)
    {
      MatchingAppend(lines[..i], lines[i], pattern);
      assert lines[..i + 1] == lines[..i] + [lines[i]];
      if Contains(lines[i], pattern) {
        matches := matches + [lines[i]];
      }
      i := i + 1;
    }
    assert lines[..i] == lines;
  }

  /** The search over the entries of one directory, descending into each subdirectory through its entry. */
  method FindEntries(es: seq<Entry>, path: string, pattern: string) returns (results: seq<string>)
    ensures results == FindIn(es, path, pattern)
    decreases es
  {
    results := [];
    var i := 0;
    while i < |es|
      invariant 0 <= i <= |es|
      invariant results + FindIn(es[i..], path, pattern) == FindIn(es, path, pattern)
    {
      assert es[i] in es;
      var part := FindBelow(es[i], path, pattern);
      FindAdvance(es, i, path, pattern, results, part);
      results := results + part;
      i := i + 1;
    }
  }

  /** One entry of the search: its own path when its name contains the pattern, then what lies below it. */
  method FindBelow(e: Entry, path: string, pattern: string) returns (results: seq<string>)
    ensures results ==
      (if Contains(e.name, pattern) then [ChildPath(path, e.name)] else []) +
      (if e.node.Dir? then FindIn(e.node.entries, ChildPath(path, e.name), pattern) else [])
    decreases e
  {
    var fullPath := ChildPath(path, e.name);
    results := if Contains(e.name, pattern) then [fullPath] else [];
    if e.node.Dir? {
      var below := FindEntries(e.node.entries, fullPath, pattern);
      results := results + below;
    }
  }

  /** The completion for the current input: by the number of words typed. */
  method Completing(root: Node, cwd: string, prompt: string, value: string) returns (c: Completion)
    ensures c == Complete(root, cwd, prompt, value)
  {
    var parts := Split(value, ' ');
    var lastPart := parts[|parts| - 1];
    if |parts| == 1 {
      c := CompleteCommand(root, cwd, prompt, value, lastPart);
    } else {
      c := CompletePath(root, cwd, prompt, value, parts, lastPart);
    }
  }

  /** A single word completes to the one command name it begins, or lists the choices. */
  method CompleteCommand(root: Node, cwd: string, prompt: string, value: string, lastPart: string) returns (c: Completion)
    requires Split(value, ' ') == [lastPart]
    ensures c == Complete(root, cwd, prompt, value)
  {
    var matches := PrefixMatches(CompletionNames, lastPart);
    if |matches| == 1 {
      c := Completion(matches[0] + " ", []);
    } else if |matches| > 1 {
      c := Completion(value, Choices(matches, prompt, value));
    } else {
      c := Completion(value, []);
    }
  }

  /** A later word completes to the one entry its last segment begins, or lists the choices. */
  method CompletePath(root: Node, cwd: string, prompt: string, value: string, parts: seq<string>, lastPart: string)
    returns (c: Completion)
    requires parts == Split(value, ' ') && |parts| > 1 && lastPart == parts[|parts| - 1]
    ensures c == Complete(root, cwd, prompt, value)
  {
    var path := ResolvePath(lastPart, cwd);
    var parentPath := ParentPath(path);
    var prefix := FileName(path);
    var dir := GetDirectoryContents(root, parentPath);
    if dir.None? {
      return Completion(value, []);
    }
    var matches := PrefixMatches(Names(dir.value), prefix);
    if |matches| == 1 {
      var fullMatch := CollapseSlashes(parentPath + "/" + matches[0]);
      assert CompletedWord(root, cwd, lastPart) == Some(Relative(fullMatch, cwd));
      c := Completion(Join(parts[..|parts| - 1] + [Relative(fullMatch, cwd)], " "), []);
    } else if |matches| > 1 {
      c := Completion(value, Choices(matches, prompt, value));
    } else {
      c := Completion(value, []);
    }
  }

  /** One step of the search loop: the entry's share joins what was found before it. */
  lemma FindAdvance(es: seq<Entry>, i: nat, path: string, pattern: string, found: seq<string>, part: seq<string>)
    requires i < |es|
    requires found + FindIn(es[i..], path, pattern) == FindIn(es, path, pattern)
    requires part ==
      (if Contains(es[i].name, pattern) then [ChildPath(path, es[i].name)] else []) +
      (if es[i].node.Dir? then FindIn(es[i].node.entries, ChildPath(path, es[i].name), pattern) else [])
    ensures found + part + FindIn(es[i + 1..], path, pattern) == FindIn(es, path, pattern)
  {
    var rest := FindIn(es[i..], path, pattern);
    var later := FindIn(es[i + 1..], path, pattern);
    assert rest == part + later by { FindInStep(es, i, path, pattern); }
    assert found + part + later == found + (part + later);
  }

  /** The listing of the first `i + 1` entries extends that of the first `i`. */
  lemma ShowPrefix(es: seq<Entry>, i: nat, showHidden: bool, long: bool, today: string)
    requires i < |es|
    ensures EntryLines(Visible(es[..i + 1], showHidden), long, today) ==
            EntryLines(Visible(es[..i], showHidden), long, today) +
            (if showHidden || !StartsWith(es[i].name, ".") then [Text(EntryLine(es[i], long, today))] else [])
  {
    assert es[..i + 1] == es[..i] + [es[i]];
    ShowEntry(es[..i], es[i], showHidden, long, today);
  }

  /** A loop that has done `done` and has `rest == part + later` left, once `part` is done, has `later` left. */
  lemma Advance(done: seq<Line>, part: seq<Line>, later: seq<Line>, rest: seq<Line>, whole: seq<Line>)
    requires done + rest == whole && rest == part + later
    ensures done + part + later == whole
  {
    assert done + part + later == done + (part + later);
  }

  /** Output appended in two steps is the output appended at once. */
  lemma Regroup(a: seq<Line>, b: seq<Line>, c: seq<Line>)
    ensures a + b + c == a + (b + c)
  {
  }
}
