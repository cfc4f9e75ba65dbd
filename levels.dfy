/**
 * The terminals of the two earlier levels: the `pwd` level (script_pwd.js)
 * and the log level (script.js). Both keep a current directory that is a key
 * of a flat table of directories and append one `<div>` per printed block to
 * the output; the log level adds `cat`, `grep` and `tail` over four canned
 * log files, colouring each line by its severity.
 */
module Levels {
  import opened Wrappers
  import opened Text
  import Paths
  import Commands

  datatype Level = PwdLevel | LogLevel

  /** The path of a child directory, as the tables write it. */
  function Sub(parent: string, name: string): string
  {
    parent + "/" + name
  }

  /** The `directories` table of a level: each directory with the names listed in it. */
  function Directories(level: Level): map<string, seq<string>>
  {
    var home := Paths.Home;
    var shared := map[
      Sub(home, "documents") := ["project1", "project2", "notes.txt"],
      Sub(home, "downloads") := ["file1.zip", "file2.exe"],
      Sub(home, "music") := ["song1.mp3", "song2.mp3"],
      Sub(home, "pictures") := ["photo1.jpg", "photo2.png"],
      Sub(home, "videos") := ["video1.mp4", "video2.mp4"],
      Sub(Sub(home, "documents"), "project1") := []];
    match level
    case PwdLevel => shared[home := ["documents", "downloads", "music", "pictures", "videos"]]
    case LogLevel => shared[home := ["documents", "downloads", "music", "pictures", "videos", "logs"]]
                          [Sub(home, "logs") := ["system.log", "auth.log", "kernel.log", "app.log"]]
  }

  /** The keys of the log level's `logContents` table. */
  predicate IsLog(name: string)
  {
    name == "system.log" || name == "auth.log" || name == "kernel.log" || name == "app.log"
  }

  /** The log level's `logContents` table: the text stored under each key. */
  function LogText(name: string): string
    requires IsLog(name)
  {
    if name == "system.log" then
      "[2037-01-20 08:15:22] INFO: System booted successfully\n[2037-01-20 09:30:45] WARNING: CPU temperature high (78\U{00B0}C)\n[2037-01-20 10:12:33] INFO: System update available\n[2037-01-20 11:05:17] ERROR: Failed to mount /dev/sdb1\n[2037-01-20 12:45:01] INFO: Network interface eth0 connected"
    else if name == "auth.log" then
      "[2037-01-20 08:16:03] INFO: User 'root' logged in\n[2037-01-20 09:22:15] WARNING: Failed login attempt for user 'admin'\n[2037-01-20 10:45:30] WARNING: Failed login attempt for user 'admin'\n[2037-01-20 10:46:12] WARNING: Failed login attempt for user 'admin'\n[2037-01-20 10:47:05] CRITICAL: Account 'admin' locked due to multiple failed attempts"
    else if name == "kernel.log" then
      "[2037-01-20 08:15:10] INFO: Linux kernel 6.5.8 loaded\n[2037-01-20 08:15:15] INFO: CPU: 8 cores detected\n[2037-01-20 08:15:18] INFO: Memory: 16GB available\n[2037-01-20 10:33:42] WARNING: Process 1458 using excessive CPU\n[2037-01-20 11:05:17] ERROR: I/O error on device sdb1"
    else
      "[2037-01-20 09:00:01] INFO: Dark$ession application started\n[2037-01-20 09:15:23] INFO: User connected to server\n[2037-01-20 10:22:45] WARNING: Database connection slow\n[2037-01-20 11:30:12] ERROR: Failed to load module 'security'\n[2037-01-20 12:05:33] INFO: Backup completed successfully"
  }

  /** The body of the `help` block. */
  function Help(level: Level): string
  {
    match level
    case PwdLevel =>
      "\n          Available commands:<br>\n          <strong>pwd</strong> - Show current directory<br>\n          <strong>ls</strong> - List directory contents<br>\n          <strong>cd [dir]</strong> - Change directory<br>\n          <strong>clear</strong> - Clear terminal<br>\n          <strong>help</strong> - Show this help\n        "
    case LogLevel =>
      "\n        Available commands:<br>\n        <strong>pwd</strong> - Show current directory<br>\n        <strong>ls</strong> - List directory contents<br>\n        <strong>cd [dir]</strong> - Change directory<br>\n        <strong>clear</strong> - Clear terminal<br>\n        <strong>cat [file]</strong> - Display file contents<br>\n        <strong>grep [pattern] [file]</strong> - Search for pattern in file<br>\n        <strong>whoami</strong> - Display current user<br>\n        <strong>date</strong> - Display system date and time<br>\n        <strong>tail [file]</strong> - Display the last part of a file<br>\n        <strong>help</strong> - Show this help\n      "
  }

  /** The echo of an entered line after the prompt. */
  function Echo(dir: string, input: string): string
  {
    "<span class=\"prompt\">user@linux:" + dir + "$</span> " + input
  }

  function NotFound(cmd: string): string
  {
    "bash: " + cmd + ": command not found"
  }

  // ---------------------------------------------------------------- cd

  /** `parts.pop()` then `parts.join("/") || "/"`: the path without its last piece. */
  function DropLast(dir: string): string
  {
    var parts := Split(dir, '/');
    var joined := Join(parts[..|parts| - 1], "/");
    if joined == "" then "/" else joined
  }

  /** Dropping the last piece of a child path gives back its parent. */
  lemma DropLastChild(p: string, name: string)
    requires '/' !in name && p != ""
    ensures DropLast(Sub(p, name)) == p
  {
    assert Sub(p, name) == p + ['/'] + name;
    SplitAround(p, '/', name);
    SplitNoSeparator(name, '/');
    var parts := Split(Sub(p, name), '/');
    assert parts[..|parts| - 1] == Split(p, '/');
    JoinSplit(p, '/');
  }

  /**
   * The `cd` branch: the new directory and the lines it prints. No argument
   * or `~` goes home; `..` drops the last piece except at home; any other
   * target, absolute or relative to the current directory, must be a key of
   * the table.
   */
  function Cd(level: Level, dir: string, args: seq<string>): (string, seq<string>)
  {
    if |args| < 2 || args[1] == "~" then (Paths.Home, [])
    else if args[1] == ".." then (if dir != Paths.Home then DropLast(dir) else dir, [])
    else
      var path := if StartsWith(args[1], "/") then args[1] else dir + "/" + args[1];
      if path in Directories(level) then (path, []) else (dir, ["bash: cd: " + args[1] + ": No such directory"])
  }

  /** Every directory of a table but home has its parent in the table too. */
  lemma KeyParents(level: Level, dir: string)
    requires dir in Directories(level) && dir != Paths.Home
    ensures DropLast(dir) in Directories(level)
  {
    TableKeys(level, dir);
    var home := Paths.Home;
    var documents := Sub(home, "documents");
    if dir == Sub(documents, "project1") {
      DropLastChild(documents, "project1");
    } else if dir == documents {
      DropLastChild(home, "documents");
    } else if dir == Sub(home, "downloads") {
      DropLastChild(home, "downloads");
    } else if dir == Sub(home, "music") {
      DropLastChild(home, "music");
    } else if dir == Sub(home, "pictures") {
      DropLastChild(home, "pictures");
    } else if dir == Sub(home, "videos") {
      DropLastChild(home, "videos");
    } else {
      DropLastChild(home, "logs");
    }
  }

  /**
   * A target `cd` refuses leaves the directory where it was and prints one
   * error; one it accepts is a key of the table and prints nothing.
   */
  lemma CdTarget(level: Level, dir: string, args: seq<string>)
    requires |args| >= 2 && args[1] != "~" && args[1] != ".."
    ensures var (d, lines) := Cd(level, dir, args);
            (lines == [] && d in Directories(level) &&
             d == (if StartsWith(args[1], "/") then args[1] else dir + "/" + args[1])) ||
            (lines == ["bash: cd: " + args[1] + ": No such directory"] && d == dir &&
             (if StartsWith(args[1], "/") then args[1] else dir + "/" + args[1]) !in Directories(level))
  {
  }

  /** `cd`, `cd ~` and `cd ..` always succeed, `cd ..` staying put at home. */
  lemma CdHomeAndUp(level: Level, dir: string, args: seq<string>)
    ensures |args| < 2 || args[1] == "~" ==> Cd(level, dir, args) == (Paths.Home, [])
    ensures |args| >= 2 && args[1] == ".." && dir == Paths.Home ==> Cd(level, dir, args) == (dir, [])
  {
  }

  // ---------------------------------------------------------------- logs

  datatype Severity = Info | Warning | Failure | Critical | Plain

  /** The first of `INFO`, `WARNING`, `ERROR`, `CRITICAL` the line contains decides its class. */
  function Classify(line: string): Severity
  {
    if Contains(line, "INFO") then Info
    else if Contains(line, "WARNING") then Warning
    else if Contains(line, "ERROR") then Failure
    else if Contains(line, "CRITICAL") then Critical
    else Plain
  }

  function Colour(line: string): string
  {
    match Classify(line)
    case Info => "<span class=\"log-info\">" + line + "</span>"
    case Warning => "<span class=\"log-warning\">" + line + "</span>"
    case Failure => "<span class=\"log-error\">" + line + "</span>"
    case Critical => "<span class=\"log-critical\">" + line + "</span>"
    case Plain => line
  }

  function Colours(lines: seq<string>): (r: seq<string>)
    ensures |r| == |lines|
    ensures forall i :: 0 <= i < |lines| ==> r[i] == Colour(lines[i])
  {
    if lines == [] then [] else [Colour(lines[0])] + Colours(lines[1..])
  }

  /** A class is given exactly when its keyword is there and no earlier keyword is. */
  lemma ClassifyOrder(line: string)
    ensures Classify(line) == Info <==> Contains(line, "INFO")
    ensures Classify(line) == Warning <==> !Contains(line, "INFO") && Contains(line, "WARNING")
    ensures Classify(line) == Failure <==> !Contains(line, "INFO") && !Contains(line, "WARNING") && Contains(line, "ERROR")
    ensures Classify(line) == Critical <==>
              !Contains(line, "INFO") && !Contains(line, "WARNING") && !Contains(line, "ERROR") && Contains(line, "CRITICAL")
    ensures Classify(line) == Plain ==> Colour(line) == line
  {
  }

  /** The last piece of the current directory (`dirPath[dirPath.length - 1]`). */
  function LastFolder(dir: string): string
  {
    var parts := Split(dir, '/');
    parts[|parts| - 1]
  }

  /** A file `cat`, `grep` and `tail` can read: only inside a directory called `logs`. */
  function LogFile(dir: string, name: string): Option<string>
  {
    if LastFolder(dir) == "logs" && IsLog(name) then Some(LogText(name)) else None
  }

  /** `lines.slice(-5)` */
  function Tail(lines: seq<string>): seq<string>
  {
    if |lines| > 5 then lines[|lines| - 5..] else lines
  }

  /** `tail` shows the last five lines, in order, or all of them when there are fewer. */
  lemma TailLast(lines: seq<string>)
    ensures var r := Tail(lines);
            |r| == (if |lines| < 5 then |lines| else 5) && r == lines[|lines| - |r|..]
  {
  }

  /** The block the log commands print. */
  function Block(lines: seq<string>): string
  {
    Join(Colours(lines), "\n")
  }

  /**
   * What `cat`, `grep` and `tail` print once `logContents[fileName]` has been
   * looked up: the (coloured) lines, or the missing-file message.
   */
  function ReadReply(cmd: string, fileName: string, pattern: string, found: Option<string>): string
  {
    match found
    case None => cmd + ": " + fileName + ": No such file or directory"
    case Some(content) =>
      var lines := Split(content, '\n');
      if cmd == "cat" then Block(lines)
      else if cmd == "grep" then
        var matched := Commands.Matching(lines, pattern);
        if |matched| > 0 then Block(matched) else "(no matches found)"
      else Block(Tail(lines))
  }

  /** The one block `cat`, `grep`, `tail`, `whoami` or `date` appends. */
  function LogReply(dir: string, args: seq<string>): string
    requires |args| >= 1
  {
    var cmd := args[0];
    if cmd == "cat" then
      if |args| < 2 then "cat: missing file operand"
      else ReadReply(cmd, args[1], "", LogFile(dir, args[1]))
    else if cmd == "grep" then
      if |args| < 3 then "grep: missing pattern or file operand"
      else ReadReply(cmd, args[2], args[1], LogFile(dir, args[2]))
    else if cmd == "whoami" then "dark$ession"
    else if cmd == "date" then "Mon Jan 21 12:45:33 UTC 2037"
    else if cmd == "tail" then
      if |args| < 2 then "tail: missing file operand"
      else ReadReply(cmd, args[1], "", LogFile(dir, args[1]))
    else NotFound(cmd)
  }

  /** Where no line of a file carries a keyword, `cat` prints the file as it is. */
  lemma CatPlain(name: string, content: string)
    requires forall l :: l in Split(content, '\n') ==> Classify(l) == Plain
    ensures ReadReply("cat", name, "", Some(content)) == content
  {
    PlainBlock(content);
  }

  /** A text none of whose lines carries a keyword comes back unchanged from colouring. */
  lemma PlainBlock(content: string)
    requires forall l :: l in Split(content, '\n') ==> Classify(l) == Plain
    ensures Block(Split(content, '\n')) == content
  {
    var lines := Split(content, '\n');
    assert Colours(lines) == lines;
    JoinSplit(content, '\n');
  }

  /**
   * `grep` prints `(no matches found)` when no line of the file contains the
   * pattern, and otherwise the block of the matching lines, in order.
   */
  lemma GrepReply(pattern: string, name: string, content: string)
    ensures var lines := Split(content, '\n');
            ((forall l :: l in lines ==> !Contains(l, pattern)) ==>
               ReadReply("grep", name, pattern, Some(content)) == "(no matches found)") &&
            ((exists l :: l in lines && Contains(l, pattern)) ==>
               ReadReply("grep", name, pattern, Some(content)) == Block(Commands.Matching(lines, pattern)) &&
               forall l :: l in Commands.Matching(lines, pattern) <==> l in lines && Contains(l, pattern))
  {
    var lines := Split(content, '\n');
    Commands.MatchingMembers(lines, pattern);
    var matched := Commands.Matching(lines, pattern);
    if matched != [] {
      assert matched[0] in matched;
    }
  }

  // ---------------------------------------------------------------- the Enter handler

  /** What the handler leaves behind: the current directory and the printed blocks. */
  datatype Screen = Screen(dir: string, output: seq<string>)

  const LogCommands: set<string> := {"cat", "grep", "whoami", "date", "tail"}

  /** The one block every command other than `cd` and `clear` prints. */
  function Reply(level: Level, dir: string, args: seq<string>): string
    requires |args| >= 1
  {
    var cmd := args[0];
    if cmd == "pwd" then dir
    else if cmd == "ls" then
      if dir in Directories(level) then Join(Directories(level)[dir], "  ")
      else "ls: cannot access '" + dir + "': No such directory"
    else if cmd == "help" then Help(level)
    else if level == LogLevel && cmd in LogCommands then LogReply(dir, args)
    else NotFound(cmd)
  }

  /** The Enter handler: echo the trimmed line, then act on its first word. */
  function Step(level: Level, s: Screen, line: string): Screen
  {
    var input := Trim(line);
    var out := s.output + [Echo(s.dir, input)];
    var args := Split(input, ' ');
    if args[0] == "cd" then
      var (dir, lines) := Cd(level, s.dir, args);
      Screen(dir, out + lines)
    else if args[0] == "clear" then Screen(s.dir, [])
    else Screen(s.dir, out + [Reply(level, s.dir, args)])
  }

  /** The current directory stays a key of the table, whatever is typed. */
  lemma StepKeepsKey(level: Level, s: Screen, line: string)
    requires s.dir in Directories(level)
    ensures Step(level, s, line).dir in Directories(level)
  {
    var args := Split(Trim(line), ' ');
    StepDir(level, s, line);
    if args[0] == "cd" && |args| >= 2 && args[1] == ".." && s.dir != Paths.Home {
      KeyParents(level, s.dir);
    }
  }

  /** Only `cd` moves. */
  lemma StepDir(level: Level, s: Screen, line: string)
    ensures var args := Split(Trim(line), ' ');
            Step(level, s, line).dir == if args[0] == "cd" then Cd(level, s.dir, args).0 else s.dir
  {
  }

  /** So `ls` always lists the current directory and never reports it missing. */
  lemma LsLists(level: Level, s: Screen, line: string)
    requires s.dir in Directories(level) && Split(Trim(line), ' ')[0] == "ls"
    ensures Step(level, s, line) ==
            Screen(s.dir, s.output + [Echo(s.dir, Trim(line)), Join(Directories(level)[s.dir], "  ")])
  {
  }

  /** Only `clear` empties the output; every other line keeps what was printed and echoes itself. */
  lemma StepOutput(level: Level, s: Screen, line: string)
    ensures Split(Trim(line), ' ')[0] == "clear" <==> Step(level, s, line).output == []
    ensures Split(Trim(line), ' ')[0] != "clear" ==>
              s.output + [Echo(s.dir, Trim(line))] <= Step(level, s, line).output
  {
    if Split(Trim(line), ' ')[0] != "clear" {
      StepAppends(level, s, line);
    }
  }

  lemma StepAppends(level: Level, s: Screen, line: string)
    requires Split(Trim(line), ' ')[0] != "clear"
    ensures s.output + [Echo(s.dir, Trim(line))] <= Step(level, s, line).output
    ensures Step(level, s, line).output != []
  {
    var out := s.output + [Echo(s.dir, Trim(line))];
    var args := Split(Trim(line), ' ');
    if args[0] == "cd" {
      Extends(out, Cd(level, s.dir, args).1, Step(level, s, line).output);
    } else {
      Extends(out, [Reply(level, s.dir, args)], Step(level, s, line).output);
    }
  }

  lemma Extends(out: seq<string>, extra: seq<string>, output: seq<string>)
    requires output == out + extra && out != []
    ensures out <= output && output != []
  {
    assert output[..|out|] == out;
  }

  /** An unknown first word prints `bash: <cmd>: command not found` and changes no directory. */
  lemma UnknownCommand(level: Level, s: Screen, line: string)
    requires var cmd := Split(Trim(line), ' ')[0];
             cmd !in {"pwd", "ls", "cd", "clear", "help"} && (level == PwdLevel || cmd !in LogCommands)
    ensures var cmd := Split(Trim(line), ' ')[0];
            Step(level, s, line) == Screen(s.dir, s.output + [Echo(s.dir, Trim(line)), NotFound(cmd)])
  {
  }

  /**
   * Of all the directories of the tables, only the log level's `logs` is
   * called `logs`: the log commands read nothing anywhere else.
   */
  lemma LogsOnlyInLogs(level: Level, dir: string, name: string)
    requires dir in Directories(level) && LogFile(dir, name).Some?
    ensures level == LogLevel && dir == Sub(Paths.Home, "logs") && IsLog(name)
  {
    assert LastFolder(dir) == "logs";
    OnlyLogsFolder(level, dir);
  }

  lemma OnlyLogsFolder(level: Level, dir: string)
    requires dir in Directories(level) && LastFolder(dir) == "logs"
    ensures level == LogLevel && dir == Sub(Paths.Home, "logs")
  {
    TableKeys(level, dir);
    FolderNames();
  }

  /** The directories of the tables, one by one. */
  lemma TableKeys(level: Level, dir: string)
    requires dir in Directories(level)
    ensures var home := Paths.Home;
            dir == home || dir == Sub(home, "documents") || dir == Sub(home, "downloads") ||
            dir == Sub(home, "music") || dir == Sub(home, "pictures") || dir == Sub(home, "videos") ||
            dir == Sub(Sub(home, "documents"), "project1") ||
            (level == LogLevel && dir == Sub(home, "logs"))
  {
  }

  /** The last piece of each directory of the tables. */
  lemma FolderNames()
    ensures var home := Paths.Home;
            LastFolder(home) == "user" &&
            LastFolder(Sub(home, "documents")) == "documents" &&
            LastFolder(Sub(home, "downloads")) == "downloads" &&
            LastFolder(Sub(home, "music")) == "music" &&
            LastFolder(Sub(home, "pictures")) == "pictures" &&
            LastFolder(Sub(home, "videos")) == "videos" &&
            LastFolder(Sub(home, "logs")) == "logs" &&
            LastFolder(Sub(Sub(home, "documents"), "project1")) == "project1"
  {
    Commands.HomeSplit();
    HomeFolders();
    OtherFolders();
  }

  lemma HomeFolders()
    ensures var home := Paths.Home;
            LastFolder(Sub(home, "documents")) == "documents" &&
            LastFolder(Sub(home, "downloads")) == "downloads" &&
            LastFolder(Sub(home, "music")) == "music" &&
            LastFolder(Sub(home, "pictures")) == "pictures"
  {
    LastOfChild(Paths.Home, "documents");
    LastOfChild(Paths.Home, "downloads");
    LastOfChild(Paths.Home, "music");
    LastOfChild(Paths.Home, "pictures");
  }

  lemma OtherFolders()
    ensures var home := Paths.Home;
            LastFolder(Sub(home, "videos")) == "videos" &&
            LastFolder(Sub(home, "logs")) == "logs" &&
            LastFolder(Sub(Sub(home, "documents"), "project1")) == "project1"
  {
    LastOfChild(Paths.Home, "videos");
    LastOfChild(Paths.Home, "logs");
    LastOfChild(Sub(Paths.Home, "documents"), "project1");
  }

  /** The last piece of a child path is the child's name. */
  lemma LastOfChild(p: string, name: string)
    requires '/' !in name
    ensures LastFolder(Sub(p, name)) == name
  {
    assert Sub(p, name) == p + ['/'] + name;
    SplitAround(p, '/', name);
    SplitNoSeparator(name, '/');
  }

  /** The terminal page of a level. */
  class LevelTerminal {
    const level: Level
    var currentDir: string
    var output: seq<string>

    function State(): Screen
      reads this
    {
      Screen(currentDir, output)
    }

    constructor(level: Level)
      ensures this.level == level && State() == Screen(Paths.Home, [])
    {
      this.level := level;
      currentDir := Paths.Home;
      output := [];
    }

    method Enter(line: string)
      modifies this
      ensures State() == Step(level, old(State()), line)
    {
      var input := Trim(line);
      output := output + [Echo(currentDir, input)];
      var args := Split(input, ' ');
      var cmd := args[0];
      if cmd == "cd" {
        ChangeDirectory(args);
      } else if cmd == "clear" {
        output := [];
      } else {
        var block := Respond(args);
        output := output + [block];
      }
    }

    /** The branches that print one block. */
    method Respond(args: seq<string>) returns (block: string)
      requires |args| >= 1
      ensures block == Reply(level, currentDir, args)
    {
      var cmd := args[0];
      if cmd == "pwd" {
        block := currentDir;
      } else if cmd == "ls" {
        var directories := Directories(level);
        if currentDir in directories {
          block := Join(directories[currentDir], "  ");
        } else {
          block := "ls: cannot access '" + currentDir + "': No such directory";
        }
      } else if cmd == "help" {
        block := Help(level);
      } else if level == LogLevel && cmd in LogCommands {
        block := LogReply(currentDir, args);
      } else {
        block := NotFound(cmd);
      }
    }

    method ChangeDirectory(args: seq<string>)
      modifies this
      ensures State() == Screen(Cd(level, old(currentDir), args).0, old(output) + Cd(level, old(currentDir), args).1)
    {
      if |args| < 2 || args[1] == "~" {
        currentDir := Paths.Home;
        return;
      }
      var target := args[1];
      if target == ".." {
        if currentDir != Paths.Home {
          currentDir := DropLast(currentDir);
        }
      } else if StartsWith(target, "/") {
        if target in Directories(level) {
          currentDir := target;
        } else {
          output := output + ["bash: cd: " + target + ": No such directory"];
        }
      } else {
        var newPath := currentDir + "/" + target;
        if newPath in Directories(level) {
          currentDir := newPath;
        } else {
          output := output + ["bash: cd: " + target + ": No such directory"];
        }
      }
    }
  }
}
