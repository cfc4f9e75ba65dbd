/**
 * What each command of the desktop terminal (Desktop/terminal.js) prints and
 * does to the tree, as functions of the tree, the current directory and the
 * command's words. The class in module Terminals runs the same commands step
 * by step and is proved to agree with these functions.
 */
module Commands {
  import opened Wrappers
  import opened Text
  import opened Paths
  import opened Vfs

  /** The fixed text blocks (welcome, `help`, `ps`, `ipconfig`, `who`), kept abstract. */
  datatype Block = Welcome | Help | Processes | IpConfig | Who

  /**
   * One `appendOutput` call: markup text, a fixed block, or a `grep` match
   * whose occurrences of the pattern are highlighted for display.
   */
  datatype Line = Text(html: string) | Canned(block: Block) | Highlighted(line: string, pattern: string)

  /** The two readings of the clock the commands print: `Date.toString()` and `toLocaleDateString()`. */
  datatype Clock = Clock(now: string, today: string)

  function Span(cls: string, text: string): string
  {
    "<span class=\"" + cls + "\">" + text + "</span>"
  }

  function Error(text: string): Line
  {
    Text(Span("error", text))
  }

  function Success(text: string): Line
  {
    Text(Span("success", text))
  }

  /** The echo of an entered line after the prompt. */
  function PromptLine(prompt: string, text: string): Line
  {
    Text(Span("terminal-prompt", prompt) + text)
  }

  /** `args[i] || fallback`: a missing or empty word gives the fallback. */
  function ArgOr(args: seq<string>, i: nat, fallback: string): (r: string)
    ensures r == fallback || (i < |args| && r == args[i])
    ensures r == "" ==> fallback == ""
  {
    if i < |args| && args[i] != "" then args[i] else fallback
  }

  const ReadmeText: string :=
    "Welcome to the Dark Session Desktop!\n\nThis is a simulated desktop environment with:\n- Functional terminal\n- File manager\n- Text editor\n- Calculator\n\nExplore and enjoy!"
  const IndexHtml: string :=
    "<!DOCTYPE html>\n<html>\n<head>\n    <title>My Website</title>\n</head>\n<body>\n    <h1>Hello World!</h1>\n</body>\n</html>"
  const Bashrc: string :=
    "# ~/.bashrc: executed by bash(1) for non-login shells.\n\nexport PATH=$PATH:/usr/local/bin\nalias ll=\"ls -la\"\nalias la=\"ls -A\"\n"
  const Passwd: string :=
    "root:x:0:0:root:/root:/bin/bash\nuser:x:1000:1000:User:/home/user:/bin/bash\n"

  /** `/home/user` as the session creates it, with the three preset file contents. */
  function HomeTree(readme: string, page: string, bashrc: string): Node
  {
    Dir([Entry("Documents", DocumentsTree(readme, page)),
         Entry("Downloads", Dir([])),
         Entry("Pictures", Dir([])),
         Entry(".bashrc", File(bashrc))])
  }

  function UserHome(): Node
  {
    HomeTree(ReadmeText, IndexHtml, Bashrc)
  }

  /** The root directory around a home directory and the preset `/etc/passwd`. */
  function RootTree(user: Node, passwd: string): Node
  {
    Dir([Entry("home", Dir([Entry("user", user)])),
         Entry("etc", Dir([Entry("passwd", File(passwd))])),
         Entry("usr", Dir([Entry("bin", Dir([]))]))])
  }

  /** `initializeFileSystem`: the root directory `fileSystem['/']` a session starts with. */
  function InitialTree(): Node
  {
    RootTree(UserHome(), Passwd)
  }

  lemma InitialTreeWellFormed()
    ensures WellFormed(InitialTree())
  {
    HomeTreeWellFormed(ReadmeText, IndexHtml, Bashrc);
    RootTreeWellFormed(UserHome(), Passwd);
  }

  lemma RootTreeWellFormed(user: Node, passwd: string)
    requires WellFormed(user)
    ensures WellFormed(RootTree(user, passwd))
  {
    var home := Dir([Entry("user", user)]);
    var etc := Dir([Entry("passwd", File(passwd))]);
    var usr := Dir([Entry("bin", Dir([]))]);
    assert WellFormed(home) && WellFormed(etc) && WellFormed(usr) by {
      SingleWellFormed("user", user);
      SingleWellFormed("passwd", File(passwd));
      SingleWellFormed("bin", Dir([]));
    }
    assert RootTree(user, passwd) == Dir([Entry("home", home), Entry("etc", etc), Entry("usr", usr)]);
  }

  lemma HomeTreeWellFormed(readme: string, page: string, bashrc: string)
    ensures WellFormed(HomeTree(readme, page, bashrc))
  {
    DocumentsWellFormed(readme, page);
    HomeEntriesWellFormed(DocumentsTree(readme, page), File(bashrc));
  }

  lemma HomeEntriesWellFormed(documents: Node, bashrc: Node)
    requires WellFormed(documents) && WellFormed(bashrc)
    ensures WellFormed(Dir([Entry("Documents", documents), Entry("Downloads", Dir([])), Entry("Pictures", Dir([])), Entry(".bashrc", bashrc)]))
  {
    HomeNames();
    FourWellFormed(Entry("Documents", documents), Entry("Downloads", Dir([])), Entry("Pictures", Dir([])), Entry(".bashrc", bashrc));
  }

  /** The names in the home directory are distinct plain names, none an array index. */
  lemma HomeNames()
    ensures "Documents" != "Downloads" && "Documents" != "Pictures" && "Documents" != ".bashrc"
    ensures "Downloads" != "Pictures" && "Downloads" != ".bashrc" && "Pictures" != ".bashrc"
    ensures !IsIndex("Documents") && !IsIndex("Downloads") && !IsIndex("Pictures") && !IsIndex(".bashrc")
    ensures '/' !in "Documents" && '/' !in "Downloads" && '/' !in "Pictures" && '/' !in ".bashrc"
  {
    NonDigitNotIndex("Documents");
    NonDigitNotIndex("Downloads");
    NonDigitNotIndex("Pictures");
    NonDigitNotIndex(".bashrc");
  }

  /** Four entries with distinct names, none an array index, make a well-formed directory. */
  lemma FourWellFormed(e0: Entry, e1: Entry, e2: Entry, e3: Entry)
    requires e0.name != e1.name && e0.name != e2.name && e0.name != e3.name
    requires e1.name != e2.name && e1.name != e3.name && e2.name != e3.name
    requires !IsIndex(e0.name) && !IsIndex(e1.name) && !IsIndex(e2.name) && !IsIndex(e3.name)
    requires '/' !in e0.name && '/' !in e1.name && '/' !in e2.name && '/' !in e3.name
    requires WellFormed(e0.node) && WellFormed(e1.node) && WellFormed(e2.node) && WellFormed(e3.node)
    ensures WellFormedEntries([e0, e1, e2, e3])
  {
    ConsWellFormed(e3, []);
    assert [e3] + [] == [e3];
    ConsWellFormed(e2, [e3]);
    assert [e2] + [e3] == [e2, e3];
    ConsWellFormed(e1, [e2, e3]);
    assert [e1] + [e2, e3] == [e1, e2, e3];
    ConsWellFormed(e0, [e1, e2, e3]);
    assert [e0] + [e1, e2, e3] == [e0, e1, e2, e3];
  }

  /** A new first entry that is not an array index keeps a directory well formed. */
  lemma ConsWellFormed(e: Entry, es: seq<Entry>)
    requires WellFormedEntries(es) && WellFormed(e.node) && '/' !in e.name && !IsIndex(e.name)
    requires forall i :: 0 <= i < |es| ==> es[i].name != e.name && !IsIndex(es[i].name)
    ensures WellFormedEntries([e] + es)
  {
    ConsUnique(e, es);
    ConsNodes(e, es);
    ConsNoIndex(e, es);
  }

  lemma ConsUnique(e: Entry, es: seq<Entry>)
    requires UniqueNames(es) && forall i :: 0 <= i < |es| ==> es[i].name != e.name
    ensures UniqueNames([e] + es)
  {
    var r := [e] + es;
    forall i, j | 0 <= i < j < |r| ensures r[i].name != r[j].name {
      assert r[j] == es[j - 1];
      if i > 0 {
        assert r[i] == es[i - 1];
      }
    }
  }

  lemma ConsNodes(e: Entry, es: seq<Entry>)
    requires WellFormed(e.node) && '/' !in e.name
    requires forall i :: 0 <= i < |es| ==> '/' !in es[i].name && WellFormed(es[i].node)
    ensures forall i :: 0 <= i < |[e] + es| ==> '/' !in ([e] + es)[i].name && WellFormed(([e] + es)[i].node)
  {
    var r := [e] + es;
    forall i | 0 < i < |r| ensures r[i] == es[i - 1] { }
  }

  lemma ConsNoIndex(e: Entry, es: seq<Entry>)
    requires !IsIndex(e.name) && forall i :: 0 <= i < |es| ==> !IsIndex(es[i].name)
    ensures KeyOrdered([e] + es)
  {
    var r := [e] + es;
    forall i | 0 <= i < |r| ensures !IsIndex(r[i].name) {
      if i > 0 {
        assert r[i] == es[i - 1];
      }
    }
    NoIndexKeyOrdered(r);
  }

  function DocumentsTree(readme: string, page: string): Node
  {
    Dir([Entry("readme.txt", File(readme)),
         Entry("projects", Dir([Entry("website", Dir([Entry("index.html", File(page))]))]))])
  }

  lemma DocumentsWellFormed(readme: string, page: string)
    ensures WellFormed(DocumentsTree(readme, page))
  {
    var website := Dir([Entry("index.html", File(page))]);
    var projects := Dir([Entry("website", website)]);
    assert WellFormed(projects) by {
      SingleWellFormed("index.html", File(page));
      SingleWellFormed("website", website);
    }
  }

  lemma SingleWellFormed(name: string, n: Node)
    requires '/' !in name && WellFormed(n)
    ensures WellFormed(Dir([Entry(name, n)]))
  {
  }

  /** The pieces of an absolute path `/a/b` with two plain names. */
  lemma TwoLevelSplit(a: string, b: string)
    requires '/' !in a && '/' !in b && a != "" && b != ""
    ensures Split("/" + a + "/" + b, '/') == ["", a, b]
    ensures Segments("/" + a + "/" + b) == [a, b]
  {
    assert "/" + a + "/" + b == [] + ['/'] + (a + ['/'] + b);
    SplitAround(a, '/', b);
    SplitNoSeparator(a, '/');
    SplitNoSeparator(b, '/');
    SplitAround([], '/', a + ['/'] + b);
    assert Split([], '/') == [""];
    assert NonEmpty(["", a, b]) == NonEmpty([a, b]);
  }

  lemma HomeSplit()
    ensures Split(Home, '/') == ["", "home", "user"]
    ensures Segments(Home) == ["home", "user"]
  {
    TwoLevelSplit("home", "user");
    assert Home == "/" + "home" + "/" + "user";
  }

  /** The session starts in `/home/user`, which is a directory of the initial tree. */
  lemma InitialHome()
    ensures DirectoryContents(InitialTree(), Home) == Some(UserHome().entries)
  {
    HomeSplit();
    RootHome(UserHome(), Passwd);
  }

  lemma RootHome(user: Node, passwd: string)
    requires user.Dir?
    ensures Walk(RootTree(user, passwd), ["home", "user"]) == Some(user)
  {
    var rest := [Entry("etc", Dir([Entry("passwd", File(passwd))])), Entry("usr", Dir([Entry("bin", Dir([]))]))];
    WalkFirstFirst("home", "user", user, rest);
    assert RootTree(user, passwd) == Dir([Entry("home", Dir([Entry("user", user)]))] + rest);
  }

  lemma WalkFirstFirst(a: string, b: string, n: Node, rest: seq<Entry>)
    ensures Walk(Dir([Entry(a, Dir([Entry(b, n)]))] + rest), [a, b]) == Some(n)
  {
    var inner := Dir([Entry(b, n)]);
    assert Lookup([Entry(a, inner)] + rest, a) == Some(inner);
    assert [a, b][0] == a && [a, b][1..] == [b];
    assert Lookup(inner.entries, b) == Some(n);
    assert Walk(inner, [b]) == Walk(n, []);
  }

  // ---------------------------------------------------------------- ls

  /** The entries `ls` shows: all of them with `-a`/`-la`, otherwise those not starting with `.`. */
  function Visible(es: seq<Entry>, showHidden: bool): seq<Entry>
  {
    if es == [] then []
    else (if showHidden || !StartsWith(es[0].name, ".") then [es[0]] else []) + Visible(es[1..], showHidden)
  }

  /** `ls` keeps exactly the entries it should and hides exactly the dot-names. */
  lemma {:induction false} VisibleMembers(es: seq<Entry>, showHidden: bool)
    ensures forall e :: e in Visible(es, showHidden) <==> e in es && (showHidden || !StartsWith(e.name, "."))
  {
    if es != [] {
      VisibleMembers(es[1..], showHidden);
      assert es == [es[0]] + es[1..];
    }
  }

  lemma {:induction false} VisibleAll(es: seq<Entry>)
    ensures Visible(es, true) == es
  {
    if es != [] {
      VisibleAll(es[1..]);
    }
  }

  lemma {:induction false} VisibleAppend(es: seq<Entry>, e: Entry, showHidden: bool)
    ensures Visible(es + [e], showHidden) == Visible(es, showHidden) + Visible([e], showHidden)
  {
    if es != [] {
      assert (es + [e])[1..] == es[1..] + [e];
      VisibleAppend(es[1..], e, showHidden);
    } else {
      assert es + [e] == [e];
    }
  }

  /** One `ls` line: `name/` or `name`, or with `-l` a mode, size and date column. */
  function EntryLine(e: Entry, long: bool, today: string): string
  {
    if long then
      if e.node.Dir? then "drwxr-xr-x 2 user user " + PadStart(NatToString(4096), 8, ' ') + " " + today + " " + Span("directory", e.name)
      else "-rw-r--r-- 1 user user " + PadStart(NatToString(Utf16Length(e.node.content)), 8, ' ') + " " + today + " " + Span("file", e.name)
    else if e.node.Dir? then Span("directory", e.name + "/")
    else Span("file", e.name)
  }

  function EntryLines(es: seq<Entry>, long: bool, today: string): (r: seq<Line>)
    ensures |r| == |es|
    ensures forall i :: 0 <= i < |es| ==> r[i] == Text(EntryLine(es[i], long, today))
  {
    if es == [] then [] else [Text(EntryLine(es[0], long, today))] + EntryLines(es[1..], long, today)
  }

  /** Listing one more entry adds its line exactly when the entry is shown. */
  lemma ShowEntry(es: seq<Entry>, e: Entry, showHidden: bool, long: bool, today: string)
    ensures EntryLines(Visible(es + [e], showHidden), long, today) ==
            EntryLines(Visible(es, showHidden), long, today) +
            (if showHidden || !StartsWith(e.name, ".") then [Text(EntryLine(e, long, today))] else [])
  {
    VisibleAppend(es, e, showHidden);
    var a := Visible(es, showHidden);
    var b := Visible([e], showHidden);
    assert b == if showHidden || !StartsWith(e.name, ".") then [e] else [];
    var lhs := EntryLines(a + b, long, today);
    var rhs := EntryLines(a, long, today) + EntryLines(b, long, today);
    assert |lhs| == |rhs|;
    forall i | 0 <= i < |lhs| ensures lhs[i] == rhs[i] {
      if i >= |a| {
        assert (a + b)[i] == b[i - |a|];
      }
    }
  }

  /** `ls` of a directory: with `-l` a `total` line counting every entry, hidden ones too. */
  function Listing(es: seq<Entry>, showHidden: bool, long: bool, today: string): seq<Line>
  {
    (if long then [Text("total " + NatToString(|es|))] else []) + EntryLines(Visible(es, showHidden), long, today)
  }

  /** `ls`: the first word is the path, looked up as given (not resolved against the current directory). */
  function LsPath(cwd: string, args: seq<string>): string
  {
    ArgOr(args, 0, cwd)
  }

  function Ls(root: Node, cwd: string, args: seq<string>, today: string): (r: seq<Line>)
    ensures DirectoryContents(root, LsPath(cwd, args)).None? ==>
              r == [Error("ls: cannot access '" + LsPath(cwd, args) + "': No such file or directory")]
  {
    var path := LsPath(cwd, args);
    match DirectoryContents(root, path)
    case None => [Error("ls: cannot access '" + path + "': No such file or directory")]
    case Some(es) => Listing(es, "-a" in args || "-la" in args, "-l" in args || "-la" in args, today)
  }

  /** `ls -la` takes `-la` for the path: in the initial tree there is no such entry. */
  lemma LsFlagIsPath(today: string)
    ensures Ls(InitialTree(), Home, ["-la"], today) == [Error("ls: cannot access '" + "-la" + "': No such file or directory")]
  {
    NoTopLevelFlag();
    assert LsPath(Home, ["-la"]) == "-la";
  }

  lemma NoTopLevelFlag()
    ensures DirectoryContents(InitialTree(), "-la") == None
  {
    PlainSegments("-la");
    RootNames(UserHome(), Passwd, "-la");
  }

  /** A single segment other than `home`, `etc` and `usr` names nothing at the root. */
  lemma RootNames(user: Node, passwd: string, name: string)
    requires name != "home" && name != "etc" && name != "usr"
    ensures Walk(RootTree(user, passwd), [name]) == None
  {
    assert Lookup(RootTree(user, passwd).entries, name) == None;
  }

  /** A relative name without `/` is a single segment. */
  lemma PlainSegments(s: string)
    requires '/' !in s && s != ""
    ensures Segments(s) == [s]
  {
    SplitNoSeparator(s, '/');
  }

  // ---------------------------------------------------------------- cd and prompt

  /**
   * The prompt `updatePrompt` builds: the whole path while it has at most
   * three `/`-pieces, otherwise `.../` and the last two pieces.
   */
  function ShortPath(cwd: string): string
  {
    var parts := Split(cwd, '/');
    if |parts| > 3 then ".../" + Join(parts[|parts| - 2..], "/") else cwd
  }

  function PromptFor(cwd: string): string
  {
    "user@darksession:" + ShortPath(cwd) + "$ "
  }

  /** The shortened prompt path is `.../` and then the tail of the real path after one of its slashes. */
  lemma ShortPathSuffix(cwd: string)
    ensures ShortPath(cwd) == cwd ||
            (StartsWith(ShortPath(cwd), ".../") && exists k :: 0 <= k < |cwd| && cwd[k] == '/' && cwd[k + 1..] == ShortPath(cwd)[4..])
  {
    var parts := Split(cwd, '/');
    if |parts| > 3 {
      var n := |parts| - 2;
      JoinSplit(cwd, '/');
      JoinAt(parts, n, '/');
      var head := Join(parts[..n], "/");
      var tail := Join(parts[n..], "/");
      assert cwd == head + "/" + tail;
      assert cwd[|head|] == '/' && cwd[|head| + 1..] == tail;
      assert ShortPath(cwd)[4..] == tail;
    }
  }

  /** Joining splits at any piece boundary. */
  lemma {:induction false} JoinAt(parts: seq<string>, n: nat, c: char)
    requires 0 < n < |parts|
    ensures Join(parts, [c]) == Join(parts[..n], [c]) + [c] + Join(parts[n..], [c])
  {
    if n > 1 {
      JoinAt(parts[1..], n - 1, c);
      assert parts[1..][..n - 1] == parts[1..n];
      assert parts[1..][n - 1..] == parts[n..];
      assert parts[..n][1..] == parts[1..n];
    }
  }

  /**
   * Back at home after a `cd`, the prompt spells out `/home/user`: it is not
   * the `~` prompt the session starts with.
   */
  lemma PromptAtHome()
    ensures PromptFor(Home) == "user@darksession:" + Home + "$ "
    ensures PromptFor(Home) != "user@darksession:~$ "
  {
    ShortHome();
    var p := PromptFor(Home);
    assert p == "user@darksession:" + Home + "$ ";
    assert p[17] == Home[0];
  }

  lemma ShortHome()
    ensures ShortPath(Home) == Home
  {
    HomeSplit();
  }

  /** `changeDirectory` on `args[0] || '/home/user'`: the new directory, or the error line. */
  function CdTarget(args: seq<string>): string
  {
    ArgOr(args, 0, Home)
  }

  // ---------------------------------------------------------------- cat

  function Cat(root: Node, cwd: string, filename: string): Line
  {
    if filename == "" then Error("cat: missing file operand")
    else
      match GetFile(root, ResolvePath(filename, cwd))
      case None => Error("cat: " + filename + ": No such file or directory")
      case Some(Dir(_)) => Error("cat: " + filename + ": Is a directory")
      case Some(File(c)) => Text(c)
  }

  /**
   * `cat` looks the file up through its parent directory, which finds exactly
   * the node the resolved path walks to: a file's content is printed, a
   * directory or a missing path gives its error line.
   */
  lemma CatPrintsFile(root: Node, cwd: string, filename: string)
    requires filename != "" && FileName(ResolvePath(filename, cwd)) != ""
    ensures match Walk(root, Segments(ResolvePath(filename, cwd)))
            case Some(File(c)) => Cat(root, cwd, filename) == Text(c)
            case Some(Dir(_)) => Cat(root, cwd, filename) == Error("cat: " + filename + ": Is a directory")
            case None => Cat(root, cwd, filename) == Error("cat: " + filename + ": No such file or directory")
  {
    GetFileWalks(root, ResolvePath(filename, cwd));
  }

  // ---------------------------------------------------------------- mkdir, touch, rm

  /** A change to the tree together with the one line it prints. */
  datatype Change = Change(fs: Node, line: Line)

  /** `makeDirectory`. */
  function Mkdir(root: Node, cwd: string, dirname: string): (r: Change)
    ensures r.fs == root || r.fs.Dir?
  {
    if dirname == "" then Change(root, Error("mkdir: missing operand"))
    else
      var p := ResolvePath(dirname, cwd);
      match DirectoryContents(root, ParentPath(p))
      case None => Change(root, Error("mkdir: cannot create directory '" + dirname + "': No such file or directory"))
      case Some(es) =>
        if FileName(p) in Names(es) then Change(root, Error("mkdir: cannot create directory '" + dirname + "': File exists"))
        else Change(SetDir(root, Segments(ParentPath(p)), Put(es, FileName(p), Dir([]))),
                    Success("Directory '" + dirname + "' created"))
  }

  /** The segments of the entry a command operand names: its parent's, then its file name. */
  function TargetSegments(cwd: string, arg: string): seq<string>
  {
    Segments(ParentPath(ResolvePath(arg, cwd))) + [FileName(ResolvePath(arg, cwd))]
  }

  /** `mkdir` creates a directory exactly when the operand is given, its parent exists and the name is free. */
  predicate MkdirCreates(root: Node, cwd: string, dirname: string)
  {
    var p := ResolvePath(dirname, cwd);
    dirname != "" && DirectoryContents(root, ParentPath(p)).Some? &&
    FileName(p) !in Names(DirectoryContents(root, ParentPath(p)).value)
  }

  /**
   * `mkdir` either leaves the tree as it was or adds one empty directory at
   * the operand's place: that path now names a directory, nothing below it
   * exists, and every other path names what it named before.
   */
  lemma MkdirEffect(root: Node, cwd: string, dirname: string, q: seq<string>)
    ensures !MkdirCreates(root, cwd, dirname) ==> Mkdir(root, cwd, dirname).fs == root
    ensures MkdirCreates(root, cwd, dirname) ==>
              var t := TargetSegments(cwd, dirname);
              KindAt(Mkdir(root, cwd, dirname).fs, q) ==
                if t <= q then (if |q| == |t| then Some(DirKind) else None) else KindAt(root, q)
  {
    if MkdirCreates(root, cwd, dirname) {
      var p := ResolvePath(dirname, cwd);
      var parent := Segments(ParentPath(p));
      var es := DirectoryContents(root, ParentPath(p)).value;
      PutEntryKinds(root, parent, es, FileName(p), Dir([]), q);
      if parent + [FileName(p)] <= q && |q| > |parent| + 1 {
        assert q[|parent| + 1..] != [];
      }
    }
  }

  /** `touchFile`. */
  function Touch(root: Node, cwd: string, filename: string): (r: Change)
    ensures r.fs == root || r.fs.Dir?
  {
    if filename == "" then Change(root, Error("touch: missing file operand"))
    else
      var p := ResolvePath(filename, cwd);
      match DirectoryContents(root, ParentPath(p))
      case None => Change(root, Error("touch: cannot touch '" + filename + "': No such file or directory"))
      case Some(es) =>
        if FileName(p) !in Names(es) then
          Change(SetDir(root, Segments(ParentPath(p)), Put(es, FileName(p), File(""))), Success("File '" + filename + "' created"))
        else Change(root, Success("File '" + filename + "' touched"))
  }

  predicate TouchCreates(root: Node, cwd: string, filename: string)
  {
    var p := ResolvePath(filename, cwd);
    filename != "" && DirectoryContents(root, ParentPath(p)).Some? &&
    FileName(p) !in Names(DirectoryContents(root, ParentPath(p)).value)
  }

  /**
   * `touch` creates an empty file only where nothing exists yet; an existing
   * file or directory is left as it is, so touching twice equals touching once.
   */
  lemma TouchEffect(root: Node, cwd: string, filename: string, q: seq<string>)
    ensures !TouchCreates(root, cwd, filename) ==> Touch(root, cwd, filename).fs == root
    ensures TouchCreates(root, cwd, filename) ==>
              var t := TargetSegments(cwd, filename);
              KindAt(Touch(root, cwd, filename).fs, q) ==
                if t <= q then (if |q| == |t| then Some(FileKind("")) else None) else KindAt(root, q)
  {
    if TouchCreates(root, cwd, filename) {
      var p := ResolvePath(filename, cwd);
      var parent := Segments(ParentPath(p));
      var es := DirectoryContents(root, ParentPath(p)).value;
      PutEntryKinds(root, parent, es, FileName(p), File(""), q);
      if parent + [FileName(p)] <= q && |q| > |parent| + 1 {
        assert q[|parent| + 1..] != [];
      }
    }
  }

  lemma TouchTwice(root: Node, cwd: string, filename: string)
    ensures Touch(Touch(root, cwd, filename).fs, cwd, filename).fs == Touch(root, cwd, filename).fs
  {
    if TouchCreates(root, cwd, filename) {
      var p := ResolvePath(filename, cwd);
      var parent := Segments(ParentPath(p));
      var es := DirectoryContents(root, ParentPath(p)).value;
      var after := Touch(root, cwd, filename).fs;
      assert Walk(after, parent) == Some(Dir(Put(es, FileName(p), File(""))));
      assert FileName(p) in Names(Put(es, FileName(p), File("")));
    }
  }

  /** `removeFile`: the last word is the target; `-r`/`-rf` allow directories, `-f`/`-rf` silence a missing target. */
  function Rm(root: Node, cwd: string, args: seq<string>): (r: Option<Change>)
    ensures r.None? ==> |args| > 0 && ("-f" in args || "-rf" in args)
    ensures r.Some? ==> r.value.fs == root || r.value.fs.Dir?
  {
    if |args| == 0 then Some(Change(root, Error("rm: missing operand")))
    else
      var filename := args[|args| - 1];
      var recursive := "-r" in args || "-rf" in args;
      var force := "-f" in args || "-rf" in args;
      var p := ResolvePath(filename, cwd);
      match DirectoryContents(root, ParentPath(p))
      case None => if force then None else Some(Change(root, Error("rm: cannot remove '" + filename + "': No such file or directory")))
      case Some(es) =>
        match Lookup(es, FileName(p))
        case None => if force then None else Some(Change(root, Error("rm: cannot remove '" + filename + "': No such file or directory")))
        case Some(item) =>
          if item.Dir? && !recursive then Some(Change(root, Error("rm: cannot remove '" + filename + "': Is a directory")))
          else Some(Change(SetDir(root, Segments(ParentPath(p)), Delete(es, FileName(p))), Success("Removed '" + filename + "'")))
  }

  /** The tree after `rm`, whether or not it printed anything. */
  function RmTree(root: Node, cwd: string, args: seq<string>): Node
  {
    match Rm(root, cwd, args)
    case None => root
    case Some(c) => c.fs
  }

  predicate RmRemoves(root: Node, cwd: string, args: seq<string>)
  {
    |args| > 0 &&
    var p := ResolvePath(args[|args| - 1], cwd);
    DirectoryContents(root, ParentPath(p)).Some? &&
    var item := Lookup(DirectoryContents(root, ParentPath(p)).value, FileName(p));
    item.Some? && (item.value.File? || "-r" in args || "-rf" in args)
  }

  /** When `rm` refuses (missing operand or target, directory without `-r`) the tree is unchanged. */
  lemma RmKeeps(root: Node, cwd: string, args: seq<string>)
    requires !RmRemoves(root, cwd, args)
    ensures RmTree(root, cwd, args) == root
  {
  }

  /**
   * `rm` removes the target with everything below it, so that no path through
   * it names anything, and changes no other path.
   */
  lemma RmEffect(root: Node, cwd: string, args: seq<string>, q: seq<string>)
    requires RmRemoves(root, cwd, args)
    ensures KindAt(RmTree(root, cwd, args), q) ==
            if TargetSegments(cwd, args[|args| - 1]) <= q then None else KindAt(root, q)
  {
    var p := ResolvePath(args[|args| - 1], cwd);
    var es := DirectoryContents(root, ParentPath(p)).value;
    RmRemovedTree(root, cwd, args);
    DeleteEntryKinds(root, Segments(ParentPath(p)), es, FileName(p), q);
  }

  lemma RmRemovedTree(root: Node, cwd: string, args: seq<string>)
    requires RmRemoves(root, cwd, args)
    ensures var p := ResolvePath(args[|args| - 1], cwd);
            RmTree(root, cwd, args) ==
            SetDir(root, Segments(ParentPath(p)), Delete(DirectoryContents(root, ParentPath(p)).value, FileName(p)))
  {
  }

  /**
   * Nothing stops `rm -r` from removing a directory that contains the current
   * one: afterwards the current directory no longer exists.
   */
  lemma RmAncestorOfCwd(root: Node, cwd: string, args: seq<string>)
    requires RmRemoves(root, cwd, args) && TargetSegments(cwd, args[|args| - 1]) <= Segments(cwd)
    ensures DirectoryContents(RmTree(root, cwd, args), cwd) == None
  {
    RmEffect(root, cwd, args, Segments(cwd));
  }

  /** Every change a command makes keeps names distinct and free of `/`. */
  lemma MkdirWellFormed(root: Node, cwd: string, dirname: string)
    requires WellFormed(root)
    ensures WellFormed(Mkdir(root, cwd, dirname).fs)
  {
    var p := ResolvePath(dirname, cwd);
    if MkdirCreates(root, cwd, dirname) {
      var es := DirectoryContents(root, ParentPath(p)).value;
      assert Mkdir(root, cwd, dirname).fs == SetDir(root, Segments(ParentPath(p)), Put(es, FileName(p), Dir([])));
      PutAtWellFormed(root, Segments(ParentPath(p)), es, FileName(p), Dir([]));
    }
  }

  lemma TouchWellFormed(root: Node, cwd: string, filename: string)
    requires WellFormed(root)
    ensures WellFormed(Touch(root, cwd, filename).fs)
  {
    var p := ResolvePath(filename, cwd);
    if TouchCreates(root, cwd, filename) {
      var es := DirectoryContents(root, ParentPath(p)).value;
      assert Touch(root, cwd, filename).fs == SetDir(root, Segments(ParentPath(p)), Put(es, FileName(p), File("")));
      PutAtWellFormed(root, Segments(ParentPath(p)), es, FileName(p), File(""));
    }
  }

  lemma RmWellFormed(root: Node, cwd: string, args: seq<string>)
    requires WellFormed(root)
    ensures WellFormed(RmTree(root, cwd, args))
  {
    if RmRemoves(root, cwd, args) {
      var p := ResolvePath(args[|args| - 1], cwd);
      var es := DirectoryContents(root, ParentPath(p)).value;
      RmRemovedTree(root, cwd, args);
      WalkWellFormed(root, Segments(ParentPath(p)));
      DeleteWellFormed(es, FileName(p));
      SetDirWellFormed(root, Segments(ParentPath(p)), Delete(es, FileName(p)));
    } else {
      RmKeeps(root, cwd, args);
    }
  }

  // ---------------------------------------------------------------- echo, uname, history

  /** `uname`: the long string with `-a`, otherwise just the kernel name. */
  function Uname(args: seq<string>): string
  {
    if "-a" in args then "Linux darksession 5.15.0 #1 SMP x86_64 GNU/Linux" else "Linux"
  }

  /** The words of a command line: `command.split(' ')`. */
  function Words(command: string): (r: seq<string>)
    ensures |r| >= 1
  {
    Split(command, ' ')
  }

  /** `echo` prints the rest of the line after `echo `, spaces included, exactly as typed. */
  lemma EchoKeepsText(rest: string)
    ensures Words("echo " + rest)[0] == "echo"
    ensures Join(Words("echo " + rest)[1..], " ") == rest
  {
    assert "echo " + rest == "echo" + [' '] + rest;
    SplitAround("echo", ' ', rest);
    SplitNoSeparator("echo", ' ');
    JoinSplit(rest, ' ');
  }

  /** One `history` line: the 1-based number right-aligned in four columns, a space, the command. */
  function HistoryLine(i: nat, command: string): string
  {
    PadStart(NatToString(i + 1), 4, ' ') + " " + command
  }

  function HistoryLines(h: seq<string>): (r: seq<Line>)
    ensures |r| == |h|
  {
    seq(|h|, i requires 0 <= i < |h| => Text(HistoryLine(i, h[i])))
  }

  /** Each `history` line ends with its command, and the number in front of it reads back as its 1-based position. */
  lemma HistoryNumbering(i: nat, command: string)
    ensures var l := HistoryLine(i, command);
            var n := |l| - |command| - 1;
            0 <= n && l[n + 1..] == command && l[n] == ' ' &&
            TrimStart(l[..n]) == NatToString(i + 1) && DigitsValue(NatToString(i + 1)) == i + 1
  {
    var digits := NatToString(i + 1);
    DigitNotSpace(digits[0]);
    TrimPadded(digits, 4);
    NatToStringValue(i + 1);
    SpaceJoined(PadStart(digits, 4, ' '), command);
  }

  lemma DigitNotSpace(c: char)
    requires '0' <= c <= '9'
    ensures !IsSpace(c)
  {
  }

  lemma SpaceJoined(a: string, b: string)
    ensures var l := a + " " + b;
            l[..|a|] == a && l[|a|] == ' ' && l[|a| + 1..] == b && |a| == |l| - |b| - 1
  {
  }

  lemma TrimPadded(s: string, n: nat)
    requires s != [] && !IsSpace(s[0])
    ensures TrimStart(PadStart(s, n, ' ')) == s
  {
    if |s| < n {
      TrimSpaces(n - |s|, s);
    }
  }

  lemma {:induction false} TrimSpaces(k: nat, s: string)
    requires s != [] && !IsSpace(s[0])
    ensures TrimStart(seq(k, _ => ' ') + s) == s
  {
    if k > 0 {
      assert (seq(k, _ => ' ') + s)[1..] == seq(k - 1, _ => ' ') + s;
      TrimSpaces(k - 1, s);
    } else {
      assert seq(k, _ => ' ') + s == s;
    }
  }

  // ---------------------------------------------------------------- grep

  /** `lines.filter(line => line.includes(pattern))` */
  function Matching(lines: seq<string>, pattern: string): (r: seq<string>)
    ensures |r| <= |lines|
  {
    if lines == [] then [] else Kept(lines[0], pattern) + Matching(lines[1..], pattern)
  }

  /** What the filter keeps of one line: the line itself when it contains the pattern. */
  function Kept(line: string, pattern: string): seq<string>
  {
    if Contains(line, pattern) then [line] else []
  }

  /** `grep` keeps exactly the lines containing the pattern. */
  lemma {:induction false} MatchingMembers(lines: seq<string>, pattern: string)
    ensures forall l :: l in Matching(lines, pattern) <==> l in lines && Contains(l, pattern)
  {
    if lines != [] {
      MatchingMembers(lines[1..], pattern);
      assert lines == [lines[0]] + lines[1..];
    }
  }

  lemma {:induction false} MatchingAppend(lines: seq<string>, line: string, pattern: string)
    ensures Matching(lines + [line], pattern) == Matching(lines, pattern) + Matching([line], pattern)
  {
    if lines != [] {
      assert (lines + [line])[1..] == lines[1..] + [line];
      MatchingAppend(lines[1..], line, pattern);
    } else {
      assert lines + [line] == [line];
    }
  }

  function Highlights(matches: seq<string>, pattern: string): (r: seq<Line>)
    ensures |r| == |matches|
  {
    seq(|matches|, i requires 0 <= i < |matches| => Highlighted(matches[i], pattern))
  }

  /** `grep pattern file`: no output at all when nothing matches. */
  function Grep(root: Node, cwd: string, args: seq<string>): seq<Line>
  {
    if |args| < 2 then [Error("grep: missing pattern or file")]
    else
      match GetFile(root, ResolvePath(args[1], cwd))
      case Some(File(c)) => Highlights(Matching(Split(c, '\n'), args[0]), args[0])
      case _ => [Error("grep: " + args[1] + ": No such file or directory")]
  }

  /** Three lines without line breaks, joined by line breaks, split back into those three. */
  lemma ThreeLines(a: string, b: string, c: string)
    requires '\n' !in a && '\n' !in b && '\n' !in c
    ensures Split(a + "\n" + b + "\n" + c, '\n') == [a, b, c]
  {
    assert a + "\n" + b + "\n" + c == a + ['\n'] + (b + ['\n'] + c);
    SplitAround(a, '\n', b + ['\n'] + c);
    SplitAround(b, '\n', c);
    SplitNoSeparator(a, '\n');
    SplitNoSeparator(b, '\n');
    SplitNoSeparator(c, '\n');
  }

  /** A pattern longer than the line never occurs in it. */
  lemma {:induction false} TooLongForLine(s: string, p: string)
    requires |p| > |s|
    ensures !Contains(s, p)
    decreases |s|
  {
    if |s| > 0 {
      TooLongForLine(s[1..], p);
    }
  }

  lemma MatchingCons(line: string, rest: seq<string>, p: string)
    ensures Matching([line] + rest, p) == Kept(line, p) + Matching(rest, p)
  {
    assert ([line] + rest)[0] == line && ([line] + rest)[1..] == rest;
  }

  lemma MatchingThree(a: string, b: string, c: string, p: string)
    ensures Matching([a, b, c], p) == Kept(a, p) + Kept(b, p) + Kept(c, p)
  {
    assert Matching([c], p) == Kept(c, p) by {
      MatchingCons(c, [], p);
      assert [c] == [c] + [];
    }
    assert Matching([b, c], p) == Kept(b, p) + Kept(c, p) by {
      MatchingCons(b, [c], p);
      assert [b, c] == [b] + [c];
    }
    assert Matching([a, b, c], p) == Kept(a, p) + (Kept(b, p) + Kept(c, p)) by {
      MatchingCons(a, [b, c], p);
      assert [a, b, c] == [a] + [b, c];
    }
  }

  /** Of three lines, `grep` keeps exactly those containing the pattern, in order. */
  lemma GrepThree(a: string, b: string, c: string, p: string)
    requires '\n' !in a && '\n' !in b && '\n' !in c
    ensures Matching(Split(a + "\n" + b + "\n" + c, '\n'), p) == Kept(a, p) + Kept(b, p) + Kept(c, p)
  {
    ThreeLines(a, b, c);
    MatchingThree(a, b, c, p);
  }

  /** A pattern starting with a letter the line does not have never occurs in it. */
  lemma NoLetter(s: string, c: char, p: string)
    requires c !in s && p != [] && p[0] == c
    ensures !Contains(s, p)
  {
    if Contains(s, p) {
      var i := ContainsWitness(s, p);
    }
  }

  // ---------------------------------------------------------------- find

  /** The path `findInDirectory` gives an entry: `${path}/${name}` with runs of `/` collapsed. */
  function ChildPath(path: string, name: string): string
  {
    CollapseSlashes(path + "/" + name)
  }

  /**
   * `findInDirectory` in pre-order, descending into each subdirectory through
   * the entry itself: an entry whose name contains the pattern, then what is
   * found below it, then the later entries.
   */
  function FindIn(es: seq<Entry>, path: string, pattern: string): seq<string>
    decreases es
  {
    if es == [] then []
    else
      var full := ChildPath(path, es[0].name);
      (if Contains(es[0].name, pattern) then [full] else []) +
      (match es[0].node case Dir(children) => FindIn(children, full, pattern) case File(_) => []) +
      FindIn(es[1..], path, pattern)
  }

  /** The search from entry `i` on: that entry and what lies below it, then the rest. */
  lemma FindInStep(es: seq<Entry>, i: nat, path: string, pattern: string)
    requires i < |es|
    ensures var full := ChildPath(path, es[i].name);
            FindIn(es[i..], path, pattern) ==
            (if Contains(es[i].name, pattern) then [full] else []) +
            (match es[i].node case Dir(children) => FindIn(children, full, pattern) case File(_) => []) +
            FindIn(es[i + 1..], path, pattern)
  {
    var rest := es[i..];
    assert rest[0] == es[i] && rest[1..] == es[i + 1..];
  }

  /** Every name in the subtree is non-empty and free of `/`. */
  predicate Named(es: seq<Entry>)
    decreases es
  {
    forall i :: 0 <= i < |es| ==> es[i].name != "" && '/' !in es[i].name && (es[i].node.Dir? ==> Named(es[i].node.entries))
  }

  /** Every entry of `es` is reached from the root through `path`. */
  predicate Listed(root: Node, path: string, es: seq<Entry>)
  {
    forall i :: 0 <= i < |es| ==> Walk(root, Segments(path) + [es[i].name]) == Some(es[i].node)
  }

  /** The segments of a child's path are the parent's and then the child's name. */
  lemma ChildSegments(path: string, name: string)
    requires '/' !in name && name != ""
    ensures Segments(ChildPath(path, name)) == Segments(path) + [name]
  {
    SegmentsCollapse(path + "/" + name);
    SplitAround(path, '/', name);
    SplitNoSeparator(name, '/');
    NonEmptyAppend(Split(path, '/'), [name]);
  }

  /** The entries of a directory are listed from its path. */
  lemma DirectoryListed(root: Node, path: string)
    requires WellFormed(root) && DirectoryContents(root, path).Some?
    ensures Listed(root, path, DirectoryContents(root, path).value)
  {
    var es := DirectoryContents(root, path).value;
    WalkWellFormed(root, Segments(path));
    forall i | 0 <= i < |es| ensures Walk(root, Segments(path) + [es[i].name]) == Some(es[i].node) {
      WalkAppend(root, Segments(path), [es[i].name]);
      LookupAt(es, i);
    }
  }

  /**
   * Every path `find` reports exists in the tree, and its last segment
   * contains the pattern.
   */
  lemma {:induction false} FindInSound(root: Node, path: string, es: seq<Entry>, pattern: string)
    requires WellFormed(root) && Listed(root, path, es) && Named(es)
    ensures forall r :: r in FindIn(es, path, pattern) ==>
              var segs := Segments(r); Walk(root, segs).Some? && |segs| > 0 && Contains(segs[|segs| - 1], pattern)
    decreases es
  {
    if es != [] {
      var e := es[0];
      var full := ChildPath(path, e.name);
      ChildSegments(path, e.name);
      assert Walk(root, Segments(full)) == Some(e.node);
      if e.node.Dir? {
        ChildrenListed(root, full, e.node.entries);
        FindInSound(root, full, e.node.entries, pattern);
      }
      ListedTail(root, path, es);
      FindInSound(root, path, es[1..], pattern);
    }
  }

  lemma ChildrenListed(root: Node, path: string, es: seq<Entry>)
    requires WellFormed(root) && Walk(root, Segments(path)) == Some(Dir(es))
    ensures Listed(root, path, es)
  {
    assert DirectoryContents(root, path) == Some(es);
    DirectoryListed(root, path);
  }

  /**
   * `findInDirectory` as written: it descends by looking the child's path up
   * from the root again. `fuel` bounds the depth of the recursion; running
   * out of it stands for a recursion that never ends.
   */
  function FindByPath(root: Node, path: string, pattern: string, fuel: nat): Option<seq<string>>
    decreases fuel, 0
  {
    if fuel == 0 then None
    else
      match DirectoryContents(root, path)
      case None => Some([])
      case Some(es) => FindAll(root, path, es, pattern, fuel - 1)
  }

  function FindAll(root: Node, path: string, es: seq<Entry>, pattern: string, fuel: nat): Option<seq<string>>
    decreases fuel, |es| + 1
  {
    if es == [] then Some([])
    else
      var full := ChildPath(path, es[0].name);
      var here := if Contains(es[0].name, pattern) then [full] else [];
      var below := if es[0].node.Dir? then FindByPath(root, full, pattern, fuel) else Some([]);
      var rest := FindAll(root, path, es[1..], pattern, fuel);
      if below.None? || rest.None? then None else Some(here + below.value + rest.value)
  }

  /**
   * A directory holding a subdirectory with the empty name (what `mkdir ./`
   * creates) makes the search as written never end: the child's path
   * collapses back to the directory's own path, so the same listing is
   * searched again, whatever the depth allowed.
   */
  lemma {:induction false} FindByPathDiverges(root: Node, path: string, es: seq<Entry>, pattern: string, fuel: nat)
    requires DirectoryContents(root, path) == Some(es)
    requires Lookup(es, "").Some? && Lookup(es, "").value.Dir?
    ensures FindByPath(root, path, pattern, fuel) == None
    decreases fuel, 0
  {
    if fuel > 0 {
      ChildDiverges(root, path, es, pattern, fuel - 1);
      StuckBelow(root, path, es, pattern, fuel);
    }
  }

  /** Once the search from the empty-named child fails, so does the search of the directory itself. */
  lemma StuckBelow(root: Node, path: string, es: seq<Entry>, pattern: string, fuel: nat)
    requires fuel > 0 && DirectoryContents(root, path) == Some(es)
    requires Lookup(es, "").Some? && Lookup(es, "").value.Dir?
    requires FindByPath(root, ChildPath(path, ""), pattern, fuel - 1) == None
    ensures FindByPath(root, path, pattern, fuel) == None
  {
    FindAllStuck(root, path, es, pattern, fuel - 1);
  }

  /** The search from the empty-named child, whose path is the directory's own, runs out of depth as well. */
  lemma {:induction false} ChildDiverges(root: Node, path: string, es: seq<Entry>, pattern: string, fuel: nat)
    requires DirectoryContents(root, path) == Some(es)
    requires Lookup(es, "").Some? && Lookup(es, "").value.Dir?
    ensures FindByPath(root, ChildPath(path, ""), pattern, fuel) == None
    decreases fuel, 1
  {
    SameDirectoryBelowEmpty(root, path);
    FindByPathDiverges(root, ChildPath(path, ""), es, pattern, fuel);
  }

  lemma SameDirectoryBelowEmpty(root: Node, path: string)
    ensures DirectoryContents(root, ChildPath(path, "")) == DirectoryContents(root, path)
  {
    assert path + "/" + "" == path + ['/'] + [];
    SegmentsCollapse(path + "/" + "");
    SplitAround(path, '/', []);
    assert Split([], '/') == [""];
    NonEmptyAppend(Split(path, '/'), [""]);
    assert NonEmpty([""]) == [];
    assert Segments(ChildPath(path, "")) == Segments(path);
  }

  lemma {:induction false} FindAllStuck(root: Node, path: string, es: seq<Entry>, pattern: string, fuel: nat)
    requires Lookup(es, "").Some? && Lookup(es, "").value.Dir?
    requires FindByPath(root, ChildPath(path, ""), pattern, fuel) == None
    ensures FindAll(root, path, es, pattern, fuel) == None
  {
    if es[0].name != "" {
      FindAllStuck(root, path, es[1..], pattern, fuel);
    }
  }

  /** How deep directories nest below `es`. */
  function Height(es: seq<Entry>): nat
    decreases es
  {
    if es == [] then 0
    else
      var here := match es[0].node case Dir(children) => 1 + Height(children) case File(_) => 0;
      var rest := Height(es[1..]);
      if here < rest then rest else here
  }

  /**
   * Where no name is empty, the search as written, given more depth than the
   * tree has, finds exactly what `FindIn` finds.
   */
  lemma {:induction false} FindAllAgrees(root: Node, path: string, es: seq<Entry>, pattern: string, fuel: nat)
    requires WellFormed(root) && Listed(root, path, es) && Named(es) && fuel > Height(es)
    ensures FindAll(root, path, es, pattern, fuel) == Some(FindIn(es, path, pattern))
    decreases es
  {
    if es != [] {
      assert es[0] in es;
      EntryAgrees(root, path, es[0], pattern, fuel);
      ListedTail(root, path, es);
      FindAllAgrees(root, path, es[1..], pattern, fuel);
    }
  }

  /** What the search as written finds below one entry is what `FindIn` finds there. */
  lemma {:induction false} EntryAgrees(root: Node, path: string, e: Entry, pattern: string, fuel: nat)
    requires WellFormed(root) && e.name != "" && '/' !in e.name && Walk(root, Segments(path) + [e.name]) == Some(e.node)
    requires e.node.Dir? ==> Named(e.node.entries) && fuel > 1 + Height(e.node.entries)
    ensures var full := ChildPath(path, e.name);
            (if e.node.Dir? then FindByPath(root, full, pattern, fuel) else Some([])) ==
            Some(match e.node case Dir(children) => FindIn(children, full, pattern) case File(_) => [])
    decreases e
  {
    if e.node.Dir? {
      ChildFound(root, path, e);
      FindAllAgrees(root, ChildPath(path, e.name), e.node.entries, pattern, fuel - 1);
    }
  }

  /** A subdirectory reached through its name is listed from its own path. */
  lemma ChildFound(root: Node, path: string, e: Entry)
    requires WellFormed(root) && e.node.Dir? && e.name != "" && '/' !in e.name
    requires Walk(root, Segments(path) + [e.name]) == Some(e.node)
    ensures DirectoryContents(root, ChildPath(path, e.name)) == Some(e.node.entries)
    ensures Listed(root, ChildPath(path, e.name), e.node.entries)
  {
    var full := ChildPath(path, e.name);
    ChildSegments(path, e.name);
    ChildrenListed(root, full, e.node.entries);
  }

  lemma ListedTail(root: Node, path: string, es: seq<Entry>)
    requires es != [] && Listed(root, path, es)
    ensures Listed(root, path, es[1..])
  {
    forall i | 0 <= i < |es| - 1 ensures Walk(root, Segments(path) + [es[1..][i].name]) == Some(es[1..][i].node) {
      assert es[1..][i] == es[i + 1];
    }
  }

  function PathLines(paths: seq<string>): (r: seq<Line>)
    ensures |r| == |paths|
  {
    seq(|paths|, i requires 0 <= i < |paths| => Text(Span("path", paths[i])))
  }

  /** What `find pattern` finds from the current directory. */
  function Found(root: Node, cwd: string, pattern: string): seq<string>
  {
    match DirectoryContents(root, cwd)
    case None => []
    case Some(es) => FindIn(es, cwd, pattern)
  }

  function Find(root: Node, cwd: string, args: seq<string>): seq<Line>
  {
    if |args| == 0 then [Error("find: missing search pattern")]
    else
      var results := Found(root, cwd, args[0]);
      if results == [] then [Text(Span("comment", "No files found matching '" + args[0] + "'"))]
      else PathLines(results)
  }

  // ---------------------------------------------------------------- tree

  const Tee: string := "\U{251C}\U{2500}\U{2500} "
  const Corner: string := "\U{2514}\U{2500}\U{2500} "
  const Bar: string := "\U{2502}   "
  const Blank: string := "    "

  /** `printTree`: each entry behind a connector, a directory's entries one level further in. */
  function TreeLines(es: seq<Entry>, prefix: string): seq<Line>
    decreases es
  {
    if es == [] then []
    else
      var last := |es| == 1;
      var connector := if last then Corner else Tee;
      (match es[0].node
       case File(_) => [Text(prefix + connector + Span("file", es[0].name))]
       case Dir(children) =>
         [Text(prefix + connector + Span("directory", es[0].name + "/"))] +
         TreeLines(children, prefix + if last then Blank else Bar)) +
      TreeLines(es[1..], prefix)
  }

  /** The lines of entry `i` of a directory: its connector line, then its subtree when it is a directory. */
  function EntryTree(es: seq<Entry>, i: nat, prefix: string): seq<Line>
    requires i < |es|
    decreases es, 0
  {
    var last := i == |es| - 1;
    var connector := if last then Corner else Tee;
    match es[i].node
    case File(_) => [Text(prefix + connector + Span("file", es[i].name))]
    case Dir(children) =>
      [Text(prefix + connector + Span("directory", es[i].name + "/"))] +
      TreeLines(children, prefix + if last then Blank else Bar)
  }

  /** The tree from entry `i` on: that entry's lines, then the rest. */
  lemma TreeLinesStep(es: seq<Entry>, i: nat, prefix: string)
    requires i < |es|
    ensures TreeLines(es[i..], prefix) == EntryTree(es, i, prefix) + TreeLines(es[i + 1..], prefix)
  {
    var rest := es[i..];
    assert rest[0] == es[i] && rest[1..] == es[i + 1..];
    assert |rest| == 1 <==> i == |es| - 1;
  }

  /** The number of entries in the subtree. */
  function Count(es: seq<Entry>): nat
    decreases es
  {
    if es == [] then 0
    else 1 + (match es[0].node case Dir(children) => Count(children) case File(_) => 0) + Count(es[1..])
  }

  /** `tree` prints one line per entry of the subtree, each behind the prefix of its level. */
  lemma {:induction false} TreeLinesShape(es: seq<Entry>, prefix: string)
    ensures |TreeLines(es, prefix)| == Count(es)
    ensures forall l :: l in TreeLines(es, prefix) ==> l.Text? && StartsWith(l.html, prefix)
    decreases es
  {
    if es != [] {
      var last := |es| == 1;
      var deeper := prefix + if last then Blank else Bar;
      if es[0].node.Dir? {
        TreeLinesShape(es[0].node.entries, deeper);
        forall l | l in TreeLines(es[0].node.entries, deeper) ensures StartsWith(l.html, prefix) {
          assert l.html[..|prefix|] == deeper[..|prefix|];
        }
      }
      TreeLinesShape(es[1..], prefix);
    }
  }

  /** Entries `a` (a file) and `b` (a directory holding the file `c`) in that order. */
  lemma TreeExample()
    ensures TreeLines([Entry("a", File("")), Entry("b", Dir([Entry("c", File(""))]))], "") ==
            [Text(Tee + Span("file", "a")), Text(Corner + Span("directory", "b/")), Text(Blank + Corner + Span("file", "c"))]
  {
    var inner := [Entry("c", File(""))];
    assert inner[1..] == [];
    assert TreeLines(inner, Blank) == [Text(Blank + Corner + Span("file", "c"))];
    var later := [Entry("b", Dir(inner))];
    assert later[1..] == [];
    assert "" + Corner == Corner && "" + Blank == Blank && "b" + "/" == "b/";
    assert TreeLines(later, "") == [Text(Corner + Span("directory", "b/"))] + TreeLines(inner, Blank);
    var es := [Entry("a", File(""))] + later;
    assert es[1..] == later;
    assert "" + Tee == Tee;
    assert TreeLines(es, "") == [Text(Tee + Span("file", "a"))] + TreeLines(later, "");
    assert es == [Entry("a", File("")), Entry("b", Dir([Entry("c", File(""))]))];
  }

  function Tree(root: Node, path: string): seq<Line>
  {
    match DirectoryContents(root, path)
    case None => [Error("tree: " + path + ": No such file or directory")]
    case Some(es) => [Text(Span("path", path))] + TreeLines(es, "")
  }

  // ---------------------------------------------------------------- history recall

  /** The history position and the input line after an arrow key. */
  datatype Recall = Recall(index: int, input: string)

  /**
   * `navigateHistory`: move by `direction`, stop at the first command, and
   * past the last one show an empty line. With no history nothing changes.
   */
  function Navigate(h: seq<string>, index: int, input: string, direction: int): (r: Recall)
    ensures |h| == 0 ==> r == Recall(index, input)
    ensures |h| > 0 ==> 0 <= r.index <= |h| && r.input == if r.index == |h| then "" else h[r.index]
    ensures |h| > 0 && 0 <= index + direction <= |h| ==> r.index == index + direction
  {
    if |h| == 0 then Recall(index, input)
    else
      var i := index + direction;
      if i < 0 then Recall(0, h[0])
      else if i >= |h| then Recall(|h|, "")
      else Recall(i, h[i])
  }

  /** After `ls`, `pwd`, `cd /`: three times up and once down recalls `pwd`. */
  lemma RecallExample()
    ensures var h := ["ls", "pwd", "cd /"];
            var r1 := Navigate(h, 3, "", -1);
            var r2 := Navigate(h, r1.index, r1.input, -1);
            var r3 := Navigate(h, r2.index, r2.input, -1);
            Navigate(h, r3.index, r3.input, 1).input == "pwd"
  {
  }

  // ---------------------------------------------------------------- tab completion

  /** The command names tab completion offers (`ipconfig` and `who` are not among them). */
  const CompletionNames: seq<string> :=
    ["ls", "cd", "pwd", "cat", "mkdir", "touch", "rm", "echo", "date", "whoami", "uname", "ps", "clear", "history", "grep", "find", "tree", "help"]

  /** `names.filter(n => n.startsWith(prefix))` */
  function PrefixMatches(names: seq<string>, prefix: string): (r: seq<string>)
    ensures |r| <= |names|
  {
    if names == [] then []
    else (if StartsWith(names[0], prefix) then [names[0]] else []) + PrefixMatches(names[1..], prefix)
  }

  lemma {:induction false} PrefixMatchesMembers(names: seq<string>, prefix: string)
    ensures forall n :: n in PrefixMatches(names, prefix) <==> n in names && StartsWith(n, prefix)
  {
    if names != [] {
      PrefixMatchesMembers(names[1..], prefix);
      assert names == [names[0]] + names[1..];
    }
  }

  /** The path a unique completion writes back, as the source computes it. */
  function RelativeAsWritten(full: string, cwd: string): string
  {
    if StartsWith(full, cwd) then (if |full| >= |cwd| + 1 then full[|cwd| + 1..] else "") else full
  }

  /** In the root directory the completed word loses its first letter: `/home` becomes `ome`, which names `/ome`. */
  lemma RelativeAsWrittenAtRoot()
    ensures RelativeAsWritten("/home", "/") == "ome"
    ensures ResolvePath("ome", "/") == "/ome"
  {
    assert StartsWith("/home", "/");
    assert "/" + "/" + "ome" == ['/', '/', 'o', 'm', 'e'];
    assert CollapseSlashes(['/', 'o', 'm', 'e']) == ['/'] + CollapseSlashes(['o', 'm', 'e']);
    assert CollapseSlashes(['o', 'm', 'e']) == ['o'] + CollapseSlashes(['m', 'e']);
    assert CollapseSlashes(['m', 'e']) == ['m'] + CollapseSlashes(['e']);
  }

  /**
   * A match equal to the current directory completes, as written, to the
   * empty word; the corrected rule keeps the path.
   */
  lemma RelativeAsWrittenSelf()
    ensures RelativeAsWritten("/home/user", "/home/user") == ""
    ensures Relative("/home/user", "/home/user") == "/home/user"
  {
    assert StartsWith("/home/user", "/home/user");
    assert !StartsWith("/home/user", "/home/user" + "/");
  }

  /**
   * The completed word relative to the current directory: the path below it
   * when the match lies inside it, the absolute path otherwise.
   */
  function Relative(full: string, cwd: string): string
  {
    if cwd == "/" && StartsWith(full, "/") then full[1..]
    else if StartsWith(full, cwd + "/") then full[|cwd| + 1..]
    else full
  }

  /** The completed word resolves, from the current directory, back to the path that was matched. */
  lemma RelativeResolves(full: string, cwd: string)
    requires StartsWith(full, "/") && NoDoubleSlash(full)
    requires var r := Relative(full, cwd); r != "." && r != ".." && !StartsWith(r, "./")
    ensures ResolvePath(Relative(full, cwd), cwd) == full
  {
    var r := Relative(full, cwd);
    if cwd == "/" && StartsWith(full, "/") {
      assert full == "/" + r;
      if |r| > 0 {
        assert !(full[0] == '/' && full[1] == '/');
      }
      assert !StartsWith(r, "/");
      assert cwd + "/" + r == ['/'] + full;
      CollapseIdentity(full);
      if |full| > 1 {
        assert CollapseSlashes(['/'] + full) == CollapseSlashes(full);
      }
    } else if StartsWith(full, cwd + "/") {
      assert full == cwd + "/" + r;
      if |r| > 0 {
        assert full[|cwd|] == '/' && full[|cwd| + 1] == r[0];
      }
      assert !StartsWith(r, "/");
      CollapseIdentity(full);
    }
  }

  /** The result of pressing Tab: the new input line and what was printed. */
  datatype Completion = Completion(input: string, lines: seq<Line>)

  /** The listing printed when several names match: the names, then the prompt and the unchanged input. */
  function Choices(matches: seq<string>, prompt: string, value: string): seq<Line>
  {
    [Text("\n" + Join(matches, "  ")), PromptLine(prompt, value)]
  }

  /** The word a unique path match completes to, when there is one. */
  function CompletedWord(root: Node, cwd: string, word: string): Option<string>
  {
    var path := ResolvePath(word, cwd);
    match DirectoryContents(root, ParentPath(path))
    case None => None
    case Some(es) =>
      var matches := PrefixMatches(Names(es), FileName(path));
      if |matches| == 1 then Some(Relative(ChildPath(ParentPath(path), matches[0]), cwd)) else None
  }

  /**
   * `autoComplete`: a single word completes to a command name, a later word
   * to a path; several matches are listed and the input stays as it was.
   */
  function Complete(root: Node, cwd: string, prompt: string, value: string): Completion
  {
    var parts := Split(value, ' ');
    var last := parts[|parts| - 1];
    if |parts| == 1 then
      var matches := PrefixMatches(CompletionNames, last);
      if |matches| == 1 then Completion(matches[0] + " ", [])
      else if |matches| > 1 then Completion(value, Choices(matches, prompt, value))
      else Completion(value, [])
    else
      var path := ResolvePath(last, cwd);
      match DirectoryContents(root, ParentPath(path))
      case None => Completion(value, [])
      case Some(es) =>
        var matches := PrefixMatches(Names(es), FileName(path));
        if |matches| == 1 then Completion(Join(parts[..|parts| - 1] + [CompletedWord(root, cwd, last).value], " "), [])
        else if |matches| > 1 then Completion(value, Choices(matches, prompt, value))
        else Completion(value, [])
  }

  /**
   * A completed path names an entry of the directory the typed word points
   * into, whose name starts with what was typed after the last `/`.
   */
  lemma CompletedWordExists(root: Node, cwd: string, word: string) returns (i: nat)
    requires WellFormed(root) && StartsWith(cwd, "/") && CompletedWord(root, cwd, word).Some?
    requires var w := CompletedWord(root, cwd, word).value; w != "." && w != ".." && !StartsWith(w, "./")
    requires var es := DirectoryContents(root, ParentPath(ResolvePath(word, cwd))).value;
             forall k :: 0 <= k < |es| ==> es[k].name != ""
    ensures var parent := ParentPath(ResolvePath(word, cwd));
            var es := DirectoryContents(root, parent).value;
            var w := CompletedWord(root, cwd, word).value;
            i < |es| && StartsWith(es[i].name, FileName(ResolvePath(word, cwd))) &&
            Segments(ResolvePath(w, cwd)) == Segments(parent) + [es[i].name] &&
            Walk(root, Segments(ResolvePath(w, cwd))) == Some(es[i].node)
  {
    var path := ResolvePath(word, cwd);
    var parent := ParentPath(path);
    var es := DirectoryContents(root, parent).value;
    var matches := PrefixMatches(Names(es), FileName(path));
    PrefixMatchesMembers(Names(es), FileName(path));
    assert matches[0] in matches;
    var m := matches[0];
    i :| 0 <= i < |es| && es[i].name == m;
    CompletionTarget(root, parent, es, i);
    RelativeResolves(ChildPath(parent, m), cwd);
  }

  lemma CompletionTarget(root: Node, parent: string, es: seq<Entry>, i: nat)
    requires WellFormed(root) && DirectoryContents(root, parent) == Some(es) && i < |es| && es[i].name != ""
    requires StartsWith(parent, "/")
    ensures StartsWith(ChildPath(parent, es[i].name), "/") && NoDoubleSlash(ChildPath(parent, es[i].name))
    ensures Segments(ChildPath(parent, es[i].name)) == Segments(parent) + [es[i].name]
    ensures Walk(root, Segments(parent) + [es[i].name]) == Some(es[i].node)
  {
    DirectoryListed(root, parent);
    WalkWellFormed(root, Segments(parent));
    ChildSegments(parent, es[i].name);
    CollapseNoDoubleSlash(parent + "/" + es[i].name);
  }

  // ---------------------------------------------------------------- dispatch

  /** What the commands see of a terminal: the tree, the current directory, the prompt and the output lines. */
  datatype Shell = Shell(fs: Node, cwd: string, prompt: string, output: seq<Line>)

  /** The cases of `processCommand`'s switch. */
  datatype Builtin =
    HelpCmd | LsCmd | CdCmd | PwdCmd | CatCmd | MkdirCmd | TouchCmd | RmCmd | EchoCmd |
    DateCmd | WhoamiCmd | UnameCmd | PsCmd | ClearCmd | HistoryCmd | GrepCmd | FindCmd |
    TreeCmd | IpconfigCmd | WhoCmd

  /** The word each case of the switch matches. */
  function CommandName(b: Builtin): string
  {
    match b
    case HelpCmd => "help"
    case LsCmd => "ls"
    case CdCmd => "cd"
    case PwdCmd => "pwd"
    case CatCmd => "cat"
    case MkdirCmd => "mkdir"
    case TouchCmd => "touch"
    case RmCmd => "rm"
    case EchoCmd => "echo"
    case DateCmd => "date"
    case WhoamiCmd => "whoami"
    case UnameCmd => "uname"
    case PsCmd => "ps"
    case ClearCmd => "clear"
    case HistoryCmd => "history"
    case GrepCmd => "grep"
    case FindCmd => "find"
    case TreeCmd => "tree"
    case IpconfigCmd => "ipconfig"
    case WhoCmd => "who"
  }

  /** The case a command word selects; `None` is the switch's `default`. */
  function Recognise(word: string): (r: Option<Builtin>)
    ensures r.Some? ==> CommandName(r.value) == word
  {
    if word == "help" then Some(HelpCmd)
    else if word == "ls" then Some(LsCmd)
    else if word == "cd" then Some(CdCmd)
    else if word == "pwd" then Some(PwdCmd)
    else if word == "cat" then Some(CatCmd)
    else if word == "mkdir" then Some(MkdirCmd)
    else if word == "touch" then Some(TouchCmd)
    else if word == "rm" then Some(RmCmd)
    else if word == "echo" then Some(EchoCmd)
    else if word == "date" then Some(DateCmd)
    else if word == "whoami" then Some(WhoamiCmd)
    else if word == "uname" then Some(UnameCmd)
    else if word == "ps" then Some(PsCmd)
    else if word == "clear" then Some(ClearCmd)
    else if word == "history" then Some(HistoryCmd)
    else if word == "grep" then Some(GrepCmd)
    else if word == "find" then Some(FindCmd)
    else if word == "tree" then Some(TreeCmd)
    else if word == "ipconfig" then Some(IpconfigCmd)
    else if word == "who" then Some(WhoCmd)
    else None
  }

  /** Every case is selected by its own word, so no case is shadowed by an earlier one. */
  lemma RecogniseName(b: Builtin)
    ensures Recognise(CommandName(b)) == Some(b)
  {
  }

  /** The two lines printed for a word that names no command. */
  function Unknown(cmd: string): seq<Line>
  {
    [Error("Command not found: " + cmd), Text(Span("comment", "Type 'help' to see available commands"))]
  }

  /** `changeDirectory`: move to an existing directory and rebuild the prompt, or print the error line. */
  function Cd(s: Shell, target: string): (r: Shell)
  {
    var p := ResolvePath(target, s.cwd);
    if DirectoryContents(s.fs, p).None? then s.(output := s.output + [Error("cd: no such file or directory: " + target)])
    else s.(cwd := p, prompt := PromptFor(p))
  }

  /** A change to the tree takes effect and its line is printed. */
  function Apply(s: Shell, c: Change): Shell
  {
    s.(fs := c.fs, output := s.output + [c.line])
  }

  /**
   * `processCommand`: the first word picks the command, the rest are its
   * arguments. `history` is the command history, the current command
   * included; `clock` stands for the two readings of the system clock.
   */
  function Process(s: Shell, command: string, history: seq<string>, clock: Clock): (r: Shell)
    ensures var cmd := Words(command)[0];
            (r.fs != s.fs ==> cmd in ["mkdir", "touch", "rm"]) &&
            (r.cwd != s.cwd || r.prompt != s.prompt ==>
               cmd == "cd" && DirectoryContents(r.fs, r.cwd).Some? && r.prompt == PromptFor(r.cwd)) &&
            (cmd == "clear" ==> r.output == []) &&
            (cmd != "clear" ==> s.output <= r.output) &&
            (Recognise(cmd).None? ==> r == s.(output := s.output + Unknown(cmd))) &&
            (StartsWith(s.cwd, "/") ==> StartsWith(r.cwd, "/"))
  {
    var parts := Words(command);
    var cmd := parts[0];
    var args := parts[1..];
    var out := s.output;
    match Recognise(cmd)
    case None => s.(output := out + Unknown(cmd))
    case Some(b) =>
      match b
      case HelpCmd => s.(output := out + [Canned(Help)])
      case LsCmd => s.(output := out + Ls(s.fs, s.cwd, args, clock.today))
      case CdCmd => Cd(s, CdTarget(args))
      case PwdCmd => s.(output := out + [Text(Span("path", s.cwd))])
      case CatCmd => s.(output := out + [Cat(s.fs, s.cwd, ArgOr(args, 0, ""))])
      case MkdirCmd => Apply(s, Mkdir(s.fs, s.cwd, ArgOr(args, 0, "")))
      case TouchCmd => Apply(s, Touch(s.fs, s.cwd, ArgOr(args, 0, "")))
      case RmCmd => (match Rm(s.fs, s.cwd, args) case None => s case Some(c) => Apply(s, c))
      case EchoCmd => s.(output := out + [Text(Join(args, " "))])
      case DateCmd => s.(output := out + [Text(clock.now)])
      case WhoamiCmd => s.(output := out + [Text("user")])
      case UnameCmd => s.(output := out + [Text(Uname(args))])
      case PsCmd => s.(output := out + [Canned(Processes)])
      case ClearCmd => s.(output := [])
      case HistoryCmd => s.(output := out + HistoryLines(history))
      case GrepCmd => s.(output := out + Grep(s.fs, s.cwd, args))
      case FindCmd => s.(output := out + Find(s.fs, s.cwd, args))
      case TreeCmd => s.(output := out + Tree(s.fs, ArgOr(args, 0, s.cwd)))
      case IpconfigCmd => s.(output := out + [Canned(IpConfig)])
      case WhoCmd => s.(output := out + [Canned(Who)])
  }

  /** The tree is well formed, the root is a directory and the current directory is absolute. */
  predicate ShellValid(s: Shell)
  {
    WellFormed(s.fs) && s.fs.Dir? && StartsWith(s.cwd, "/")
  }

  /** No command breaks the tree's shape or makes the current directory relative. */
  lemma ProcessKeepsValid(s: Shell, command: string, history: seq<string>, clock: Clock)
    requires ShellValid(s)
    ensures ShellValid(Process(s, command, history, clock))
  {
    var parts := Words(command);
    var args := parts[1..];
    var r := Process(s, command, history, clock);
    match Recognise(parts[0])
    case Some(MkdirCmd) =>
      assert r == Apply(s, Mkdir(s.fs, s.cwd, ArgOr(args, 0, "")));
      MkdirWellFormed(s.fs, s.cwd, ArgOr(args, 0, ""));
    case Some(TouchCmd) =>
      assert r == Apply(s, Touch(s.fs, s.cwd, ArgOr(args, 0, "")));
      TouchWellFormed(s.fs, s.cwd, ArgOr(args, 0, ""));
    case Some(RmCmd) =>
      assert r.fs == RmTree(s.fs, s.cwd, args) && r.cwd == s.cwd;
      RmWellFormed(s.fs, s.cwd, args);
    case _ =>
      assert r.fs == s.fs;
  }

  /** Two words without spaces, joined by one space, split back into those two. */
  lemma TwoWords(a: string, b: string)
    requires ' ' !in a && ' ' !in b
    ensures Words(a + " " + b) == [a, b]
  {
    assert a + " " + b == a + [' '] + b;
    SplitAround(a, ' ', b);
    SplitNoSeparator(a, ' ');
    SplitNoSeparator(b, ' ');
  }

  /** A plain name resolves to the child path, whose parent is the current directory's segments and whose file name is the name. */
  lemma ResolveName(cwd: string, name: string)
    requires name != "" && '/' !in name && name != "." && name != ".."
    ensures ResolvePath(name, cwd) == ChildPath(cwd, name)
    ensures FileName(ChildPath(cwd, name)) == name
    ensures Segments(ParentPath(ChildPath(cwd, name))) == Segments(cwd)
    ensures Segments(ChildPath(cwd, name)) == Segments(cwd) + [name]
  {
    var p := ChildPath(cwd, name);
    assert !StartsWith(name, "/") && !StartsWith(name, "./") by {
      assert name[0] != '/';
      if |name| >= 2 { assert name[1] != '/'; }
    }
    ChildSegments(cwd, name);
    CollapseLast(cwd + "/" + name);
    var k := LastIndexOf(p, '/');
    assert FileName(p) == p[k + 1..];
    assert FileName(p) != "";
    ParentSegments(p);
    var a := Segments(ParentPath(p));
    var b := Segments(cwd);
    assert a + [FileName(p)] == b + [name];
    assert FileName(p) == (a + [FileName(p)])[|a|] == (b + [name])[|b|] == name;
    assert a == (a + [FileName(p)])[..|a|] == (b + [name])[..|b|] == b;
  }

  lemma ProcessMkdir(s: Shell, name: string, history: seq<string>, clock: Clock)
    requires name != "" && ' ' !in name
    ensures Process(s, "mkdir " + name, history, clock) == Apply(s, Mkdir(s.fs, s.cwd, name))
  {
    var command := "mkdir " + name;
    TwoWords("mkdir", name);
    assert command == "mkdir" + " " + name;
    assert Words(command) == ["mkdir", name];
    assert ["mkdir", name][1..] == [name];
    assert ArgOr([name], 0, "") == name;
    assert Recognise("mkdir") == Some(MkdirCmd);
    MkdirCase(s, command, history, clock);
  }

  lemma MkdirCase(s: Shell, command: string, history: seq<string>, clock: Clock)
    requires Recognise(Words(command)[0]) == Some(MkdirCmd)
    ensures Process(s, command, history, clock) == Apply(s, Mkdir(s.fs, s.cwd, ArgOr(Words(command)[1..], 0, "")))
  {
  }

  lemma ProcessCd(s: Shell, name: string, history: seq<string>, clock: Clock)
    requires name != "" && ' ' !in name
    ensures Process(s, "cd " + name, history, clock) == Cd(s, name)
  {
    var command := "cd " + name;
    TwoWords("cd", name);
    assert command == "cd" + " " + name;
    assert Words(command) == ["cd", name];
    assert ["cd", name][1..] == [name];
    assert ArgOr([name], 0, "") == name;
    assert Recognise("cd") == Some(CdCmd);
    assert Process(s, command, history, clock) == Cd(s, CdTarget([name]));
  }

  /**
   * `mkdir name` then `cd name` from an existing directory where `name` is
   * free: the new directory is the current one, it is empty, and the prompt
   * follows it.
   */
  lemma MkdirThenCd(s: Shell, name: string, history: seq<string>, clock: Clock)
    requires ShellValid(s) && DirectoryContents(s.fs, s.cwd).Some?
    requires name != "" && '/' !in name && ' ' !in name && name != "." && name != ".."
    requires name !in Names(DirectoryContents(s.fs, s.cwd).value)
    ensures var s1 := Process(s, "mkdir " + name, history, clock);
            var s2 := Process(s1, "cd " + name, history, clock);
            s1.output == s.output + [Success("Directory '" + name + "' created")] &&
            s2.cwd == ChildPath(s.cwd, name) && s2.prompt == PromptFor(s2.cwd) &&
            s2.output == s1.output && DirectoryContents(s2.fs, s2.cwd) == Some([])
  {
    MkdirNew(s.fs, s.cwd, name);
    ProcessMkdir(s, name, history, clock);
    var s1 := Apply(s, Mkdir(s.fs, s.cwd, name));
    ProcessCd(s1, name, history, clock);
    ResolveName(s.cwd, name);
    assert Cd(s1, name) == s1.(cwd := ChildPath(s.cwd, name), prompt := PromptFor(ChildPath(s.cwd, name)));
  }

  /** `mkdir name` in an existing directory where `name` is free creates an empty directory at the child path. */
  lemma MkdirNew(root: Node, cwd: string, name: string)
    requires DirectoryContents(root, cwd).Some?
    requires name != "" && '/' !in name && name != "." && name != ".."
    requires name !in Names(DirectoryContents(root, cwd).value)
    ensures Mkdir(root, cwd, name).line == Success("Directory '" + name + "' created")
    ensures DirectoryContents(Mkdir(root, cwd, name).fs, ChildPath(cwd, name)) == Some([])
  {
    var es := DirectoryContents(root, cwd).value;
    var p := ChildPath(cwd, name);
    ResolveName(cwd, name);
    var parent := Segments(ParentPath(p));
    assert DirectoryContents(root, ParentPath(p)) == Some(es);
    var fs1 := SetDir(root, parent, Put(es, name, Dir([])));
    assert Mkdir(root, cwd, name) == Change(fs1, Success("Directory '" + name + "' created"));
    var d := Put(es, name, Dir([]));
    assert Walk(fs1, parent) == Some(Dir(d));
    assert Lookup(d, name) == Some(Dir([]));
    assert Walk(Dir(d), [name]) == Some(Dir([]));
    WalkAppend(fs1, parent, [name]);
    assert Segments(p) == parent + [name];
    assert Walk(fs1, Segments(p)) == Some(Dir([]));
  }
}
