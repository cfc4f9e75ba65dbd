/**
 * The terminal of the landing page (terminal.js): a switch on the whole
 * lowercased line with canned answers, `echo` and `uname` prefix rules, and
 * `ls`/`pwd`/`cd` over a one-directory table. Output is the page's
 * `innerHTML`, to which every answer is appended after a `<br>`.
 */
module Console {
  import opened Wrappers
  import opened Text

  const HelpText: string :=
    "Mevcut komutlar:" + "</br> - help" + "</br> - echo" + "</br> - date" + "</br> - clear" + "</br> - exit" +
    "</br> - ls" + "</br> - pwd" + "</br> - cd" + "</br> - mkdir" + "</br> - rmdir" + "</br> - rm" +
    "</br> - touch" + "</br> - nano" + "</br> - cp" + "</br> - mv" + "</br> - grep" + "</br> - head" +
    "</br> - tail" + "</br> - whoami" + "</br> - uname -a" + "</br> - df -h" + "</br> - free -h"

  const UnameText: string := "Linux DarkSessionOS #1 SMP x86_64"

  const DfText: string :=
    "/Filesystem      Size  Used Avail Use% Mounted on" +
    "</br>/dev/sda1        50G   19G   29G  40% /" +
    "</br>/tmpfs           1.9G  1.1M  1.9G   1% /dev/shm" +
    "</br>/tmpfs           1.9G  1.9M  1.9G   1% /run" +
    "</br>/dev/sda2       200G   85G  105G  45% /home"

  const FreeText: string :=
    "             total   used   free   available" +
    "</br>Mem:       8G     3G     5G       6G" +
    "</br>Swap:      2G     0G     2G"

  /** What the `clear` case leaves in the output. */
  const Cleared: string := "<br>user@linux:~$"

  /** The `fileSystem` table: one directory, the root. */
  const Files: map<string, seq<string>> :=
    map["/" := ["Bilgisayar", "\U{00C7}\U{00F6}p Kutusu", "settings.conf", "notlar.txt", "Firefox"]]

  /** The lowercased lines the switch has a case for. */
  const Cases: set<string> :=
    {"help", "date", "whoami", "uname -a", "df -h", "free -h", "ls", "pwd", "cd",
     "mkdir", "rmdir", "rm", "touch", "exit", "clear"}

  /** What `handleCommand` does with a line. */
  datatype Action = Say(text: string) | SayDate | List | Where | Reset

  /** `handleCommand`'s switch, on the lowercased line; `default` goes to the prefix rules. */
  function Dispatch(command: string): Action
  {
    var cmd := ToLower(command);
    if cmd in Cases then Answer(cmd)
    else if StartsWith(cmd, "echo ") then Say(command[5..])
    else if StartsWith(cmd, "uname") then Say(UnameText)
    else Say(NotFound(command))
  }

  /** The answer of each case of the switch. */
  function Answer(cmd: string): Action
    requires cmd in Cases
  {
    if cmd == "help" then Say(HelpText)
    else if cmd == "date" then SayDate
    else if cmd == "whoami" then Say("user")
    else if cmd == "uname -a" then Say(UnameText)
    else if cmd == "df -h" then Say(DfText)
    else if cmd == "free -h" then Say(FreeText)
    else if cmd == "ls" then List
    else if cmd == "pwd" then Where
    else if cmd == "cd" then Say("Klas\U{00F6}r ad\U{0131} girerek cd kullan\U{0131}n: cd klas\U{00F6}r_adi")
    else if cmd == "mkdir" then Say("Klas\U{00F6}r olu\U{015F}turuldu (sim\U{00FC}lasyon)")
    else if cmd == "rmdir" then Say("Klas\U{00F6}r silindi (sim\U{00FC}lasyon)")
    else if cmd == "rm" then Say("Dosya silindi (sim\U{00FC}lasyon)")
    else if cmd == "touch" then Say("Dosya olu\U{015F}turuldu (sim\U{00FC}lasyon)")
    else if cmd == "exit" then Say("Oturum sonland\U{0131}r\U{0131}ld\U{0131}.")
    else Reset
  }

  function NotFound(command: string): string
  {
    "Komut bulunamad\U{0131}: " + command
  }

  /** The lines whose answer does not depend on their case: a case of the switch or a `uname` prefix. */
  predicate Recognised(cmd: string)
  {
    cmd in Cases || StartsWith(cmd, "uname")
  }

  /** A line starting with `echo ` in any case prints the rest of the line as typed. */
  lemma EchoKeepsCase(command: string)
    requires StartsWith(ToLower(command), "echo ")
    ensures |command| >= 5 && Dispatch(command) == Say(command[5..])
  {
    EchoNoCase(ToLower(command));
    Uncased(command);
  }

  lemma EchoNoCase(cmd: string)
    requires StartsWith(cmd, "echo ")
    ensures cmd !in Cases && !StartsWith(cmd, "uname")
  {
    assert cmd[0] == 'e' && cmd[4] == ' ';
  }

  /** A line that is no case goes to the prefix rules. */
  lemma Uncased(command: string)
    requires ToLower(command) !in Cases
    ensures var cmd := ToLower(command);
            Dispatch(command) ==
            if StartsWith(cmd, "echo ") then Say(command[5..])
            else if StartsWith(cmd, "uname") then Say(UnameText)
            else Say(NotFound(command))
  {
  }

  /** `echo` alone is not a case and has no space after it: it is an unknown command. */
  lemma BareEchoUnknown(command: string)
    requires ToLower(command) == "echo"
    ensures Dispatch(command) == Say(NotFound(command))
  {
  }

  /** Every line starting with `uname`, in any case, prints the same system string. */
  lemma UnameAlways(command: string)
    requires StartsWith(ToLower(command), "uname")
    ensures Dispatch(command) == Say(UnameText)
  {
    var cmd := ToLower(command);
    assert cmd[0] == 'u' && cmd[1] == 'n';
  }

  /** Lines that differ only in the case of their letters get the same answer, except `echo` text and unknown lines. */
  lemma CaseInsensitive(a: string, b: string)
    requires ToLower(a) == ToLower(b) && Recognised(ToLower(a))
    ensures Dispatch(a) == Dispatch(b)
  {
    if StartsWith(ToLower(a), "uname") {
      UnameAlways(a);
      UnameAlways(b);
    }
  }

  /**
   * A line that is no case and has neither prefix is answered with
   * `Komut bulunamadı: ` and the line as typed, not lowercased.
   */
  lemma UnknownKeepsCase(command: string)
    requires !Recognised(ToLower(command)) && !StartsWith(ToLower(command), "echo ")
    ensures Dispatch(command) == Say(NotFound(command))
  {
    Uncased(command);
  }

  /** `cd` with an operand never reaches `cd()`: only the bare word is a case, and it prints usage. */
  lemma CdOperandUnknown(command: string)
    requires StartsWith(ToLower(command), "cd ")
    ensures Dispatch(command) == Say(NotFound(command))
  {
    CdNoCase(ToLower(command));
    Uncased(command);
  }

  lemma CdNoCase(cmd: string)
    requires StartsWith(cmd, "cd ")
    ensures cmd !in Cases && !StartsWith(cmd, "uname") && !StartsWith(cmd, "echo ")
  {
    assert cmd[0] == 'c' && cmd[2] == ' ';
  }

  // ---------------------------------------------------------------- the page

  /** The page: its output HTML and the current directory. */
  datatype Page = Page(output: string, currentPath: string)

  /** `printOutput` */
  function Print(p: Page, text: string): Page
  {
    p.(output := p.output + "<br>" + text)
  }

  /**
   * `ls()`: the entries of the current directory joined by two spaces; when
   * the current directory is not in the table the lookup throws and nothing
   * is printed.
   */
  function Ls(p: Page): Page
  {
    if p.currentPath in Files then Print(p, Join(Files[p.currentPath], "  ")) else p
  }

  /** The answer to one line; `now` is the clock's `toLocaleString()`. */
  function Handle(p: Page, command: string, now: string): Page
  {
    match Dispatch(command)
    case Say(text) => Print(p, text)
    case SayDate => Print(p, now)
    case List => Ls(p)
    case Where => Print(p, p.currentPath)
    case Reset => p.(output := Cleared)
  }

  /** No line but `clear` loses output, and no line changes the directory. */
  lemma HandleAppends(p: Page, command: string, now: string)
    ensures Handle(p, command, now).currentPath == p.currentPath
    ensures ToLower(command) == "clear" <==> Dispatch(command) == Reset
    ensures ToLower(command) != "clear" ==> p.output <= Handle(p, command, now).output
  {
    var r := Handle(p, command, now);
    match Dispatch(command)
    case Say(text) => Grows(p.output, "<br>" + text);
    case SayDate => Grows(p.output, "<br>" + now);
    case List => if p.currentPath in Files { Grows(p.output, "<br>" + Join(Files[p.currentPath], "  ")); }
    case Where => Grows(p.output, "<br>" + p.currentPath);
    case Reset =>
  }

  lemma Grows(a: string, b: string)
    ensures a <= a + b
  {
    assert (a + b)[..|a|] == a;
  }

  /**
   * `cd(folder)` as written: it appends `/` and the name to the current path,
   * so from the root it makes `//name`. A listed name is entered and
   * announced; an unlisted one is refused. Looking up a directory missing
   * from the table throws (`None`).
   */
  function CdAsWritten(p: Page, folder: string): Option<Page>
  {
    if p.currentPath !in Files then None
    else if folder in Files[p.currentPath] then
      var path := p.currentPath + "/" + folder;
      Some(Print(p.(currentPath := path), "Dizin de\U{011F}i\U{015F}tirildi: " + path))
    else Some(Print(p, "Dizin bulunamad\U{0131}."))
  }

  /** From the root, `cd('Bilgisayar')` as written moves to `//Bilgisayar`. */
  lemma CdFromRootAsWritten(output: string)
    ensures var r := CdAsWritten(Page(output, "/"), "Bilgisayar");
            r.Some? && r.value.currentPath == "//Bilgisayar" && !NoDoubleSlash(r.value.currentPath)
  {
    assert "Bilgisayar" == Files["/"][0];
    assert "//Bilgisayar"[0] == '/' && "//Bilgisayar"[1] == '/';
  }

  /** The child path with one `/` between the parent and the name, also at the root. */
  function Child(path: string, folder: string): string
  {
    if path == "/" then "/" + folder else path + "/" + folder
  }

  /** `cd(folder)` joining the path without doubling the root's slash. */
  function Cd(p: Page, folder: string): Option<Page>
  {
    if p.currentPath !in Files then None
    else if folder in Files[p.currentPath] then
      var path := Child(p.currentPath, folder);
      Some(Print(p.(currentPath := path), "Dizin de\U{011F}i\U{015F}tirildi: " + path))
    else Some(Print(p, "Dizin bulunamad\U{0131}."))
  }

  /**
   * Entering a listed folder adds exactly its name to the segments of the
   * path and makes no run of slashes; an unlisted one leaves the path alone.
   * The table has one directory, the root, so that is where `cd` starts.
   */
  lemma CdChild(p: Page, folder: string)
    requires p.currentPath in Files
    requires '/' !in folder && folder != ""
    ensures var r := Cd(p, folder);
            r.Some? &&
            (folder in Files[p.currentPath] ==>
               Segments(r.value.currentPath) == Segments(p.currentPath) + [folder] &&
               NoDoubleSlash(r.value.currentPath)) &&
            (folder !in Files[p.currentPath] ==> r.value.currentPath == p.currentPath)
  {
    assert p.currentPath == "/";
    if folder in Files[p.currentPath] {
      assert Cd(p, folder).value.currentPath == "/" + folder;
      RootChild(folder);
    }
  }

  /** Below the root a plain name is a one-segment path with no run of slashes. */
  lemma RootChild(folder: string)
    requires '/' !in folder && folder != ""
    ensures Segments("/" + folder) == Segments("/") + [folder] && NoDoubleSlash("/" + folder)
  {
    assert "/" + folder == [] + ['/'] + folder;
    SplitAround([], '/', folder);
    SplitNoSeparator(folder, '/');
    assert "/" == [] + ['/'] + [];
    SplitAround([], '/', []);
    assert NonEmpty(["", folder]) == [folder];
    assert NonEmpty(["", ""]) == [];
    var q := "/" + folder;
    forall i | 0 <= i < |q| - 1
      ensures !(q[i] == '/' && q[i + 1] == '/')
    {
      assert q[i + 1] == folder[i];
    }
  }

  /** The landing page's terminal. */
  class Terminal {
    var output: string
    var currentPath: string

    function State(): Page
      reads this
    {
      Page(output, currentPath)
    }

    constructor(output: string)
      ensures State() == Page(output, "/")
    {
      this.output := output;
      currentPath := "/";
    }

    /** The Enter key: the trimmed line goes to `handleCommand`. */
    method Enter(line: string, now: string)
      modifies this
      ensures State() == Handle(old(State()), Trim(line), now)
    {
      HandleCommand(Trim(line), now);
    }

    method HandleCommand(command: string, now: string)
      modifies this
      ensures State() == Handle(old(State()), command, now)
    {
      var action := Dispatch(command);
      match action
      case Say(text) => PrintOutput(text);
      case SayDate => PrintOutput(now);
      case List => ListFiles();
      case Where => PrintOutput(currentPath);
      case Reset => output := Cleared;
    }

    method PrintOutput(text: string)
      modifies this
      ensures State() == Print(old(State()), text)
    {
      output := output + "<br>" + text;
    }

    method ListFiles()
      modifies this
      ensures State() == Ls(old(State()))
    {
      if currentPath in Files {
        PrintOutput(Join(Files[currentPath], "  "));
      }
    }

    /** `cd(folder)`; `ok` is false where the table lookup throws. */
    method ChangeDirectory(folder: string) returns (ok: bool)
      modifies this
      ensures ok <==> Cd(old(State()), folder).Some?
      ensures ok ==> State() == Cd(old(State()), folder).value
      ensures !ok ==> State() == old(State())
    {
      if currentPath !in Files {
        return false;
      }
      ok := true;
      if folder in Files[currentPath] {
        currentPath := Child(currentPath, folder);
        PrintOutput("Dizin de\U{011F}i\U{015F}tirildi: " + currentPath);
      } else {
        PrintOutput("Dizin bulunamad\U{0131}.");
      }
    }
  }
}
