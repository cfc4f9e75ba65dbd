/**
 * Path strings of the desktop terminal (Desktop/terminal.js): `resolvePath`,
 * `getParentPath` and `getFileName`. Paths are plain strings; only the walk
 * over the tree (module Vfs) splits them into segments.
 */
module Paths {
  import opened Text

  /** The user's home directory, where terminal sessions and the file manager start. */
  const Home: string := "/home/user"

  /** `getFileName`: the text after the last `/` (all of it when there is none). */
  function FileName(p: string): (r: string)
    ensures '/' !in r
    ensures '/' !in p ==> r == p
  {
    p[LastIndexOf(p, '/') + 1..]
  }

  /** `getParentPath`: the text before the last `/`, or `/` when that is empty. */
  function ParentPath(p: string): (r: string)
    ensures StartsWith(p, "/") ==> StartsWith(r, "/")
    ensures r == "/" || r + "/" + FileName(p) == p
  {
    if p == "/" then "/"
    else
      var k := LastIndexOf(p, '/');
      if k <= 0 then "/"
      else
        assert p == p[..k] + "/" + p[k + 1..];
        p[..k]
  }

  /**
   * The parent path walks the segments of the path without its last one; a
   * path ending in `/` has an empty file name and the same segments as its parent.
   */
  lemma ParentSegments(p: string)
    ensures Segments(p) == Segments(ParentPath(p)) + (if FileName(p) == "" then [] else [FileName(p)])
  {
    var k := LastIndexOf(p, '/');
    RootSegments();
    if p == "/" {
      assert FileName(p) == "";
    } else if k == -1 {
      NoSlashSegments(p);
    } else {
      SplitLast(p, k);
      assert k == 0 ==> p[..k] == "";
    }
  }

  lemma NoSlashSegments(p: string)
    requires LastIndexOf(p, '/') == -1
    ensures ParentPath(p) == "/" && FileName(p) == p
    ensures Segments(p) == if p == "" then [] else [p]
  {
    assert '/' !in p;
    SplitNoSeparator(p, '/');
  }

  lemma RootSegments()
    ensures Segments("/") == [] && Segments("") == []
  {
    assert Split("/", '/') == ["", ""];
    assert Split("", '/') == [""];
  }

  lemma SplitLast(p: string, k: int)
    requires k == LastIndexOf(p, '/') && k >= 0
    ensures Segments(p) == Segments(p[..k]) + (if FileName(p) == "" then [] else [FileName(p)])
  {
    var name := FileName(p);
    assert p == p[..k] + ['/'] + name;
    SplitAround(p[..k], '/', name);
    SplitNoSeparator(name, '/');
    NonEmptyAppend(Split(p[..k], '/'), [name]);
  }

  /** A leading `./` is dropped from a relative path. */
  function StripDotSlash(path: string): string
  {
    if StartsWith(path, "./") then path[2..] else path
  }

  /**
   * `resolvePath`: an absolute path is returned unchanged (no slash collapsing,
   * no `..` handling), `.` and `..` are recognised only as the whole argument,
   * and anything else is appended to the current directory with runs of `/`
   * collapsed.
   */
  function ResolvePath(path: string, cwd: string): (r: string)
    ensures StartsWith(cwd, "/") ==> StartsWith(r, "/")
  {
    if StartsWith(path, "/") then path
    else if path == "." then cwd
    else if path == ".." then ParentPath(cwd)
    else CollapseSlashes(cwd + "/" + StripDotSlash(path))
  }

  /**
   * A relative path resolves to a path without doubled slashes that walks the
   * current directory's segments followed by the argument's.
   */
  lemma ResolveRelative(path: string, cwd: string)
    requires !StartsWith(path, "/") && path != "." && path != ".."
    ensures NoDoubleSlash(ResolvePath(path, cwd))
    ensures Segments(ResolvePath(path, cwd)) == Segments(cwd) + Segments(StripDotSlash(path))
  {
    var rest := StripDotSlash(path);
    CollapseNoDoubleSlash(cwd + "/" + rest);
    SegmentsCollapse(cwd + "/" + rest);
    SplitAround(cwd, '/', rest);
    NonEmptyAppend(Split(cwd, '/'), Split(rest, '/'));
  }

  /** `..` from a directory whose path does not end in `/` drops its last segment. */
  lemma ResolveDotDot(cwd: string)
    requires FileName(cwd) != ""
    ensures |Segments(cwd)| >= 1
    ensures Segments(ResolvePath("..", cwd)) == Segments(cwd)[..|Segments(cwd)| - 1]
  {
    ParentSegments(cwd);
  }
}
