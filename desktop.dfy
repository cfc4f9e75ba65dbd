/**
 * The window manager, file manager and text editor of the simulated desktop
 * (Desktop/desktop.js). Each is a class whose methods update its fields; each
 * method is proved to leave the object in the state a function on a plain
 * record describes, and the properties are proved about those functions.
 */
module Desktop {
  import opened Wrappers
  import opened Text
  import opened Paths
  import opened Vfs
  import opened Terminals

  // ---------------------------------------------------------------- windows

  /** A window's left, top, width and height in pixels: the numbers in its `style` fields. */
  datatype Box = Box(left: int, top: int, width: int, height: int)

  /**
   * One `windowConfig` together with what the manager sets on its element:
   * whether it is shown, its stacking order and its style box.
   */
  datatype Window = Window(maximized: bool, minimized: bool, shown: bool, z: int, style: Box, original: Box)

  /**
   * The manager's registry: the windows with their keys in registration
   * order (the order of the `Map`), the active window, the last z-index
   * handed out, and the taskbar buttons with their labels.
   */
  datatype Desk = Desk(windows: map<string, Window>, order: seq<string>, active: Option<string>, zIndex: int, taskbar: map<string, string>)

  /**
   * The keys listed once each in registration order, a button for every open
   * window and no other, the active window open, and no window stacked above
   * the last z-index.
   */
  ghost predicate DeskValid(d: Desk)
  {
    (forall a :: a in d.windows <==> a in d.order) &&
    Distinct(d.order) &&
    d.taskbar.Keys == d.windows.Keys &&
    (d.active.Some? ==> d.active.value in d.windows) &&
    (forall a :: a in d.windows ==> d.windows[a].z <= d.zIndex)
  }

  /** No key is listed twice. */
  predicate Distinct(s: seq<string>)
  {
    forall i, j :: 0 <= i < j < |s| ==> s[i] != s[j]
  }

  /** `s` without `x`: deleting a key keeps the order of the others. */
  function Without(s: seq<string>, x: string): (r: seq<string>)
    ensures forall y :: y in r <==> y in s && y != x
    ensures |r| <= |s|
  {
    if s == [] then []
    else (if s[0] == x then [] else [s[0]]) + Without(s[1..], x)
  }

  lemma {:induction false} WithoutDistinct(s: seq<string>, x: string)
    requires Distinct(s)
    ensures Distinct(Without(s, x))
  {
    if s != [] {
      WithoutDistinct(s[1..], x);
      var rest := Without(s[1..], x);
      forall k | 0 <= k < |s[1..]|
        ensures s[1..][k] != s[0]
      {
        assert s[1..][k] == s[k + 1];
      }
      assert s[0] !in rest;
      var r := Without(s, x);
      var head := if s[0] == x then [] else [s[0]];
      assert r == head + rest;
      forall i, j | 0 <= i < j < |r|
        ensures r[i] != r[j]
      {
        if head == [] {
          assert r[i] == rest[i] && r[j] == rest[j];
        } else if i == 0 {
          assert r[j] == rest[j - 1] && rest[j - 1] in rest;
        } else {
          assert r[i] == rest[i - 1] && r[j] == rest[j - 1];
        }
      }
    }
  }

  /** `focusWindow`: a registered window comes to the front and becomes active. */
  function Focus(d: Desk, app: string): Desk
  {
    if app !in d.windows then d
    else d.(windows := d.windows[app := d.windows[app].(z := d.zIndex + 1)], active := Some(app), zIndex := d.zIndex + 1)
  }

  /** `showWindow` */
  function Show(d: Desk, app: string): Desk
  {
    if app !in d.windows then d
    else d.(windows := d.windows[app := d.windows[app].(shown := true, minimized := false)])
  }

  /** `hideWindow` */
  function Hide(d: Desk, app: string): Desk
  {
    if app !in d.windows then d
    else d.(windows := d.windows[app := d.windows[app].(shown := false, minimized := true)])
  }

  /**
   * `createWindow`: a restored window cascaded 30 pixels per window already
   * open, 800 by 600, registered, shown and focused.
   */
  function Create(d: Desk, app: string): Desk
  {
    var n := |d.windows|;
    var home := Box(100 + n * 30, 50 + n * 30, 800, 600);
    var registered := d.(windows := d.windows[app := Window(false, false, false, 0, home, home)],
                         order := if app in d.windows then d.order else d.order + [app]);
    Focus(Show(registered, app), app)
  }

  /**
   * `closeWindow`: the window and its button go; if it was active, the first
   * window still open (if any) is focused.
   */
  function Close(d: Desk, app: string): Desk
  {
    if app !in d.windows then d
    else
      var gone := d.(windows := d.windows - {app}, order := Without(d.order, app), taskbar := d.taskbar - {app});
      if d.active == Some(app) then
        var none := gone.(active := None);
        if none.order != [] then Focus(none, none.order[0]) else none
      else gone
  }

  /** `minimizeWindow` */
  function Minimize(d: Desk, app: string): Desk
  {
    var hidden := Hide(d, app);
    if d.active == Some(app) then hidden.(active := None) else hidden
  }

  /** `parseInt(value) || fallback` on a pixel value: 0 is falsy, so it gives the fallback too. */
  function OrDefault(v: int, fallback: int): int
  {
    if v == 0 then fallback else v
  }

  /** The box `toggleMaximize` records before maximizing. */
  function Recorded(b: Box): Box
  {
    Box(OrDefault(b.left, 100), OrDefault(b.top, 50), OrDefault(b.width, 800), OrDefault(b.height, 600))
  }

  /** `toggleMaximize`: maximizing records the box, restoring puts the recorded box back. */
  function FlipMaximized(d: Desk, app: string): Desk
  {
    if app !in d.windows then d
    else
      var w := d.windows[app];
      var next := if w.maximized then w.(style := w.original, maximized := false)
                  else w.(original := Recorded(w.style), maximized := true);
      d.(windows := d.windows[app := next])
  }

  /** The label of a taskbar button: `appNames[appName] || appName`. */
  function Label(app: string): string
  {
    if app == "terminal" then "Terminal"
    else if app == "file-manager" then "Files"
    else if app == "text-editor" then "Editor"
    else if app == "calculator" then "Calculator"
    else if app == "notes" then "notes.txt"
    else app
  }

  /** `addToTaskbar` */
  function WithButton(d: Desk, app: string): Desk
  {
    if app in d.taskbar then d else d.(taskbar := d.taskbar[app := Label(app)])
  }

  /** `removeFromTaskbar` */
  function WithoutButton(d: Desk, app: string): Desk
  {
    d.(taskbar := d.taskbar - {app})
  }

  /**
   * `openApplication`: an open window is shown and focused; otherwise, when
   * the page has a window element for the app, a window is created and gets
   * a taskbar button.
   */
  function Open(d: Desk, app: string, hasElement: bool): Desk
  {
    if app in d.windows then Focus(Show(d, app), app)
    else if !hasElement then d
    else WithButton(Create(d, app), app)
  }

  /**
   * `toggleApplication`: a minimized or inactive open window is brought back,
   * the active one is minimized, and a closed app is opened.
   */
  function Toggle(d: Desk, app: string, hasElement: bool): Desk
  {
    if app in d.windows then
      if d.windows[app].minimized || d.active != Some(app) then Focus(Show(d, app), app)
      else Minimize(d, app)
    else Open(d, app, hasElement)
  }

  /** The focused window is active and stacked above every other window. */
  lemma FocusOnTop(d: Desk, app: string)
    requires DeskValid(d) && app in d.windows
    ensures var r := Focus(d, app);
            r.active == Some(app) && r.zIndex > d.zIndex && r.windows.Keys == d.windows.Keys &&
            forall a :: a in r.windows && a != app ==> r.windows[a].z < r.windows[app].z
  {
  }

  /** Focusing an app that has no window changes nothing. */
  lemma FocusUnknown(d: Desk, app: string)
    requires app !in d.windows
    ensures Focus(d, app) == d
  {
  }

  lemma FocusValid(d: Desk, app: string)
    requires DeskValid(d)
    ensures DeskValid(Focus(d, app))
  {
  }

  /**
   * Closing a window removes it and its button and keeps every other window;
   * when it was active the first remaining window becomes active, or none.
   */
  lemma CloseEffect(d: Desk, app: string)
    requires DeskValid(d) && app in d.windows
    ensures var r := Close(d, app);
            app !in r.windows && app !in r.taskbar && app !in r.order &&
            (forall a :: a in r.windows <==> a in d.windows && a != app) &&
            r.active == if d.active != Some(app) then d.active
                        else if Without(d.order, app) == [] then None
                        else Some(Without(d.order, app)[0])
  {
    var gone := d.(windows := d.windows - {app}, order := Without(d.order, app), taskbar := d.taskbar - {app});
    if d.active == Some(app) {
      var none := gone.(active := None);
      if none.order != [] {
        assert none.order[0] in d.order && none.order[0] != app;
        assert Close(d, app) == Focus(none, none.order[0]);
      } else {
        assert Close(d, app) == none;
      }
    } else {
      assert Close(d, app) == gone;
    }
  }

  lemma CloseValid(d: Desk, app: string, r: Desk)
    requires DeskValid(d) && r == Close(d, app)
    ensures DeskValid(r)
  {
    if app in d.windows {
      WithoutDistinct(d.order, app);
      var gone := d.(windows := d.windows - {app}, order := Without(d.order, app), taskbar := d.taskbar - {app});
      assert DeskValid(gone.(active := None));
      if d.active == Some(app) && gone.order != [] {
        FocusValid(gone.(active := None), gone.order[0]);
      }
    }
  }

  /** A second `addToTaskbar` for the same app adds nothing. */
  lemma AddToTaskbarTwice(d: Desk, app: string)
    ensures WithButton(WithButton(d, app), app) == WithButton(d, app)
    ensures app in WithButton(d, app).taskbar
  {
  }

  /**
   * Maximizing and then restoring puts back the box recorded when maximizing:
   * the window's own box, except that a zero coordinate or size falls back
   * to its default.
   */
  lemma ToggleMaximizeTwice(d: Desk, app: string)
    requires app in d.windows && !d.windows[app].maximized
    ensures var r := FlipMaximized(FlipMaximized(d, app), app);
            var w := d.windows[app];
            r.windows == d.windows[app := w.(original := Recorded(w.style), style := Recorded(w.style))] &&
            r.windows[app].style == Recorded(w.style) &&
            r.active == d.active && r.zIndex == d.zIndex && r.taskbar == d.taskbar
  {
  }

  /** A window whose box has no zero in it gets exactly its box back. */
  lemma RecordedNonZero(b: Box)
    requires b.left != 0 && b.top != 0 && b.width != 0 && b.height != 0
    ensures Recorded(b) == b
  {
  }

  /** Maximizing or restoring an app that has no window changes nothing. */
  lemma ToggleMaximizeUnknown(d: Desk, app: string)
    requires app !in d.windows
    ensures FlipMaximized(d, app) == d
  {
  }

  /**
   * After `openApplication` of an app that is open or has a window element,
   * its window is registered, shown, active and on the taskbar.
   */
  lemma OpenEffect(d: Desk, app: string, hasElement: bool)
    requires DeskValid(d) && (app in d.windows || hasElement)
    ensures var r := Open(d, app, hasElement);
            app in r.windows && r.windows[app].shown && !r.windows[app].minimized &&
            r.active == Some(app) && app in r.taskbar && DeskValid(r)
  {
    if app !in d.windows {
      CreateEffect(d, app);
    } else {
      FocusValid(Show(d, app), app);
    }
  }

  /** A created window with its button: registered last, shown, focused, and the registry still valid. */
  lemma CreateEffect(d: Desk, app: string)
    requires DeskValid(d) && app !in d.windows
    ensures var r := WithButton(Create(d, app), app);
            app in r.windows && r.windows[app].shown && !r.windows[app].minimized &&
            r.active == Some(app) && app in r.taskbar && DeskValid(r) && r.order == d.order + [app]
  {
    var n := |d.windows|;
    var home := Box(100 + n * 30, 50 + n * 30, 800, 600);
    var w := Window(false, false, true, d.zIndex + 1, home, home);
    CreateShape(d, app, w);
    RegisterValid(d, app, w, Label(app));
  }

  lemma CreateShape(d: Desk, app: string, w: Window)
    requires app !in d.windows && app !in d.taskbar
    requires var n := |d.windows|;
             var home := Box(100 + n * 30, 50 + n * 30, 800, 600);
             w == Window(false, false, true, d.zIndex + 1, home, home)
    ensures WithButton(Create(d, app), app) ==
            Desk(d.windows[app := w], d.order + [app], Some(app), d.zIndex + 1, d.taskbar[app := Label(app)])
  {
  }

  /** Registering a new key last, focused and with a button keeps the registry valid. */
  lemma RegisterValid(d: Desk, app: string, w: Window, caption: string)
    requires DeskValid(d) && app !in d.windows && w.z == d.zIndex + 1
    ensures DeskValid(Desk(d.windows[app := w], d.order + [app], Some(app), d.zIndex + 1, d.taskbar[app := caption]))
  {
    AppendDistinct(d.order, app);
  }

  /** A key not yet listed can be appended to a list of distinct keys. */
  lemma AppendDistinct(s: seq<string>, x: string)
    requires Distinct(s) && x !in s
    ensures Distinct(s + [x])
  {
    var t := s + [x];
    forall i, j | 0 <= i < j < |t| ensures t[i] != t[j] {
      if j == |s| {
        assert t[i] == s[i];
      }
    }
  }

  /**
   * Toggling an open app either brings it back shown and active, or, when it
   * was the active window and not minimized, minimizes it and leaves no
   * window active.
   */
  lemma ToggleOpen(d: Desk, app: string, hasElement: bool)
    requires DeskValid(d) && app in d.windows
    ensures var r := Toggle(d, app, hasElement);
            var w := r.windows[app];
            r.windows.Keys == d.windows.Keys && DeskValid(r) &&
            if d.windows[app].minimized || d.active != Some(app) then w.shown && !w.minimized && r.active == Some(app)
            else !w.shown && w.minimized && r.active == None
  {
  }

  /** Showing, hiding, minimizing and maximizing keep the registry consistent. */
  lemma ShowValid(d: Desk, app: string)
    requires DeskValid(d)
    ensures DeskValid(Show(d, app))
  {
  }

  lemma HideValid(d: Desk, app: string)
    requires DeskValid(d)
    ensures DeskValid(Hide(d, app))
  {
  }

  lemma MinimizeValid(d: Desk, app: string)
    requires DeskValid(d)
    ensures DeskValid(Minimize(d, app))
  {
    HideValid(d, app);
  }

  lemma FlipMaximizedValid(d: Desk, app: string)
    requires DeskValid(d)
    ensures DeskValid(FlipMaximized(d, app))
  {
  }

  /** A created window is consistent with the registry once its button is added. */
  lemma CreateValid(d: Desk, app: string, r: Desk)
    requires DeskValid(d) && r == Create(d, app)
    ensures DeskValid(WithButton(r, app))
  {
    if app !in d.windows {
      CreateEffect(d, app);
    }
  }

  /** Opening and toggling keep the registry consistent. */
  lemma OpenToggleValid(d: Desk, app: string, hasElement: bool)
    requires DeskValid(d)
    ensures DeskValid(Open(d, app, hasElement)) && DeskValid(Toggle(d, app, hasElement))
  {
    if app in d.windows {
      OpenEffect(d, app, hasElement);
      ToggleOpen(d, app, hasElement);
    } else if hasElement {
      OpenEffect(d, app, hasElement);
    }
  }

  /** The window manager of the desktop. */
  class DesktopManager {
    var windows: map<string, Window>
    var order: seq<string>
    var activeWindow: Option<string>
    var zIndex: int
    var taskbarApps: map<string, string>
    /** The apps the page has a window element for. */
    const elements: set<string>

    function State(): Desk
      reads this
    {
      Desk(windows, order, activeWindow, zIndex, taskbarApps)
    }

    ghost predicate Valid()
      reads this
    {
      DeskValid(State())
    }

    constructor(elements: set<string>)
      ensures Valid() && State() == Desk(map[], [], None, 100, map[]) && this.elements == elements
    {
      windows := map[];
      order := [];
      activeWindow := None;
      zIndex := 100;
      taskbarApps := map[];
      this.elements := elements;
    }

    method OpenApplication(app: string)
      requires Valid()
      modifies this
      ensures State() == Open(old(State()), app, app in elements) && Valid()
    {
      OpenToggleValid(State(), app, app in elements);
      var open := IsApplicationOpen(app);
      if open {
        ShowWindow(app);
        FocusWindow(app);
        return;
      }
      if app !in elements {
        return;
      }
      CreateWindow(app);
      AddToTaskbar(app);
    }

    /**
     * Called before the window's taskbar button exists: from a consistent
     * registry, it is consistent again once the button is added.
     */
    method CreateWindow(app: string)
      modifies this
      ensures State() == Create(old(State()), app)
      ensures old(Valid()) ==> DeskValid(WithButton(State(), app))
    {
      ghost var before := State();
      var n := |windows|;
      var home := Box(100 + n * 30, 50 + n * 30, 800, 600);
      if app !in windows {
        order := order + [app];
      }
      windows := windows[app := Window(false, false, false, 0, home, home)];
      ShowWindow(app);
      FocusWindow(app);
      if DeskValid(before) {
        CreateValid(before, app, State());
      }
    }

    /**
     * Also called half way through `createWindow`, before the registry is
     * consistent, so validity is not required here; `ShowValid` says it is kept.
     */
    method ShowWindow(app: string)
      modifies this
      ensures State() == Show(old(State()), app)
    {
      if app in windows {
        windows := windows[app := windows[app].(shown := true, minimized := false)];
      }
    }

    method HideWindow(app: string)
      requires Valid()
      modifies this
      ensures State() == Hide(old(State()), app) && Valid()
    {
      HideValid(State(), app);
      if app in windows {
        windows := windows[app := windows[app].(shown := false, minimized := true)];
      }
    }

    method CloseWindow(app: string)
      requires Valid()
      modifies this
      ensures State() == Close(old(State()), app) && Valid()
    {
      ghost var before := State();
      if app in windows {
        windows := windows - {app};
        order := Without(order, app);
        RemoveFromTaskbar(app);
        ghost var gone := State();
        assert gone == before.(windows := before.windows - {app}, order := Without(before.order, app), taskbar := before.taskbar - {app});
        if activeWindow == Some(app) {
          activeWindow := None;
          // `order` is `Array.from(this.windows.keys())`
          if |order| > 0 {
            FocusWindow(order[0]);
          }
        }
      }
      CloseValid(before, app, State());
    }

    method MinimizeWindow(app: string)
      requires Valid()
      modifies this
      ensures State() == Minimize(old(State()), app) && Valid()
    {
      MinimizeValid(State(), app);
      HideWindow(app);
      if activeWindow == Some(app) {
        activeWindow := None;
      }
    }

    method ToggleMaximize(app: string)
      requires Valid()
      modifies this
      ensures State() == FlipMaximized(old(State()), app) && Valid()
    {
      FlipMaximizedValid(State(), app);
      if app !in windows {
        return;
      }
      var w := windows[app];
      if w.maximized {
        w := w.(style := w.original, maximized := false);
      } else {
        var recorded := Box(OrDefault(w.style.left, 100), OrDefault(w.style.top, 50),
                            OrDefault(w.style.width, 800), OrDefault(w.style.height, 600));
        w := w.(original := recorded, maximized := true);
      }
      windows := windows[app := w];
    }

    /**
     * Also called half way through `createWindow`, before the registry is
     * consistent, so validity is not required here; `FocusValid` says it is kept.
     */
    method FocusWindow(app: string)
      modifies this
      ensures State() == Focus(old(State()), app)
    {
      if app in windows {
        zIndex := zIndex + 1;
        windows := windows[app := windows[app].(z := zIndex)];
        activeWindow := Some(app);
      }
    }

    method AddToTaskbar(app: string)
      modifies this
      ensures State() == WithButton(old(State()), app)
    {
      if app in taskbarApps {
        return;
      }
      taskbarApps := taskbarApps[app := Label(app)];
    }

    method RemoveFromTaskbar(app: string)
      modifies this
      ensures State() == WithoutButton(old(State()), app)
    {
      if app in taskbarApps {
        taskbarApps := taskbarApps - {app};
      }
    }

    method ToggleApplication(app: string)
      requires Valid()
      modifies this
      ensures State() == Toggle(old(State()), app, app in elements) && Valid()
    {
      OpenToggleValid(State(), app, app in elements);
      var open := IsApplicationOpen(app);
      if open {
        if windows[app].minimized || activeWindow != Some(app) {
          ShowWindow(app);
          FocusWindow(app);
        } else {
          MinimizeWindow(app);
        }
      } else {
        OpenApplication(app);
      }
    }

    method IsApplicationOpen(app: string) returns (open: bool)
      ensures open <==> app in State().windows
    {
      open := app in windows;
    }
  }

  // ---------------------------------------------------------------- file manager

  /** The file manager's place: the directory shown, the visited paths and the position among them. */
  datatype Nav = Nav(path: string, history: seq<string>, index: int)

  /** The position lies within the history and the directory shown is the one at that position. */
  ghost predicate NavValid(n: Nav)
  {
    0 <= n.index < |n.history| && n.path == n.history[n.index]
  }

  /** `navigateTo`: drop the forward entries, then visit the path. */
  function Visit(n: Nav, path: string): Nav
  {
    var kept := if n.index < |n.history| - 1 && n.index + 1 >= 0 then n.history[..n.index + 1] else n.history;
    Nav(path, kept + [path], |kept + [path]| - 1)
  }

  /** `goBack` */
  function Back(n: Nav): Nav
    requires NavValid(n)
  {
    if n.index > 0 then Nav(n.history[n.index - 1], n.history, n.index - 1) else n
  }

  /** `goForward` */
  function Forward(n: Nav): Nav
    requires NavValid(n)
  {
    if n.index < |n.history| - 1 then Nav(n.history[n.index + 1], n.history, n.index + 1) else n
  }

  /** `goUp`: the text before the last `/`, or `/`; nothing at the root. */
  function Up(n: Nav): Nav
  {
    var parent := ParentPath(n.path);
    if parent != n.path then Visit(n, parent) else n
  }

  /** `openDirectory`: the child path with runs of `/` collapsed. */
  function Enter(n: Nav, name: string): Nav
  {
    Visit(n, CollapseSlashes(n.path + "/" + name))
  }

  /**
   * Visiting a path keeps the history up to the current position, adds the
   * path after it and moves there; nothing lies ahead any more.
   */
  lemma NavigateToEffect(n: Nav, path: string)
    requires NavValid(n)
    ensures var r := Visit(n, path);
            NavValid(r) && r.path == path && r.history == n.history[..n.index + 1] + [path] &&
            r.index == n.index + 1 && Forward(r) == r
  {
    assert n.index == |n.history| - 1 ==> n.history[..n.index + 1] == n.history;
  }

  /** Going back after visiting a path returns to where the visit started. */
  lemma NavigateThenBack(n: Nav, path: string)
    requires NavValid(n)
    ensures NavValid(Visit(n, path)) && Back(Visit(n, path)).path == n.path
  {
    NavigateToEffect(n, path);
  }

  /**
   * Opening a folder visits its path, written without doubled slashes and
   * with the folder's name as its last segment; going back returns to the
   * directory it was opened from.
   */
  lemma OpenDirectoryEffect(n: Nav, name: string)
    requires NavValid(n) && '/' !in name && name != ""
    ensures var r := Enter(n, name);
            NavValid(r) && NoDoubleSlash(r.path) && Segments(r.path) == Segments(n.path) + [name] &&
            r.history == n.history[..n.index + 1] + [r.path] && Back(r).path == n.path
  {
    CollapseNoDoubleSlash(n.path + "/" + name);
    Commands.ChildSegments(n.path, name);
    NavigateToEffect(n, CollapseSlashes(n.path + "/" + name));
  }

  /** Back and forward undo each other wherever they move. */
  lemma BackForward(n: Nav)
    requires NavValid(n)
    ensures NavValid(Back(n)) && NavValid(Forward(n))
    ensures n.index > 0 ==> Forward(Back(n)) == n
    ensures n.index < |n.history| - 1 ==> Back(Forward(n)) == n
    ensures n.index == 0 ==> Back(n) == n
    ensures n.index == |n.history| - 1 ==> Forward(n) == n
  {
  }

  /** Up at the root changes nothing; elsewhere it visits the parent path. */
  lemma UpEffect(n: Nav)
    requires NavValid(n)
    ensures n.path == "/" ==> Up(n) == n
    ensures ParentPath(n.path) != n.path ==>
              (NavValid(Up(n)) && Up(n).path == ParentPath(n.path) && Up(n).index == n.index + 1)
  {
    if ParentPath(n.path) != n.path {
      NavigateToEffect(n, ParentPath(n.path));
    }
  }

  /** The file manager: where it is and where it has been. */
  class FileManager {
    var currentPath: string
    var history: seq<string>
    var historyIndex: int

    function State(): Nav
      reads this
    {
      Nav(currentPath, history, historyIndex)
    }

    ghost predicate Valid()
      reads this
    {
      NavValid(State())
    }

    constructor()
      ensures Valid() && State() == Nav(Home, [Home], 0)
    {
      currentPath := Home;
      history := [Home];
      historyIndex := 0;
    }

    method OpenDirectory(name: string)
      requires Valid()
      modifies this
      ensures State() == Enter(old(State()), name) && Valid()
    {
      var newPath := CollapseSlashes(currentPath + "/" + name);
      NavigateTo(newPath);
    }

    method NavigateTo(path: string)
      requires Valid()
      modifies this
      ensures State() == Visit(old(State()), path) && Valid()
    {
      NavigateToEffect(State(), path);
      currentPath := path;
      if historyIndex < |history| - 1 && historyIndex + 1 >= 0 {
        history := history[..historyIndex + 1];
      }
      history := history + [path];
      historyIndex := |history| - 1;
    }

    method GoBack()
      requires Valid()
      modifies this
      ensures State() == Back(old(State())) && Valid()
    {
      if historyIndex > 0 {
        historyIndex := historyIndex - 1;
        currentPath := history[historyIndex];
      }
    }

    method GoForward()
      requires Valid()
      modifies this
      ensures State() == Forward(old(State())) && Valid()
    {
      if historyIndex < |history| - 1 {
        historyIndex := historyIndex + 1;
        currentPath := history[historyIndex];
      }
    }

    method GoUp()
      requires Valid()
      modifies this
      ensures State() == Up(old(State())) && Valid()
    {
      var parentPath := ParentPath(currentPath);
      if parentPath != currentPath {
        NavigateTo(parentPath);
      }
    }
  }

  // ---------------------------------------------------------------- text editor

  /**
   * `saveFile`'s write: under an existing parent directory the entry named
   * by the path becomes a file with the given content, whatever it was
   * before; without a parent directory nothing is written.
   */
  function Save(root: Node, path: string, content: string): Option<Node>
  {
    match DirectoryContents(root, ParentPath(path))
    case None => None
    case Some(es) => Some(SetDir(root, Segments(ParentPath(path)), Put(es, FileName(path), File(content))))
  }

  /** What was saved is what `openFile` reads back from the same path. */
  lemma SaveThenOpen(root: Node, path: string, content: string)
    requires Save(root, path, content).Some?
    ensures GetFile(Save(root, path, content).value, path) == Some(File(content))
  {
    var es := DirectoryContents(root, ParentPath(path)).value;
    var after := Save(root, path, content).value;
    assert Walk(after, Segments(ParentPath(path))) == Some(Dir(Put(es, FileName(path), File(content))));
  }

  /**
   * Saving replaces the entry at the path, with everything below it, by the
   * file, and changes no other path.
   */
  lemma SaveEffect(root: Node, path: string, content: string, q: seq<string>)
    requires Save(root, path, content).Some?
    ensures var t := Segments(ParentPath(path)) + [FileName(path)];
            KindAt(Save(root, path, content).value, q) ==
            if t <= q then (if |q| == |t| then Some(FileKind(content)) else None) else KindAt(root, q)
  {
    var parent := Segments(ParentPath(path));
    var es := DirectoryContents(root, ParentPath(path)).value;
    PutEntryKinds(root, parent, es, FileName(path), File(content), q);
    if parent + [FileName(path)] <= q && |q| > |parent| + 1 {
      assert q[|parent| + 1..] != [];
    }
  }

  lemma SaveWellFormed(root: Node, path: string, content: string)
    requires WellFormed(root) && Save(root, path, content).Some?
    ensures WellFormed(Save(root, path, content).value) && Save(root, path, content).value.Dir?
  {
    var parent := Segments(ParentPath(path));
    var es := DirectoryContents(root, ParentPath(path)).value;
    WalkWellFormed(root, parent);
    PutWellFormed(es, FileName(path), File(content));
    SetDirWellFormed(root, parent, Put(es, FileName(path), File(content)));
  }

  /** The text editor: its text, the file it came from and the window title. */
  class TextEditor {
    var content: string
    var currentFile: Option<string>
    var title: string

    constructor()
      ensures content == "" && currentFile == None && title == "Text Editor - untitled.txt"
    {
      content := "";
      currentFile := None;
      title := "Text Editor - untitled.txt";
    }

    /** `openFile`: load a file of the terminal's tree; a missing path or a directory changes nothing. */
    method OpenFile(terminal: Terminal?, filePath: string)
      modifies this
      ensures terminal != null && GetFile(terminal.fs, filePath).Some? && GetFile(terminal.fs, filePath).value.File? ==>
                content == GetFile(terminal.fs, filePath).value.content && currentFile == Some(filePath) &&
                title == "Text Editor - " + FileName(filePath)
      ensures !(terminal != null && GetFile(terminal.fs, filePath).Some? && GetFile(terminal.fs, filePath).value.File?) ==>
                content == old(content) && currentFile == old(currentFile) && title == old(title)
    {
      if terminal == null {
        return;
      }
      var file := GetFileNode(terminal.fs, filePath);
      if file.Some? && file.value.File? {
        content := file.value.content;
        currentFile := Some(filePath);
        title := "Text Editor - " + FileName(filePath);
      }
    }

    /**
     * `saveFile`: write the text to the current file, or to the name typed
     * into the dialog (resolved against the terminal's directory) when there
     * is none; an empty answer cancels.
     */
    method SaveFile(terminal: Terminal?, typed: string)
      requires terminal != null ==> terminal.Valid()
      modifies this, terminal
      ensures terminal != null ==> terminal.Valid()
      ensures terminal == null || (old(currentFile).None? && typed == "") ==>
                content == old(content) && currentFile == old(currentFile) && title == old(title) &&
                (terminal != null ==> terminal.fs == old(terminal.fs))
      ensures terminal != null && (old(currentFile).Some? || typed != "") ==>
                var path := if old(currentFile).Some? then old(currentFile).value else ResolvePath(typed, old(terminal.currentPath));
                var saved := Save(old(terminal.fs), path, old(content));
                content == old(content) &&
                (saved.None? ==> terminal.fs == old(terminal.fs) && currentFile == old(currentFile) && title == old(title)) &&
                (saved.Some? ==> terminal.fs == saved.value && currentFile == Some(path) && title == "Text Editor - " + FileName(path))
      ensures terminal != null ==> terminal.State() == old(terminal.State()).(fs := terminal.fs) && terminal.Session() == old(terminal.Session())
    {
      if terminal == null {
        return;
      }
      var filePath: string;
      if currentFile.Some? {
        filePath := currentFile.value;
      } else {
        if typed == "" {
          return;
        }
        filePath := ResolvePath(typed, terminal.currentPath);
      }
      var saved := WriteFile(terminal.fs, filePath, content);
      if saved.Some? {
        SaveWellFormed(terminal.fs, filePath, content);
        terminal.ReplaceTree(saved.value);
        currentFile := Some(filePath);
        title := "Text Editor - " + FileName(filePath);
      }
    }
  }

  /** The write itself: `parent[fileName] = {type: 'file', content}` when the parent directory exists. */
  method WriteFile(root: Node, filePath: string, text: string) returns (saved: Option<Node>)
    ensures saved == Save(root, filePath, text)
  {
    var parentPath := ParentPath(filePath);
    var fileName := FileName(filePath);
    var parent := GetDirectoryContents(root, parentPath);
    if parent.None? {
      return None;
    }
    saved := Some(SetDir(root, Segments(parentPath), Put(parent.value, fileName, File(text))));
  }
}
