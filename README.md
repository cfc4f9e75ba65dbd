# Dark Session desktop — a verified model

Dark Session is a browser game that puts the player in front of a fake Linux
desktop. This project models its core in Dafny and proves properties of that
model.

- **The desktop terminal** (`Desktop/terminal.js`, module `Terminals`, with the
  pure command semantics in `Commands`). It keeps a virtual file system: a tree
  of directories and files whose entries are listed in `Object.keys` order:
  names that are array indices (`2`, `10`, …) first, in ascending numeric
  order, then the other names in the order they were added (module `Vfs`). It also keeps a current directory, a prompt, a command history and
  the output lines. The commands are `ls`, `cd`, `pwd`, `cat`, `mkdir`,
  `touch`, `rm`, `echo`, `date`, `whoami`, `uname`, `ps`, `clear`, `history`,
  `grep`, `find`, `tree`, `ipconfig`, `who` and `help`. History navigation and
  tab completion are modelled too. Path handling (`resolvePath`,
  `getParentPath`, `getFileName`) is in `Paths`. The string primitives the
  code relies on (`split`, `trim`, `toLowerCase`, `padStart`, `lastIndexOf`,
  `includes`, `replace(/\/+/g, '/')`) are in `Text`.
- **The desktop shell** (`Desktop/desktop.js`, module `Desktop`):
  - the window manager: open, create, show, hide, close, minimise,
    maximise/restore, focus, taskbar buttons, toggling from the taskbar;
  - the file manager's navigation: open folder, navigate, back, forward, up;
  - the text editor's open and save against the terminal's file system.
- **The two earlier level terminals** (`script_pwd.js` and `script.js`, module
  `Levels`). Each has a fixed table of directories and the `pwd`/`ls`/`cd`/
  `clear`/`help` branches. The log level adds `cat`/`grep`/`tail` on four log
  files, with lines coloured by severity.
- **The landing page's terminal** (`terminal.js`, module `Console`). Its
  `handleCommand` lowercases the command before the switch. Its fallback
  rules are: `echo ` echoes the original text, anything starting with `uname`
  prints the kernel line, and everything else prints
  `Komut bulunamadı: <command>`.
- **The landing page's window chrome** (`script_window.js`, module
  `WindowChrome`): the fixed-date 12-hour clock, and the double-click
  full-screen toggle that remembers the previous style.
- **The browser's address bar** (`firefox.js`, module `Browser`): an address
  that does not start with `http` gets `http://` in front.

Each JavaScript class whose methods update fields is a Dafny `class` with the
same fields. Each method is proved to leave the object in the state that a
function on a plain record describes. The properties are then lemmas about
those functions. The terminal's loops keep their loop form, with invariants:
- walking a path (`getDirectoryContents`);
- listing entries;
- the `grep` filter;
- the recursive `find` and `tree` walks.

Where a nested JavaScript object is mutated in place (`parent[name] = …`), the
model rebuilds the tree along the path (`Vfs.SetDir`). It proves that exactly
the paths at and below the changed entry change (`Vfs.SetDirKinds`).

## Model

| member | source | states |
|---|---|---|
| Text.Split | Desktop/terminal.js:158 | `split` on a character yields at least one part, and no part contains the separator |
| Text.JoinSplit | Desktop/terminal.js:518 | joining the parts of a split with the separator gives the original text back |
| Text.SplitAround | Desktop/terminal.js:630 | splitting `x + c + y` on `c` is splitting `x` followed by splitting `y` |
| Text.NonEmpty | Desktop/terminal.js:630 | `filter(p => p)` keeps no empty part and never adds parts |
| Text.NonEmptyAppend | Desktop/terminal.js:630 | dropping empty parts distributes over concatenation |
| Text.ContainsAt | Desktop/terminal.js:587 | an occurrence of the pattern at some index makes `includes` true |
| Text.ContainsWitness | Desktop/terminal.js:587 | when `includes` is true, there is an index where the pattern occurs (the converse of ContainsAt) |
| Text.LastIndexOf | Desktop/terminal.js:622 | the result is -1 or an index holding the character, and no later index holds it |
| Text.CollapseSlashes | Desktop/terminal.js:617 | collapsing slash runs never lengthens a path and keeps its first character |
| Text.CollapseNoDoubleSlash | Desktop/terminal.js:617 | the collapsed path has no two adjacent slashes |
| Text.CollapseIdentity | Desktop/terminal.js:617 | a path without doubled slashes is left unchanged |
| Text.CollapseIdempotent | Desktop/terminal.js:585 | collapsing twice is the same as collapsing once |
| Text.SegmentsCollapse | Desktop/terminal.js:630 | collapsing slashes does not change the non-empty segments of a path |
| Text.TrimStart | Desktop/terminal.js:135 | strips a prefix made only of whitespace; the result starts with non-whitespace or is empty |
| Text.TrimEnd | Desktop/terminal.js:135 | strips a suffix made only of whitespace; the result ends with non-whitespace or is empty |
| Text.Trim | Desktop/terminal.js:135 | the trimmed text is no longer than the input and neither starts nor ends with whitespace |
| Text.ToLower | terminal.js:39 | same length; every character is mapped to its lower-case form |
| Text.PadStart | Desktop/terminal.js:499 | length is the larger of the text's and the width; the text is the suffix and the rest is the pad character |
| Text.NatToStringValue | Desktop/terminal.js:499 | the decimal digits of `n.toString()` read back as `n` |
| Paths.FileName | Desktop/terminal.js:625-627 | the name after the last slash contains no slash; a slash-free path is its own name |
| Paths.ParentPath | Desktop/terminal.js:620-623 | an absolute path's parent is absolute; the parent is `/`, or parent + `/` + name is the path |
| Paths.ParentSegments | Desktop/terminal.js:620-627 | a path's segments are its parent's segments followed by its name, when the name is non-empty |
| Paths.NoSlashSegments | Desktop/terminal.js:620-627 | a path without a slash has parent `/` and is its own name |
| Paths.RootSegments | Desktop/terminal.js:630 | `/` and the empty path both name the root |
| Paths.ResolvePath | Desktop/terminal.js:600-618 | from an absolute current directory, every resolved path is absolute |
| Paths.ResolveRelative | Desktop/terminal.js:613-617 | a relative path resolves to a path without doubled slashes whose segments are the current directory's followed by the path's (after a leading `./` is dropped) |
| Paths.ResolveDotDot | Desktop/terminal.js:609-611 | `..` resolves to the current directory minus its last segment |
| Vfs.Lookup | Desktop/terminal.js:634-637 | a name is found in a directory exactly when it is one of the directory's keys |
| Vfs.LookupAt | Desktop/terminal.js:634-637 | with unique keys, looking up an entry's name finds that entry's node |
| Vfs.Put | Desktop/terminal.js:367-370 | after `parent[name] = node` the name maps to the node and every other name maps to what it did before |
| Vfs.PutNames | Desktop/terminal.js:367-370 | a new key is inserted at its insertion point in `Object.keys` order (indices ascending first, then other names in the order added), and an existing key keeps its place |
| Vfs.PutShape | Desktop/terminal.js:367-370 | a new entry is inserted at its insertion point; an existing entry is replaced in place and the others are untouched |
| Vfs.PutInserts | Desktop/terminal.js:392-395 | assigning a key that is absent inserts exactly one entry, at its insertion point, and keeps the others in order around it |
| Vfs.InsertionPointBounds | Desktop/terminal.js:282 | the keys before a new key's insertion point are not listed after it by `Object.keys`, and the key at that point is |
| Vfs.NonIndexLast | Desktop/terminal.js:282 | a new name that is not an array index goes last: plain insertion order |
| Vfs.IndexKeysFirst | Desktop/terminal.js:280-282 | after `touch b`, `touch 10`, `touch 2`, the keys are listed `2`, `10`, `b` |
| Vfs.PutKeyOrdered | Desktop/terminal.js:367-370 | assignment keeps the keys in `Object.keys` order |
| Vfs.InsertedKeyOrdered | Desktop/terminal.js:367-370 | inserting a new key at its insertion point keeps the keys in `Object.keys` order |
| Vfs.DeleteKeyOrdered | Desktop/terminal.js:430 | deleting a key keeps the others in `Object.keys` order |
| Vfs.IndexValueDistinct | Desktop/terminal.js:282 | two distinct array-index keys have distinct numeric values, so their order is strict |
| Vfs.PutAtWellFormed | Desktop/terminal.js:367-370 | putting a well-formed node under a slash-free name in a directory of a well-formed tree keeps the tree well-formed |
| Vfs.PutOverwrites | Desktop/desktop.js:618-621 | assigning a present key keeps the length and replaces only that entry |
| Vfs.PutNamesHead | Desktop/desktop.js:618-621 | overwriting the first key keeps the key order |
| Vfs.PutUnique | Desktop/terminal.js:367-370 | assignment never creates a duplicate key |
| Vfs.PutWellFormed | Desktop/terminal.js:367-370 | assigning a well-formed node under a slash-free name keeps the directory well-formed |
| Vfs.Delete | Desktop/terminal.js:430 | after `delete parent[name]` the name is absent and every other name maps to what it did before |
| Vfs.DeleteMembers | Desktop/terminal.js:430 | the remaining entries are exactly the old ones with a different name |
| Vfs.DeleteSubsequence | Desktop/terminal.js:430 | deletion keeps the keys unique |
| Vfs.DeleteWellFormed | Desktop/terminal.js:430 | deletion keeps the directory well-formed |
| Vfs.WalkAppend | Desktop/terminal.js:633-638 | walking `a + b` is walking `a` and then walking `b` from where that ends |
| Vfs.DirectoryContents | Desktop/terminal.js:629-641 | contents are returned exactly when the path names a directory, and they are that directory's entries |
| Vfs.GetDirectoryContents | Desktop/terminal.js:629-641 | the loop over the path's segments returns exactly `DirectoryContents` |
| Vfs.GetFileWalks | Desktop/terminal.js:643-649 | for a path that ends in a name, `getFile` returns the node reached by walking its segments |
| Vfs.GetFileNode | Desktop/terminal.js:643-649 | the method returns exactly `GetFile` |
| Vfs.SetDir | Desktop/terminal.js:367-370 | after an in-place update, the directory at the path holds the new entries and the root is still a directory |
| Vfs.SetDirKinds | Desktop/terminal.js:367-370 | replacing the directory at a path changes what lies at and below that path and nothing else |
| Vfs.PutEntryKinds | Desktop/terminal.js:367-370 | assigning an entry changes only the paths at and below it, which now show the new node |
| Vfs.PutRest | Desktop/terminal.js:367-370 | below the assigned name lies the new node; every other path is unchanged |
| Vfs.DeleteEntryKinds | Desktop/terminal.js:430 | deleting an entry removes exactly the paths at and below it |
| Vfs.DeleteRest | Desktop/terminal.js:430 | nothing lies below the deleted name; every other path is unchanged |
| Vfs.KindBelow | Desktop/terminal.js:633-638 | what lies below a directory is what its own entries lead to |
| Vfs.SetDirWellFormed | Desktop/terminal.js:367-370 | installing well-formed entries keeps the tree well-formed |
| Vfs.ChildWellFormed | Desktop/terminal.js:637 | every child of a well-formed directory is well-formed and has a slash-free name |
| Vfs.WalkWellFormed | Desktop/terminal.js:633-638 | every node reachable from a well-formed tree is well-formed |
| Commands.ArgOr | Desktop/terminal.js:170 | `args[i] \|\| fallback` is the fallback or the argument, and is empty only when the fallback is |
| Commands.InitialTreeWellFormed | Desktop/terminal.js:31-102 | the initial file system is well-formed (unique, slash-free names at every level) |
| Commands.RootTreeWellFormed | Desktop/terminal.js:31-102 | the root level (`home`, `etc`, `usr`) is well-formed around a well-formed home |
| Commands.HomeTreeWellFormed | Desktop/terminal.js:31-102 | the user's home directory is well-formed whatever its file contents |
| Commands.DocumentsWellFormed | Desktop/terminal.js:31-102 | the documents folder is well-formed |
| Commands.InitialHome | Desktop/terminal.js:11-14 | the starting directory `/home/user` exists and holds the user's home entries |
| Commands.RootHome | Desktop/terminal.js:31-102 | `/home/user` is reached from the root |
| Commands.RootNames | Desktop/terminal.js:31-102 | the root holds nothing but `home`, `etc` and `usr` |
| Commands.VisibleMembers | Desktop/terminal.js:268-283 | without `-a`/`-la`, exactly the names that do not start with `.` are shown; with it, all are |
| Commands.EntryLines | Desktop/terminal.js:282-304 | one output line per shown entry, in key order; `ls -l` gives a file's size as the UTF-16 length of its content |
| Text.Utf16Length | Desktop/terminal.js:289 | a string's `length` lies between its number of characters and twice that |
| Text.Utf16LengthBmp | Desktop/terminal.js:289 | without characters above U+FFFF the `length` is the number of characters |
| Text.Utf16LengthAppend | Desktop/terminal.js:289 | the `length` of a concatenation is the sum of the lengths |
| Text.EmojiLength | Desktop/terminal.js:289 | one character above U+FFFF has `length` 2 |
| Commands.Ls | Desktop/terminal.js:266-276 | a path that is not a directory gives exactly the one "cannot access" error |
| Commands.LsFlagIsPath | Desktop/terminal.js:267 | as written, `ls -la` takes the flag as the path and reports it as missing |
| Commands.ShortPathSuffix | Desktop/terminal.js:652-653 | the prompt shows the directory itself, or `.../` followed by a suffix of it that starts after a slash |
| Commands.PromptAtHome | Desktop/terminal.js:651-654 | after `cd` home, the prompt shows `/home/user` in full and not the initial `~` |
| Commands.CatPrintsFile | Desktop/terminal.js:324-344 | `cat` prints a file's content, "Is a directory" for a directory, and "No such file or directory" otherwise |
| Commands.Mkdir | Desktop/terminal.js:346-373 | the tree is unchanged or is still a directory |
| Commands.MkdirEffect | Desktop/terminal.js:346-373 | when `mkdir` creates, exactly the target path becomes an empty directory and no other path changes; otherwise the tree is unchanged |
| Commands.MkdirNew | Desktop/terminal.js:367-372 | a new name in an existing directory is reported created and is then an empty directory |
| Commands.MkdirWellFormed | Desktop/terminal.js:346-373 | `mkdir` keeps the tree well-formed |
| Commands.Touch | Desktop/terminal.js:375-400 | the tree is unchanged or is still a directory |
| Commands.TouchEffect | Desktop/terminal.js:375-400 | when `touch` creates, exactly the target path becomes an empty file; otherwise the tree is unchanged |
| Commands.TouchTwice | Desktop/terminal.js:391-399 | touching twice leaves the same tree as touching once |
| Commands.TouchWellFormed | Desktop/terminal.js:375-400 | `touch` keeps the tree well-formed |
| Commands.Rm | Desktop/terminal.js:402-432 | `rm` is silent only under `-f`/`-rf`, and the tree is unchanged or is still a directory |
| Commands.RmKeeps | Desktop/terminal.js:416-428 | when nothing is removed, the tree is unchanged |
| Commands.RmEffect | Desktop/terminal.js:430 | a removal deletes exactly the target path and everything below it |
| Commands.RmRemovedTree | Desktop/terminal.js:412-430 | the removal is the deletion of the target's name from its parent directory |
| Commands.RmAncestorOfCwd | Desktop/terminal.js:425-430 | `rm -r` of the current directory or an ancestor leaves the current directory dangling |
| Commands.RmWellFormed | Desktop/terminal.js:402-432 | `rm` keeps the tree well-formed |
| Commands.Words | Desktop/terminal.js:158 | a command always splits into at least one word |
| Commands.EchoKeepsText | Desktop/terminal.js:187-188 | `echo` prints the rest of the line as typed |
| Commands.HistoryLines | Desktop/terminal.js:497-501 | one line per history entry |
| Commands.HistoryNumbering | Desktop/terminal.js:499 | each history line is its 1-based number padded to width 4, a space and the command |
| Commands.TrimPadded | Desktop/terminal.js:499 | stripping the padding gives back the number |
| Commands.Matching | Desktop/terminal.js:519 | the filter keeps no more lines than it is given |
| Commands.MatchingMembers | Desktop/terminal.js:519 | the kept lines are exactly the lines containing the pattern |
| Commands.Highlights | Desktop/terminal.js:525-528 | one highlighted output line per match |
| Commands.ChildSegments | Desktop/terminal.js:585 | a child's path has the parent's segments followed by the child's name |
| Commands.FindInSound | Desktop/terminal.js:578-597 | every path `find` reports exists, and its last segment contains the pattern |
| Commands.FindByPathDiverges | Desktop/terminal.js:578-597 | as written, `find` never finishes, for any recursion budget, in a directory holding an entry named `""` |
| Commands.SameDirectoryBelowEmpty | Desktop/terminal.js:585 | the path of a child named `""` collapses back to the parent's own directory |
| Commands.FindAllAgrees | Desktop/terminal.js:578-597 | on trees without empty names, the search as written (re-walking from the root) with enough budget returns exactly the corrected search's results |
| Commands.TreeLinesShape | Desktop/terminal.js:561-576 | `tree` prints one line per entry in the whole subtree, each starting with the current prefix |
| Commands.TreeExample | Desktop/terminal.js:561-576 | the connectors and indentation of a small tree are `├──`, `└──` and four blanks |
| Commands.Navigate | Desktop/terminal.js:663-677 | with no history nothing changes; otherwise the index stays within 0..length and the input is the entry there (or empty past the end); an in-range step moves by exactly the direction |
| Commands.RecallExample | Desktop/terminal.js:663-677 | three steps up and one down through `ls, pwd, cd /` recalls `pwd` |
| Commands.PrefixMatches | Desktop/terminal.js:687 | the filter never returns more names than it is given |
| Commands.PrefixMatchesMembers | Desktop/terminal.js:704 | the candidates are exactly the names that start with the typed prefix |
| Commands.RelativeAsWrittenSelf | Desktop/terminal.js:707-710 | as written, a match equal to the current directory completes to the empty word; the corrected rule keeps the path |
| Commands.RelativeAsWrittenAtRoot | Desktop/terminal.js:707-710 | as written, completing `/home` in `/` yields `ome`, which names `/ome` |
| Commands.RelativeResolves | Desktop/terminal.js:707-710 | the corrected completed word resolves from the current directory to exactly the matched path |
| Commands.CompletedWordExists | Desktop/terminal.js:698-713 | a unique completion names an existing entry of the parent directory that starts with the typed prefix |
| Commands.CompletionTarget | Desktop/terminal.js:707 | the matched path is absolute, has no doubled slash, and leads to the matched entry |
| Commands.Recognise | Desktop/terminal.js:162-222 | a word is recognised only as the command bearing that name |
| Commands.RecogniseName | Desktop/terminal.js:162-222 | every built-in is recognised by its own name |
| Commands.Process | Desktop/terminal.js:157-227 | only `mkdir`/`touch`/`rm` change the tree; only a successful `cd` moves, to an existing directory with its prompt; `clear` empties the output and every other command only appends; an unknown command appends the two error lines |
| Commands.ProcessKeepsValid | Desktop/terminal.js:157-227 | every command keeps the tree well-formed and the current path absolute |
| Commands.ResolveName | Desktop/terminal.js:613-627 | a plain name resolves to the child path, whose name is the name and whose parent is the current directory |
| Commands.ProcessMkdir | Desktop/terminal.js:178-179 | `mkdir name` runs `makeDirectory` on that name |
| Commands.MkdirCase | Desktop/terminal.js:178-179 | `mkdir` passes its first argument, or nothing |
| Commands.ProcessCd | Desktop/terminal.js:169-170 | `cd name` changes directory to that name |
| Commands.MkdirThenCd | Desktop/terminal.js:307-373 | `mkdir x` then `cd x` reports the creation and lands in a new empty directory with the matching prompt |
| Terminals.Terminal.constructor | Desktop/terminal.js:7-17 | a new terminal is in `/home/user` with prompt `~`, empty history, index -1, the initial tree and the welcome text |
| Terminals.Terminal.AppendOutput | Desktop/terminal.js:722-724 | appends exactly one line and changes nothing else |
| Terminals.Terminal.UpdatePrompt | Desktop/terminal.js:651-661 | the prompt becomes the prompt for the current directory and nothing else changes |
| Terminals.Terminal.ExecuteCommand | Desktop/terminal.js:134-155 | echoes the trimmed input after the prompt, records non-empty commands with the index past the end, clears the input, and runs the command |
| Terminals.Terminal.ProcessCommand | Desktop/terminal.js:157-227 | the new state is `Process` of the old one |
| Terminals.Terminal.ReplaceTree | Desktop/desktop.js:618-621 | installing a well-formed tree keeps the terminal valid and changes nothing else |
| Terminals.Terminal.ListDirectory | Desktop/terminal.js:266-305 | appends exactly `Ls` of the current tree |
| Terminals.Terminal.ListEntries | Desktop/terminal.js:282-304 | appends one line per shown entry, in key order |
| Terminals.ShownLines | Desktop/terminal.js:282-304 | the loop collects exactly the lines of the visible entries |
| Terminals.Terminal.ChangeDirectory | Desktop/terminal.js:307-318 | moves to the resolved directory and updates the prompt, or appends the error when it does not exist |
| Terminals.Terminal.CatFile | Desktop/terminal.js:324-344 | appends exactly `Cat`'s line |
| Terminals.Terminal.MakeDirectory | Desktop/terminal.js:346-373 | applies `Mkdir`'s change and its message |
| Terminals.Terminal.TouchFile | Desktop/terminal.js:375-400 | applies `Touch`'s change and its message |
| Terminals.Terminal.RemoveFile | Desktop/terminal.js:402-432 | applies `Rm`'s change, or nothing under `-f` |
| Terminals.Terminal.ShowHistory | Desktop/terminal.js:497-501 | appends the numbered history |
| Terminals.Terminal.Grep | Desktop/terminal.js:503-529 | appends exactly `Grep`'s lines |
| Terminals.GrepFile | Desktop/terminal.js:512-528 | a file yields its matching lines highlighted; anything else yields the "No such file" error |
| Terminals.MatchingLines | Desktop/terminal.js:519 | the filter loop returns exactly `Matching` |
| Terminals.Terminal.AppendLines | Desktop/terminal.js:525-528 | appends the lines in order |
| Terminals.Terminal.Find | Desktop/terminal.js:531-548 | appends exactly `Find`'s lines |
| Terminals.Terminal.FindInDirectory | Desktop/terminal.js:578-597 | returns the corrected recursive search's results |
| Terminals.FindEntries | Desktop/terminal.js:584-594 | the loop over a directory's keys returns exactly `FindIn` |
| Terminals.FindBelow | Desktop/terminal.js:585-593 | one entry contributes its own path when it matches, then the matches below it |
| Terminals.Terminal.ShowTree | Desktop/terminal.js:550-559 | appends exactly `Tree`'s lines |
| Terminals.Terminal.PrintTree | Desktop/terminal.js:561-576 | appends exactly `TreeLines` of the entries |
| Terminals.Terminal.PrintEntry | Desktop/terminal.js:564-574 | appends one entry's line and, for a directory, its subtree |
| Terminals.Terminal.NavigateHistory | Desktop/terminal.js:663-677 | the index and input become `Navigate`'s, and nothing else changes |
| Terminals.Terminal.AutoComplete | Desktop/terminal.js:679-720 | the input and output become `Complete`'s (corrected relative path, Findings row 2), and the tree, directory, prompt and history are unchanged |
| Terminals.Terminal.ApplyCompletion | Desktop/terminal.js:690-716 | writes a completion's input and lines, and nothing else |
| Terminals.Completing | Desktop/terminal.js:679-720 | returns exactly `Complete` (corrected relative path, Findings row 2) |
| Terminals.CompleteCommand | Desktop/terminal.js:684-695 | completing a single word returns exactly `Complete` |
| Terminals.CompletePath | Desktop/terminal.js:696-718 | completing a path returns exactly `Complete` (corrected relative path, Findings row 2) |
| Desktop.Without | Desktop/desktop.js:201 | deleting a key from the registry keeps exactly the other keys |
| Desktop.WithoutDistinct | Desktop/desktop.js:201 | deleting a key keeps the keys distinct |
| Desktop.FocusOnTop | Desktop/desktop.js:250-273 | focusing an open window makes it active and stacks it above every other window |
| Desktop.FocusUnknown | Desktop/desktop.js:261-262 | focusing an unknown window changes nothing |
| Desktop.FocusValid | Desktop/desktop.js:250-273 | focusing keeps the registry consistent |
| Desktop.CloseEffect | Desktop/desktop.js:197-214 | closing removes the window and its button; the active window is kept, or becomes the first remaining one, or none |
| Desktop.CloseValid | Desktop/desktop.js:197-214 | closing keeps the registry consistent |
| Desktop.ShowValid | Desktop/desktop.js:179-186 | showing keeps the registry consistent |
| Desktop.HideValid | Desktop/desktop.js:188-195 | hiding keeps the registry consistent |
| Desktop.MinimizeValid | Desktop/desktop.js:216-221 | minimising keeps the registry consistent |
| Desktop.FlipMaximizedValid | Desktop/desktop.js:223-248 | maximising or restoring keeps the registry consistent |
| Desktop.CreateValid | Desktop/desktop.js:159-177 | from a consistent registry, creating a window and adding its taskbar button gives a consistent registry |
| Desktop.OpenToggleValid | Desktop/desktop.js:123-157 | opening an app and toggling it from the taskbar keep the registry consistent |
| Desktop.AddToTaskbarTwice | Desktop/desktop.js:306-307 | adding a button twice is adding it once, and the button is there |
| Desktop.ToggleMaximizeTwice | Desktop/desktop.js:223-248 | maximising then restoring brings back the recorded box and changes nothing else |
| Desktop.RecordedNonZero | Desktop/desktop.js:235-238 | non-zero style numbers are recorded as they are |
| Desktop.ToggleMaximizeUnknown | Desktop/desktop.js:224-225 | maximising an unknown window changes nothing |
| Desktop.OpenEffect | Desktop/desktop.js:123-157 | opening an app leaves its window shown, not minimised, active and on the taskbar |
| Desktop.CreateEffect | Desktop/desktop.js:159-177 | a new window is registered last, shown, active and on the taskbar |
| Desktop.CreateShape | Desktop/desktop.js:159-177 | a new window is cascaded 30 px per open window from (100, 50) at 800×600, with a z-index one above the last, and its button gets the app's label |
| Desktop.RegisterValid | Desktop/desktop.js:171 | registering a new window above all others keeps the registry consistent |
| Desktop.ToggleOpen | Desktop/desktop.js:336-348 | the taskbar brings a minimised or background window to the front and minimises the active one |
| Desktop.DesktopManager.constructor | Desktop/desktop.js:7-14 | no windows, no active window, z-index 100, empty taskbar |
| Desktop.DesktopManager.OpenApplication | Desktop/desktop.js:123-157 | the new state is `Open` of the old one, and the registry stays consistent |
| Desktop.DesktopManager.CreateWindow | Desktop/desktop.js:159-177 | the new state is `Create` of the old one; from a consistent registry it is consistent again once the window's taskbar button is added |
| Desktop.DesktopManager.ShowWindow | Desktop/desktop.js:179-186 | the new state is `Show` of the old one |
| Desktop.DesktopManager.HideWindow | Desktop/desktop.js:188-195 | the new state is `Hide` of the old one, and the registry stays consistent |
| Desktop.DesktopManager.CloseWindow | Desktop/desktop.js:197-214 | the new state is `Close` of the old one, and the registry stays consistent |
| Desktop.DesktopManager.MinimizeWindow | Desktop/desktop.js:216-221 | the new state is `Minimize` of the old one, and the registry stays consistent |
| Desktop.DesktopManager.ToggleMaximize | Desktop/desktop.js:223-248 | the new state is `FlipMaximized` of the old one, and the registry stays consistent |
| Desktop.DesktopManager.FocusWindow | Desktop/desktop.js:250-273 | the new state is `Focus` of the old one |
| Desktop.DesktopManager.AddToTaskbar | Desktop/desktop.js:306-326 | the new state is `WithButton` of the old one |
| Desktop.DesktopManager.RemoveFromTaskbar | Desktop/desktop.js:328-334 | the new state is `WithoutButton` of the old one |
| Desktop.DesktopManager.ToggleApplication | Desktop/desktop.js:336-348 | the new state is `Toggle` of the old one, and the registry stays consistent |
| Desktop.DesktopManager.IsApplicationOpen | Desktop/desktop.js:350-352 | true exactly when the app has a registered window |
| Desktop.NavigateToEffect | Desktop/desktop.js:516-527 | navigating keeps the history up to the current position, adds the path and moves to it, leaving nothing to go forward to |
| Desktop.NavigateThenBack | Desktop/desktop.js:516-535 | navigating and then going back returns to the previous directory |
| Desktop.OpenDirectoryEffect | Desktop/desktop.js:499-502 | opening a folder visits its path, without doubled slashes and ending in the folder's name; back returns to where it was opened |
| Desktop.BackForward | Desktop/desktop.js:529-543 | back and forward undo each other where they move, and stop at the ends |
| Desktop.UpEffect | Desktop/desktop.js:545-550 | up does nothing at `/`, and otherwise navigates to the parent path |
| Desktop.FileManager.constructor | Desktop/desktop.js:448-456 | starts at `/home/user` with that path as the only history entry |
| Desktop.FileManager.OpenDirectory | Desktop/desktop.js:499-502 | the new state is `Enter` of the old one, and the position stays within the history, on the directory shown |
| Desktop.FileManager.NavigateTo | Desktop/desktop.js:516-527 | the new state is `Visit` of the old one, and the position stays within the history, on the directory shown |
| Desktop.FileManager.GoBack | Desktop/desktop.js:529-535 | the new state is `Back` of the old one |
| Desktop.FileManager.GoForward | Desktop/desktop.js:537-543 | the new state is `Forward` of the old one |
| Desktop.FileManager.GoUp | Desktop/desktop.js:545-550 | the new state is `Up` of the old one, and the position stays within the history, on the directory shown |
| Desktop.SaveThenOpen | Desktop/desktop.js:613-622 | what the editor saves is what opening the same path reads back |
| Desktop.SaveEffect | Desktop/desktop.js:613-622 | saving makes the path a file with the text and changes no other path outside it |
| Desktop.SaveWellFormed | Desktop/desktop.js:613-622 | saving keeps the tree well-formed |
| Desktop.TextEditor.constructor | Desktop/desktop.js:573-577 | a fresh editor is what `newFile` leaves: no text, no file, the untitled title |
| Desktop.TextEditor.OpenFile | Desktop/desktop.js:579-589 | a file loads its content, path and title; anything else leaves the editor unchanged |
| Desktop.TextEditor.SaveFile | Desktop/desktop.js:600-633 | saves to the current file or the typed name; under an existing parent, the tree, file and title are updated, and otherwise nothing changes |
| Desktop.WriteFile | Desktop/desktop.js:613-622 | returns exactly `Save` |
| Levels.DropLastChild | script.js:95-100 | `cd ..` from a child directory returns to its parent |
| Levels.KeyParents | script.js:48-57 | every table directory except home has its parent in the table |
| Levels.CdTarget | script.js:101-114 | `cd` moves to the absolute or joined path exactly when that path is in the table, and otherwise prints "No such directory" and stays |
| Levels.CdHomeAndUp | script.js:90-100 | `cd`, `cd ~` go home; `cd ..` at home stays |
| Levels.Colours | script.js:144-156 | one coloured line per log line, each coloured by its own severity |
| Levels.ClassifyOrder | script.js:145-155 | the first keyword present wins, in the order INFO, WARNING, ERROR, CRITICAL; a line without one is printed as is |
| Levels.TailLast | script.js:214 | `tail` keeps the last five lines, or all of them when there are fewer |
| Levels.CatPlain | script.js:140-157 | a log without severity keywords is printed verbatim by `cat` |
| Levels.PlainBlock | script.js:157 | joining the split lines of a log gives the log back |
| Levels.GrepReply | script.js:171-194 | `grep` prints "(no matches found)" when no line matches, and otherwise exactly the matching lines |
| Levels.StepKeepsKey | script.js:72-243 | the current directory always remains a table directory |
| Levels.StepDir | script.js:77-115 | only `cd` changes the current directory |
| Levels.LsLists | script.js:82-85 | `ls` echoes the command, then the names joined by two spaces |
| Levels.StepOutput | script.js:75-117 | `clear` empties the output, exactly; every other command keeps it and appends the echoed prompt line |
| Levels.StepAppends | script.js:75 | every command other than `clear` appends the echoed prompt line and leaves the output non-empty |
| Levels.UnknownCommand | script_pwd.js:71-72 | an unknown command, which in the pwd level includes `cat`/`grep`/`tail`, prints "command not found" |
| Levels.LogsOnlyInLogs | script.js:137-140 | log files can be read only from `/home/user/logs` in the log level |
| Levels.OnlyLogsFolder | script.js:138-140 | the only table directory whose last folder is `logs` is `/home/user/logs` of the log level |
| Levels.TableKeys | script.js:48-57 | the table directories are home, its five folders, `project1`, and `logs` in the log level |
| Levels.FolderNames | script.js:137-138 | the last folder of each table directory is its own name |
| Levels.LevelTerminal.constructor | script.js:67 | a level terminal starts at `/home/user` with no output |
| Levels.LevelTerminal.Enter | script.js:72-243 | the new screen is `Step` of the old one |
| Levels.LevelTerminal.Respond | script.js:80-238 | the reply is the level's `Reply` for the current directory |
| Levels.LevelTerminal.ChangeDirectory | script.js:89-115 | the directory and the messages become `Cd`'s |
| Console.EchoKeepsCase | terminal.js:136-138 | `echo ` in any case prints the rest of the line in its original case |
| Console.EchoNoCase | terminal.js:41-133 | no case label starts with `echo `, so echo always reaches the default branch |
| Console.Uncased | terminal.js:135-143 | outside the cases, echo comes first, then `uname`, then the not-found message |
| Console.BareEchoUnknown | terminal.js:136-142 | a bare `echo` is an unknown command |
| Console.UnameAlways | terminal.js:139-140 | anything starting with `uname` prints the kernel line |
| Console.CaseInsensitive | terminal.js:39 | two commands that differ only in case do the same thing when either is one of the switch's cases |
| Console.UnknownKeepsCase | terminal.js:141-142 | the not-found message quotes the command as typed |
| Console.CdOperandUnknown | terminal.js:107-109 | `cd folder` is not the `cd` case and is reported as not found |
| Console.HandleAppends | terminal.js:38-146 | no command moves the directory; `clear` resets the output, exactly; every other command only appends |
| Console.CdFromRootAsWritten | terminal.js:159-162 | as written, `cd` from `/` produces `//Bilgisayar` |
| Console.CdChild | terminal.js:159-165 | the corrected `cd` to a listed folder adds exactly one segment without a doubled slash; to an unlisted one it stays |
| Console.Terminal.constructor | terminal.js:14 | the terminal starts at `/` |
| Console.Terminal.Enter | terminal.js:19-25 | Enter trims the line and handles it |
| Console.Terminal.HandleCommand | terminal.js:38-146 | the new page is `Handle` of the old one |
| Console.Terminal.PrintOutput | terminal.js:30-33 | the new page is `Print` of the old one |
| Console.Terminal.ListFiles | terminal.js:151-153 | the new page is `Ls` of the old one |
| Console.Terminal.ChangeDirectory | terminal.js:159-166 | succeeds exactly when the current directory is in the table (otherwise the lookup throws and nothing changes); then it moves into a listed folder (the corrected child path, Findings row 3) and prints the new path, or prints "Dizin bulunamadı." |
| WindowChrome.Period | script_window.js:73-78 | `sabah` exactly before noon, `akşam` otherwise |
| WindowChrome.DialHour | script_window.js:75-82 | the dial hour is 1..12 and equals the hour modulo 12 |
| WindowChrome.ClockHours | script_window.js:73-82 | midnight shows 12 sabah, noon 12 akşam, afternoon hours minus 12 akşam, morning hours as they are |
| WindowChrome.TwoDigitsValue | script_window.js:71 | a number below 100 is written as two digits that read back as the number |
| WindowChrome.ClockLayout | script_window.js:64-87 | the clock text is 22 characters: the fixed date, the period, the two-digit hour and the two-digit minutes |
| WindowChrome.ClockPieces | script_window.js:86 | the clock text is the date, the period, the hour and the minutes in that order |
| WindowChrome.DoubleClickTwice | script_window.js:33-60 | double-clicking twice restores the style and leaves the z-index at 9999; once covers the screen |
| WindowChrome.NoDragInFullScreen | script_window.js:12-13 | in full screen a mouse-down changes nothing |
| WindowChrome.Window.constructor | script_window.js:6-10 | a window starts not in full screen and not dragging |
| WindowChrome.Window.OnDoubleClick | script_window.js:33-60 | the new state is `DoubleClick` of the old one |
| WindowChrome.Window.OnMouseDown | script_window.js:12-19 | the new state is `MouseDown` of the old one |
| WindowChrome.Window.OnMouseUp | script_window.js:29-31 | the new state is `MouseUp` of the old one |
| Browser.Normalize | firefox.js:15-17 | the address always starts with `http`; one that already does is kept; otherwise `http://` is put in front of it unchanged |
| Browser.NormalizeIdempotent | firefox.js:15-17 | normalising twice is normalising once |
| Browser.SchemeKept | firefox.js:14-17 | an `https` address is kept; a bare address gets `http://` and not `https://`, contrary to the comment above the rule |

## Left out

- Rendering: the DOM, `innerHTML`, CSS classes, scrolling, the cursor and timers. Output is a sequence of lines; markup is kept only as text.
- Dialogs and the clock: `prompt()` answers are the `typed` parameter of `Desktop.TextEditor.SaveFile`. The current time is a `Clock` parameter for the desktop terminal, the `now` parameter for the landing terminal, and the hours and minutes for the window clock.
- Pointer-driven dragging (`startDragging`, the mouse-move handler of `script_window.js`): its coordinates depend on the browser layout. Only the dragging flag and the full-screen guard are modelled.
- The fixed help, `ps`, `ipconfig`, `who` and welcome texts are abstract blocks, not their exact markup.
- Commands.Highlights: the highlighted text of a `grep` match is abstract. In the source it is built with `new RegExp(pattern)`, whose treatment of regular-expression metacharacters is not modelled. An invalid pattern such as `(` makes `new RegExp` throw on the first matching line, so the source prints nothing, while the model prints one line per match.
- Text.ToLower: lowercases ASCII letters only. JavaScript's Unicode case mapping (for example `İ`) is not modelled.
- Vfs.Lookup: a directory's keys are plain names. Object-prototype keys such as `constructor` or `__proto__`, which JavaScript lookups would also find, are not modelled.
- Levels.LogFile: `cat constructor` (or `grep`/`tail` on it) in the logs folder finds `Object.prototype.constructor` in `script.js:140-142`, `171-172` and `211-212` and then throws on `.split`, so nothing is printed; the model answers with the command's "No such file or directory" message instead.
- Terminals.Terminal.AutoComplete: completes with the corrected `Commands.Relative` of Findings row 2, not the as-written rule. In the source `cd /` then `cat ho` + Tab gives `cat ome`, and in `/home/user` `cat /home/us` + Tab gives `cat `.
- Terminals.Completing: the same corrected relative path as `Terminals.Terminal.AutoComplete`; the as-written rule is `Commands.RelativeAsWritten`.
- Terminals.CompletePath: the same corrected relative path as `Terminals.Terminal.AutoComplete`.
- Console.Terminal.ChangeDirectory: moves to the corrected child path of Findings row 3, `/Bilgisayar` from `/`, where the source gives `//Bilgisayar` (`Console.CdFromRootAsWritten`).
- Commands.FindByPathDiverges: the as-written recursion is given an explicit budget (`fuel`), because it need not terminate. Running out of budget is the `None` result.
- Desktop.DesktopManager.OpenApplication: whether the app's window element exists in the page is the `elements` set given to the constructor. The terminal input's delayed focus is not modelled.
- The other applications of `desktop.js` (calculator, system information, memory monitor, notes), the icons and the context menus are outside this model.
- `openWindow`/`closeWindow` in `script.js` and `firefox.js` only set a CSS `display` value, so they are not modelled.

## Findings

| source | as written | input that shows it | evidently intended | confidence | as-written member | corrected member |
|---|---|---|---|---|---|---|
| Desktop/terminal.js:585-592 | `findInDirectory` re-resolves each child by its joined path; a child named `""` (made by `mkdir ./`) collapses back to the directory itself, so the search recurses forever | `mkdir ./` then `find x` in the same directory | recurse into each child's own entries, listing every path once | not executed | Commands.FindByPathDiverges | Commands.FindInSound |
| Desktop/terminal.js:707-710 | the completed word drops `currentPath.length + 1` characters whenever the match starts with the current path; in `/` that removes the first letter of the name | `cd /` then `cat ho` + Tab gives `cat ome` | the match relative to the current directory, which resolves back to the matched path | not executed | Commands.RelativeAsWrittenAtRoot | Commands.RelativeResolves |
| terminal.js:159-162 | `cd` appends `'/' + folder` to the current path even when that path is `/` | `cd('Bilgisayar')` from `/` gives `//Bilgisayar` | `/Bilgisayar`: one segment added, no doubled slash | not executed | Console.CdFromRootAsWritten | Console.CdChild |
