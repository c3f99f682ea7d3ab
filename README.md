# Devindo generator, modelled in Dafny

The Devindo generator is a VS Code extension command. It asks for a name or a
relative path and resolves that input to a directory of the workspace: a bare
name goes under `<workspace>/lib`, and anything containing `/` or `\` is
resolved against the workspace root. It then creates a fixed Flutter project
skeleton in that directory:
- five sub-directories (`app`, `assets`, `screens`, `services`, `utils`);
- six files with constant template contents.

After that it shows one information or error message in the editor window.

The model has seven modules:

- `Wrappers`: an `Option` type, which stands for `T | undefined` and `T | null`.
- `Paths`: what the command uses of Node's POSIX `path` module.
  - A canonical absolute path is the sequence of its segments.
  - `path.resolve` is modelled lexically, reading its arguments left to right.
  - `ResolveMatchesNode` proves this equal to Node's right-to-left algorithm.
  - `path.join`'s normalization is captured by `JoinAppendsName` and `RenderRoundTrip`.
  - `path.basename` is `Basename`; `BasenameMatchesNode` proves it equal to Node's `path.basename` on the string form of the path.
- `FileSystem`: a `class FileSystem` that holds a map from paths to directories and files.
  - Its invariant is that the map is shaped like a tree.
  - It models `existsSync`, a non-recursive `mkdirSync` and a whole-file `writeFileSync`. A path exists exactly when the map has an entry at it, so `existsSync` is map membership by definition.
  - They fail with the Node error codes and messages `EEXIST`, `ENOENT`, `ENOTDIR` and `EISDIR`.
- `Scaffold`: the scaffold as a value, consisting of `devindoFolder`, the six file paths and `Entries(root, texts)`. It holds the lemmas behind `create`'s proof:
  - nothing of the scaffold exists below a missing target;
  - every `mkdirSync` of the loop succeeds;
  - every write succeeds;
  - the writes together add exactly the scaffold.
- `Templates`: the six template texts, copied verbatim.
- `Validation`: `validate`.
- `Generator`: `defaultPath`, `toAbsolutePath`, the editor window (a `class Window` that logs the messages it shows) and `class DevindoGenerator`.
  - `DevindoGenerator` has the methods `Create` and `Execute`.
  - It also holds a few end-to-end scenarios.

`Create` is proved against a specification, with three outcomes:
- If the target exists, it throws `DevindoExistError("'<basename>' already exists")` and changes nothing.
- If the first `mkdirSync` fails, it throws that failure and changes nothing.
- Otherwise, it returns normally, and the file system afterwards is the old one plus exactly the scaffold.

In a tree-shaped file system, no later call can fail once the first `mkdirSync` succeeds. The lemmas of `Scaffold` prove this.

`Execute` maps each outcome of `Create` to exactly one message. On cancelled or empty input it shows none.

Behaviour worth noting:
- Only the space character makes a name invalid; tabs and newlines are accepted (`Validation.OtherWhitespaceIsAccepted`).
- `create` throws a message with the target's basename. `execute` ignores that message and shows the user's original input in its "already exists" error.
- The regular-expression test for a slash or a backslash at line 249 of src/devindo-generator.ts is `Generator.HasSeparator`. What it decides is stated by the rows for `Generator.PathResolvedAgainstRoot` (with a separator) and `Generator.BareNameUnderLib` and `Generator.BareNameAnchoredUnderLib` (without one).
- A backslash selects the branch that resolves against the workspace root, but POSIX `path.resolve` does not split on it: it stays part of a segment (`Generator.BackslashIsNotASeparator`).

## Model

| member | source | states |
|---|---|---|
| Validation.Validate | src/devindo-generator.ts:234-245 | Each of the three outcomes holds if and only if its condition does. "Name is required" exactly when the name is undefined/null or empty. "Spaces are not allowed" exactly when a non-empty name contains a space. No error exactly when the name is non-empty and has no space. |
| Validation.SpaceIsRejected | src/devindo-generator.ts:239-241 | A name with a space anywhere, whatever surrounds it, is rejected with "Spaces are not allowed". |
| Validation.OtherWhitespaceIsAccepted | src/devindo-generator.ts:239-244 | Only the space character is tested: names containing a tab or a newline are accepted. |
| Generator.LibIsOneSegment | src/devindo-generator.ts:139 | `defaultPath` "lib" is one plain segment: resolving it from any path appends exactly "lib". |
| Generator.FolderNamesAreSegments | src/devindo-generator.ts:10-16 | Every name of `devindoFolder` is a plain path segment. |
| Generator.ToAbsolutePath | src/devindo-generator.ts:247-258 | The resolved target is always a canonical absolute path: no empty, "." or ".." segment and no '/' inside a segment. |
| Generator.PathResolvedAgainstRoot | src/devindo-generator.ts:249-250 | An input with a slash or backslash is walked from the workspace root, or from "/" when it is absolute. "lib" is not inserted. |
| Generator.BareNameUnderLib | src/devindo-generator.ts:139 | A bare name is one normalization step below `<root>/lib`. A name other than "", "." and ".." becomes exactly `<root>/lib/<name>`. The cited line is the "lib" constant; the resolve call is at lines 253-257. |
| Generator.BareNameAnchoredUnderLib | src/devindo-generator.ts:247-258 | A bare name resolves to the same target as the input "lib/<name>", so bare names are anchored under the default sub-directory. |
| Generator.DirThenName | src/devindo-generator.ts:249-250 | "<dir>/<name>" is resolved from the workspace root, into `dir`, then one step for `name`. |
| Generator.BareNameIsBasename | src/devindo-generator.ts:185-187 | For a plain bare name, the basename of the resolved target is the name itself. So the text `create` throws names the same entry that `execute` reports. |
| Generator.BareNameExample | src/devindo-generator.ts:253-257 | "mvvm" in workspace "/ws" resolves to /ws/lib/mvvm. |
| Generator.RelativePathExample | src/devindo-generator.ts:249-250 | "lib/custom" in workspace "/ws" resolves to /ws/lib/custom, with "lib" appearing only once. |
| Generator.BackslashNameBelowRoot | src/devindo-generator.ts:249-250 | An input whose only separator is a backslash is resolved against the root, not against lib. Under POSIX rules it is one segment directly below the root. |
| Generator.BackslashIsNotASeparator | src/devindo-generator.ts:249-250 | "lib\\custom" in workspace "/ws" becomes the single directory /ws/lib\\custom, not /ws/lib/custom. |
| Generator.CreateDirPathsAreJoins | src/devindo-generator.ts:192-195 | `path.join(target, d)` normalizes to the target's path plus `d`, for every name `d` of `devindoFolder`. |
| Generator.CreateFilePathsAreJoins | src/devindo-generator.ts:197-225 | Each of the six `path.join` calls normalizes to the target plus the intended one- or two-segment suffix (screens/home.dart, app/locator.dart, app/router.dart, app/thid_party_app.dart, depedency_need_to_remove.dart, main.dart). |
| Generator.DevindoGenerator.constructor | src/devindo-generator.ts:141 | The generator keeps the workspace root and window it is given. Its template fields are the six constant texts. |
| Generator.DevindoGenerator.Create | src/devindo-generator.ts:183-232 | An existing target throws `DevindoExistError("'<basename>' already exists")` and changes nothing. A failing first `mkdirSync` is rethrown unchanged, and nothing changes. Otherwise nothing is thrown and the file system becomes exactly the old one plus the target, its five sub-directories and the six files with their template texts. The tree invariant is kept in every case. |
| Generator.DevindoGenerator.Execute | src/devindo-generator.ts:143-169 | Cancelled or empty input changes nothing and shows nothing. Otherwise the resolved target is created and exactly one message is appended: "Devindo: '<input>' successfully created", "Devindo: '<input>' already exists" for an existing target, or "Error: " + the file-system error's message. |
| Generator.CreateTwice | src/devindo-generator.ts:184-188 | `create` on a fresh target succeeds. A second `create` on the same target is refused with the already-exists error and adds nothing. |
| Generator.Window.ShowInformationMessage | src/devindo-generator.ts:156-158 | Showing an information message appends exactly that message to the window's log. |
| Generator.Window.ShowErrorMessage | src/devindo-generator.ts:162-166 | Showing an error message appends exactly that message to the window's log. |
| Generator.FreshNameIsCreated | src/devindo-generator.ts:151-158 | Entering "mvvm" in workspace "/ws" holding only lib creates /ws/lib/mvvm with its sub-directories and the six template files, and shows exactly "Devindo: 'mvvm' successfully created". |
| Generator.ExistingNameIsReported | src/devindo-generator.ts:159-164 | Entering "mvvm" when /ws/lib/mvvm exists shows exactly "Devindo: 'mvvm' already exists" and leaves the file system unchanged. |
| Generator.CancelDoesNothing | src/devindo-generator.ts:147-149 | A cancelled input box and an empty answer show no message and leave the file system unchanged. |
| Scaffold.SubdirEntries | src/devindo-generator.ts:192-195 | The directories the loop has made after handling `names` are exactly the children of the target whose last segment is in `names`, all of them directories. |
| Scaffold.FolderNamesDistinct | src/devindo-generator.ts:10-16 | No name of `devindoFolder` occurs twice, so no `mkdirSync` of the loop hits a directory the loop made earlier. |
| Scaffold.SubdirStep | src/devindo-generator.ts:192-195 | In a tree without the target, each step of the loop succeeds and adds the next sub-directory. |
| Scaffold.SubdirsListed | src/devindo-generator.ts:10-16 | The loop makes exactly target/app, target/assets, target/screens, target/services and target/utils. |
| Scaffold.EntriesListed | src/devindo-generator.ts:183-232 | The scaffold is exactly twelve entries: the target, its five sub-directories, and the six files with their texts. |
| Scaffold.FilesInsideCreatedDirs | src/devindo-generator.ts:197-225 | Every file is written into the target or into a sub-directory made before it. |
| Scaffold.ScaffoldIsFresh | src/devindo-generator.ts:184-191 | After the existence check passes, no entry of the scaffold exists yet, so `create` only adds entries and overwrites nothing. |
| Scaffold.FileWriteSucceeds | src/devindo-generator.ts:197-225 | Once the directories exist, every write of `create` succeeds and leaves the tree ready for the next write. |
| Scaffold.ScaffoldComplete | src/devindo-generator.ts:191-225 | The target, the sub-directories and the six writes, in `create`'s order, together give the old file system plus exactly the scaffold. |
| Scaffold.FileContents | src/devindo-generator.ts:197-225 | In the scaffold each of the six file paths holds the text of its own template field (home.dart the home text, locator.dart the locator text, and so on). |
| Templates.TemplatesWrittenInPlace | src/devindo-generator.ts:18-137 | The generator's six template texts, copied verbatim, are the contents of the six files: each file gets the constant of its field. |
| FileSystem.FileSystem.MkdirSync | src/devindo-generator.ts:191 | Non-recursive `mkdirSync` fails in three cases. `EEXIST` when the path exists. `ENOENT` when the parent is missing. `ENOTDIR` when the parent is a file. Otherwise it adds exactly one directory. It keeps the tree invariant. |
| FileSystem.FileSystem.WriteFileSync | src/devindo-generator.ts:198 | `writeFileSync` fails in three cases. `EISDIR` on a directory. `ENOENT` when the parent is missing. `ENOTDIR` when the parent is a file. Otherwise it creates or replaces exactly that file with the whole content. It keeps the tree invariant. |
| FileSystem.MkdirKeepsTree | src/devindo-generator.ts:191 | A successful `mkdirSync` keeps the file system tree-shaped. |
| FileSystem.WriteKeepsTree | src/devindo-generator.ts:198 | A successful `writeFileSync` keeps the file system tree-shaped. |
| FileSystem.NothingBelowMissing | src/devindo-generator.ts:184-188 | In a tree, nothing lies below a missing path. This is why the single existence check protects the whole scaffold. |
| Paths.Resolve | src/devindo-generator.ts:250 | `path.resolve` always yields a canonical absolute path. |
| Paths.ResolveMatchesNode | src/devindo-generator.ts:253-257 | The left-to-right model of `path.resolve` agrees with Node's algorithm. Node collects the arguments from the last back to the first absolute one, in front of the working directory, and then normalizes. |
| Paths.AbsoluteArgumentResets | src/devindo-generator.ts:250 | An absolute argument discards everything resolved before it, so an absolute input ignores the workspace root. |
| Paths.RenderRoundTrip | src/devindo-generator.ts:193 | Splitting the string form of a canonical path and normalizing it gives the path back. |
| Paths.JoinAppendsName | src/devindo-generator.ts:193 | Joining a plain name onto an absolute string that normalizes to `base` gives `base` plus that name. |
| Paths.BasenameMatchesNode | src/devindo-generator.ts:185 | For a canonical path, Node's `path.basename` of its string form (trailing slashes ignored, then the text after the last '/') is `Basename`: the last segment, which holds no '/' and which the string ends in after a '/', or "" for the root "/". |
| Paths.ParentOfRootIsRoot | src/devindo-generator.ts:250 | ".." never climbs above the root. |

## Left out

- The prompt wiring (`prompt`, lines 171-181) and the `async`/`await` plumbing are left out. The input box's answer is a parameter of `Execute`. That `validate` is passed as the live validator is not modelled: `Validate` is a separate pure function.
- `dispose` and the `console.log` diagnostics (lines 228 and 260-262) are left out: they only print.
- `process.cwd()`, which `path.resolve` starts from, is taken as the constructor parameter `cwd`.
- Only POSIX path semantics are modelled; win32 rules (drive letters, `\` as a separator) are not.
- File-system failures other than the four modelled error codes are not modelled: permissions, a full disk, I/O errors. Because of this, once the first `mkdirSync` succeeds, no later call of `create` can fail in the model.
- `create`'s catch-and-rethrow (lines 226-231) is modelled as returning the error. Nothing made before a failing call is undone, as in the source.
- `Generator.DevindoGenerator.Create` takes the target as a canonical segment path rather than a string. `toAbsolutePath` always produces such a path, and its string form is `Paths.Render`.
- The `DevindoExistError` class body (src/errors/devindo-exist.error.ts:1-7) is reduced to its message. Its default message and its `name` field are not modelled.
- The template texts are copied verbatim, but their meaning as Dart and YAML is not modelled.
- FileSystem.MkdirError: when an ancestor other than the parent is a file, Node reports `ENOTDIR` where the model reports `ENOENT`. Both are failures of the first `mkdirSync`, so only the error text shown differs (a target such as /ws/a.txt/x/mvvm, where a.txt is a file).
- FileSystem.WriteError: the same simplification as `MkdirError` applies for ancestors that are files.
