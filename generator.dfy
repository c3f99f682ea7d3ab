/**
  The `DevindoGenerator` command: resolve the name typed into the input box
  to a target directory, create the scaffold there, and report the outcome
  in the editor window.
 */
module Generator {
  import opened Wrappers
  import opened Paths
  import opened FileSystem
  import opened Scaffold
  import opened Templates

  /** `defaultPath`: where a bare name is placed, relative to the workspace root. */
  const DefaultPath: string := "lib"

  /** The test `/\/|\\/` that tells a relative path from a bare name. */
  predicate HasSeparator(s: string) {
    '/' in s || '\\' in s
  }

  /** The directory the workspace root resolves to. */
  function WorkspacePath(cwd: string, workspaceRoot: string): Path {
    Resolve(cwd, [workspaceRoot])
  }

  /**
    `toAbsolutePath`: a string with a slash or backslash is resolved against
    the workspace root, a bare name against `<root>/lib`.
   */
  function ToAbsolutePath(cwd: string, workspaceRoot: string, nameOrRelativePath: string): (r: Path)
    ensures ValidPath(r)
  {
    if HasSeparator(nameOrRelativePath) then Resolve(cwd, [workspaceRoot, nameOrRelativePath])
    else Resolve(cwd, [workspaceRoot, DefaultPath, nameOrRelativePath])
  }

  /** A path is walked from the workspace root (or from "/" when absolute); "lib" is never inserted. */
  lemma PathResolvedAgainstRoot(cwd: string, workspaceRoot: string, name: string)
    requires HasSeparator(name)
    ensures ToAbsolutePath(cwd, workspaceRoot, name)
         == Walk(if IsAbsolute(name) then [] else WorkspacePath(cwd, workspaceRoot), Split(name))
  {
    ResolveSnoc(Walk([], Split(cwd)), [workspaceRoot], name);
    assert [workspaceRoot] + [name] == [workspaceRoot, name];
  }

  lemma LibIsOneSegment(p: Path)
    ensures Walk(p, Split(DefaultPath)) == p + [DefaultPath]
  {
    SplitWithoutSeparator(DefaultPath);
    assert Walk(p, [DefaultPath]) == Walk(p + [DefaultPath], []);
  }

  /** A bare name is taken as one segment below `<root>/lib` ("." and ".." are normalized away). */
  lemma BareNameUnderLib(cwd: string, workspaceRoot: string, name: string)
    requires !HasSeparator(name)
    ensures ToAbsolutePath(cwd, workspaceRoot, name)
         == Step(WorkspacePath(cwd, workspaceRoot) + [DefaultPath], name)
    ensures name != "" && name != "." && name != ".." ==>
              ToAbsolutePath(cwd, workspaceRoot, name) == WorkspacePath(cwd, workspaceRoot) + [DefaultPath, name]
  {
    var base := Walk([], Split(cwd));
    ResolveSnoc(base, [workspaceRoot], DefaultPath);
    ResolveSnoc(base, [workspaceRoot, DefaultPath], name);
    assert [workspaceRoot] + [DefaultPath] == [workspaceRoot, DefaultPath];
    assert [workspaceRoot, DefaultPath] + [name] == [workspaceRoot, DefaultPath, name];
    LibIsOneSegment(WorkspacePath(cwd, workspaceRoot));
    SplitWithoutSeparator(name);
    assert Walk(WorkspacePath(cwd, workspaceRoot) + [DefaultPath], [name])
        == Walk(Step(WorkspacePath(cwd, workspaceRoot) + [DefaultPath], name), []);
  }

  /** A bare name lands where the same name written as "lib/<name>" does. */
  lemma BareNameAnchoredUnderLib(cwd: string, workspaceRoot: string, name: string)
    requires !HasSeparator(name)
    ensures ToAbsolutePath(cwd, workspaceRoot, name) == ToAbsolutePath(cwd, workspaceRoot, "lib/" + name)
  {
    SpelledUnderLib(cwd, workspaceRoot, name);
    BareNameUnderLib(cwd, workspaceRoot, name);
  }

  /** "<dir>/<name>" is walked from the workspace root: into `dir`, then one step for `name`. */
  lemma DirThenName(cwd: string, workspaceRoot: string, dir: string, name: string)
    requires ValidSegment(dir) && !HasSeparator(name)
    ensures ToAbsolutePath(cwd, workspaceRoot, dir + "/" + name)
         == Step(WorkspacePath(cwd, workspaceRoot) + [dir], name)
  {
    var spelled := dir + "/" + name;
    var root := WorkspacePath(cwd, workspaceRoot);
    assert ToAbsolutePath(cwd, workspaceRoot, spelled) == Walk(root, Split(spelled)) by {
      assert spelled[0] == dir[0] && spelled[|dir|] == '/';
      PathResolvedAgainstRoot(cwd, workspaceRoot, spelled);
    }
    assert Split(spelled) == [dir, name] by {
      SplitConcat(dir, name);
      SplitWithoutSeparator(dir);
      SplitWithoutSeparator(name);
    }
    assert Walk(root, [dir, name]) == Walk(root + [dir], [name]);
    assert Walk(root + [dir], [name]) == Walk(Step(root + [dir], name), []);
  }

  lemma SpelledUnderLib(cwd: string, workspaceRoot: string, name: string)
    requires !HasSeparator(name)
    ensures ToAbsolutePath(cwd, workspaceRoot, "lib/" + name)
         == Step(WorkspacePath(cwd, workspaceRoot) + [DefaultPath], name)
  {
    assert "lib/" + name == DefaultPath + "/" + name;
    DirThenName(cwd, workspaceRoot, DefaultPath, name);
  }

  /**
    For a plain bare name, the basename of the target is the name itself, so
    the text `create` throws and the one `execute` shows name the same thing.
   */
  lemma BareNameIsBasename(cwd: string, workspaceRoot: string, name: string)
    requires !HasSeparator(name) && ValidSegment(name)
    ensures Basename(ToAbsolutePath(cwd, workspaceRoot, name)) == name
  {
    BareNameUnderLib(cwd, workspaceRoot, name);
  }

  lemma AbsoluteRootPath(cwd: string)
    ensures WorkspacePath(cwd, "/ws") == ["ws"]
  {
    var root := "/ws";
    assert IsAbsolute(root);
    assert ResolveFrom(Walk([], Split(cwd)), [root]) == ResolveFrom(Walk([], Split(root)), []);
    assert root == "" + "/" + "ws";
    SplitConcat("", "ws");
    SplitWithoutSeparator("ws");
    assert Split(root) == ["", "ws"];
    assert Walk([], ["", "ws"]) == Walk([], ["ws"]);
    assert Walk([], ["ws"]) == Walk(["ws"], []);
  }

  /** "mvvm" in the workspace "/ws" becomes /ws/lib/mvvm. */
  lemma BareNameExample(cwd: string)
    ensures ToAbsolutePath(cwd, "/ws", "mvvm") == ["ws", "lib", "mvvm"]
  {
    assert !HasSeparator("mvvm");
    BareNameUnderLib(cwd, "/ws", "mvvm");
    AbsoluteRootPath(cwd);
  }

  /** "lib/custom" in the workspace "/ws" becomes /ws/lib/custom, with "lib" only once. */
  lemma RelativePathExample(cwd: string)
    ensures ToAbsolutePath(cwd, "/ws", "lib/custom") == ["ws", "lib", "custom"]
  {
    assert !HasSeparator("custom");
    assert "lib/" + "custom" == "lib/custom";
    BareNameAnchoredUnderLib(cwd, "/ws", "custom");
    BareNameUnderLib(cwd, "/ws", "custom");
    AbsoluteRootPath(cwd);
  }

  /** A name whose only separator is a backslash is one plain segment directly below the workspace root. */
  lemma BackslashNameBelowRoot(cwd: string, workspaceRoot: string, name: string)
    requires '\\' in name && ValidSegment(name)
    ensures ToAbsolutePath(cwd, workspaceRoot, name) == WorkspacePath(cwd, workspaceRoot) + [name]
  {
    assert !IsAbsolute(name);
    PathResolvedAgainstRoot(cwd, workspaceRoot, name);
    SplitWithoutSeparator(name);
    WalkValidSegments(WorkspacePath(cwd, workspaceRoot), [name]);
  }

  /** Under POSIX rules "lib\\custom" is not "lib/custom": it names one directory of the root. */
  lemma BackslashIsNotASeparator(cwd: string)
    ensures ToAbsolutePath(cwd, "/ws", "lib\\custom") == ["ws", "lib\\custom"]
  {
    var name := "lib\\custom";
    assert name[3] == '\\';
    assert ValidSegment(name) by {
      assert forall i :: 0 <= i < |name| ==> name[i] != '/';
    }
    BackslashNameBelowRoot(cwd, "/ws", name);
    AbsoluteRootPath(cwd);
  }

  /** Every directory name `create` joins onto a path is a plain segment. */
  lemma FolderNamesAreSegments()
    ensures forall d :: d in DevindoFolder ==> ValidSegment(d)
  {
  }

  /** Every file name `create` joins onto a path is a plain segment. */
  lemma FileNamesAreSegments()
    ensures ValidSegment("home.dart") && ValidSegment("locator.dart") && ValidSegment("router.dart")
    ensures ValidSegment("thid_party_app.dart") && ValidSegment("depedency_need_to_remove.dart")
    ensures ValidSegment("main.dart")
  {
  }

  /**
    The sub-directories `create` makes are the ones `path.join` builds from
    the target's string form: `join(target, d)` for each `d` of `devindoFolder`.
   */
  lemma CreateDirPathsAreJoins(target: Path)
    requires ValidPath(target)
    ensures forall d :: d in DevindoFolder ==> Walk([], Split(Render(target) + "/" + d)) == target + [d]
  {
    RenderRoundTrip(target);
    FolderNamesAreSegments();
    forall d | d in DevindoFolder ensures Walk([], Split(Render(target) + "/" + d)) == target + [d] {
      JoinAppendsName(Render(target), target, d);
    }
  }

  /**
    The files `create` writes are at the paths `path.join` builds:
    `join(target + "/screens", "home.dart")`, `join(target + "/app", ...)`
    and `join(target, ...)` for the two top-level files.
   */
  lemma CreateFilePathsAreJoins(target: Path)
    requires ValidPath(target)
    ensures Walk([], Split(Render(target) + "/" + "screens" + "/" + "home.dart")) == target + ["screens", "home.dart"]
    ensures Walk([], Split(Render(target) + "/" + "app" + "/" + "locator.dart")) == target + ["app", "locator.dart"]
    ensures Walk([], Split(Render(target) + "/" + "app" + "/" + "router.dart")) == target + ["app", "router.dart"]
    ensures Walk([], Split(Render(target) + "/" + "app" + "/" + "thid_party_app.dart"))
         == target + ["app", "thid_party_app.dart"]
    ensures Walk([], Split(Render(target) + "/" + "depedency_need_to_remove.dart"))
         == target + ["depedency_need_to_remove.dart"]
    ensures Walk([], Split(Render(target) + "/" + "main.dart")) == target + ["main.dart"]
  {
    var s := Render(target);
    RenderRoundTrip(target);
    FileNamesAreSegments();
    assert ValidSegment("screens") && ValidSegment("app") by {
      FolderNamesAreSegments();
      assert DevindoFolder[0] == "app" && DevindoFolder[2] == "screens";
    }
    JoinBelow(s, target, "screens", "home.dart");
    JoinBelow(s, target, "app", "locator.dart");
    JoinBelow(s, target, "app", "router.dart");
    JoinBelow(s, target, "app", "thid_party_app.dart");
    JoinAppendsName(s, target, "depedency_need_to_remove.dart");
    JoinAppendsName(s, target, "main.dart");
  }

  /** `path.join(s + "/" + dir, file)` where `s` normalizes to `base`. */
  lemma JoinBelow(s: string, base: Path, dir: string, file: string)
    requires IsAbsolute(s) && Walk([], Split(s)) == base && ValidSegment(dir) && ValidSegment(file)
    ensures Walk([], Split(s + "/" + dir + "/" + file)) == base + [dir, file]
  {
    JoinAppendsName(s, base, dir);
    JoinAppendsName(s + "/" + dir, base + [dir], file);
    assert base + [dir] + [file] == base + [dir, file];
  }

  // -----------------------------------------------------------------------
  // Outcomes and the editor window

  /** What `create` throws: a `DevindoExistError`, or the error of a failed file-system call. */
  datatype Thrown = DevindoExistError(message: string) | FsFailure(error: FsError) {
    function Message(): string {
      match this
      case DevindoExistError(m) => m
      case FsFailure(e) => e.Message()
    }
  }

  datatype Message = Information(text: string) | Error(text: string)

  /** The editor window, seen as the log of the messages it has shown. */
  class Window {
    var log: seq<Message>

    constructor ()
      ensures log == []
    {
      log := [];
    }

    method ShowInformationMessage(text: string)
      modifies this
      ensures log == old(log) + [Information(text)]
    {
      log := log + [Information(text)];
    }

    method ShowErrorMessage(text: string)
      modifies this
      ensures log == old(log) + [Error(text)]
    {
      log := log + [Error(text)];
    }
  }

  class DevindoGenerator {
    const workspaceRoot: string
    const window: Window
    /** The file system the generator writes to. */
    const fs: FileSystem
    /** The process's working directory, which `path.resolve` starts from. */
    const cwd: string
    /** The six readonly template fields (`home`, `locator`, `router`, `third`, `depedency`, `main`). */
    const templates: Texts

    constructor (workspaceRoot: string, window: Window, fs: FileSystem, cwd: string)
      ensures this.workspaceRoot == workspaceRoot && this.window == window
      ensures this.fs == fs && this.cwd == cwd
      ensures templates == DevindoTexts
    {
      this.workspaceRoot := workspaceRoot;
      this.window := window;
      this.fs := fs;
      this.cwd := cwd;
      templates := DevindoTexts;
    }

    /**
      `create`: refuse an existing target before touching anything, then make
      the target, its sub-directories and its files, stopping at the first
      failing call (nothing made before it is undone).
     */
    method Create(target: Path) returns (thrown: Option<Thrown>)
      requires fs.Valid()
      modifies fs
      ensures fs.Valid()
      ensures target in old(fs.entries) ==>
                && thrown == Some(DevindoExistError("'" + Basename(target) + "' already exists"))
                && fs.entries == old(fs.entries)
      ensures target !in old(fs.entries) && MkdirError(old(fs.entries), target).Some? ==>
                && thrown == Some(FsFailure(MkdirError(old(fs.entries), target).value))
                && fs.entries == old(fs.entries)
      ensures target !in old(fs.entries) && MkdirError(old(fs.entries), target) == None ==>
                && thrown == None
                && fs.entries == old(fs.entries) + Entries(target, templates)
    {
      if fs.ExistsSync(target) {
        var devindo := Basename(target);
        thrown := Some(DevindoExistError("'" + devindo + "' already exists"));
        return;
      }
      ghost var before := fs.entries;

      // Each path below is what `path.join` makes of `target` and a plain name (CreateDirPathsAreJoins, CreateFilePathsAreJoins).
      var err := fs.MkdirSync(target);
      match err {
        case Some(e) => thrown := Some(FsFailure(e)); return;
        case None =>
      }
      var i := 0;
      while i < |DevindoFolder|
        invariant 0 <= i <= |DevindoFolder|
        invariant fs.Valid()
        invariant fs.entries == before[target := Dir] + SubdirEntries(target, DevindoFolder[..i])
      {
        var fullpath := target + [DevindoFolder[i]];
        FolderNamesDistinct();
        SubdirStep(before, target, DevindoFolder, i);
        err := fs.MkdirSync(fullpath);
        match err {
          case Some(e) => thrown := Some(FsFailure(e)); return;
          case None =>
        }
        i := i + 1;
      }
      assert DevindoFolder[..i] == DevindoFolder;
      ReadyAfterDirs(before, target);

      var pathHome := target + ["screens", "home.dart"];
      FileWriteSucceeds(fs.entries, target, pathHome, templates.home);
      err := fs.WriteFileSync(pathHome, templates.home);
      match err {
        case Some(e) => thrown := Some(FsFailure(e)); return;
        case None =>
      }
      var pathLocator := target + ["app", "locator.dart"];
      FileWriteSucceeds(fs.entries, target, pathLocator, templates.locator);
      err := fs.WriteFileSync(pathLocator, templates.locator);
      match err {
        case Some(e) => thrown := Some(FsFailure(e)); return;
        case None =>
      }
      var pathRouter := target + ["app", "router.dart"];
      FileWriteSucceeds(fs.entries, target, pathRouter, templates.router);
      err := fs.WriteFileSync(pathRouter, templates.router);
      match err {
        case Some(e) => thrown := Some(FsFailure(e)); return;
        case None =>
      }
      var pathThird := target + ["app", "thid_party_app.dart"];
      FileWriteSucceeds(fs.entries, target, pathThird, templates.third);
      err := fs.WriteFileSync(pathThird, templates.third);
      match err {
        case Some(e) => thrown := Some(FsFailure(e)); return;
        case None =>
      }
      var pathDependency := target + ["depedency_need_to_remove.dart"];
      FileWriteSucceeds(fs.entries, target, pathDependency, templates.depedency);
      err := fs.WriteFileSync(pathDependency, templates.depedency);
      match err {
        case Some(e) => thrown := Some(FsFailure(e)); return;
        case None =>
      }
      var pathMain := target + ["main.dart"];
      FileWriteSucceeds(fs.entries, target, pathMain, templates.main);
      err := fs.WriteFileSync(pathMain, templates.main);
      match err {
        case Some(e) => thrown := Some(FsFailure(e)); return;
        case None =>
      }
      ScaffoldComplete(before, target, templates);
      thrown := None;
    }

    /**
      `execute`, with the input box's answer as `devindoname`: nothing happens
      when it was cancelled or left empty; otherwise exactly one message
      reports the outcome of `create`.
     */
    method Execute(devindoname: Option<string>)
      requires fs.Valid()
      modifies fs, window
      ensures fs.Valid()
      ensures devindoname == None || devindoname == Some("") ==>
                fs.entries == old(fs.entries) && window.log == old(window.log)
      ensures devindoname.Some? && devindoname.value != "" ==>
                var name := devindoname.value;
                var target := ToAbsolutePath(cwd, workspaceRoot, name);
                if target in old(fs.entries) then
                  && fs.entries == old(fs.entries)
                  && window.log == old(window.log) + [Error("Devindo: '" + name + "' already exists")]
                else if MkdirError(old(fs.entries), target).Some? then
                  && fs.entries == old(fs.entries)
                  && window.log == old(window.log)
                                   + [Error("Error: " + MkdirError(old(fs.entries), target).value.Message())]
                else
                  && fs.entries == old(fs.entries) + Entries(target, templates)
                  && window.log == old(window.log) + [Information("Devindo: '" + name + "' successfully created")]
    {
      if devindoname == None || devindoname.value == "" {
        return;
      }
      var name := devindoname.value;
      var absoluteDevindoPath := ToAbsolutePath(cwd, workspaceRoot, name);
      var thrown := Create(absoluteDevindoPath);
      match thrown {
        case None =>
          window.ShowInformationMessage("Devindo: '" + name + "' successfully created");
        case Some(DevindoExistError(_)) =>
          window.ShowErrorMessage("Devindo: '" + name + "' already exists");
        case Some(err) =>
          window.ShowErrorMessage("Error: " + err.Message());
      }
    }
  }

  /**
    `create` twice on the same fresh target: the first call builds the
    scaffold, the second is refused with the already-exists error and changes nothing.
   */
  method CreateTwice(g: DevindoGenerator, target: Path) returns (first: Option<Thrown>, second: Option<Thrown>)
    requires g.fs.Valid() && target !in g.fs.entries && MkdirError(g.fs.entries, target) == None
    modifies g.fs
    ensures first == None
    ensures second == Some(DevindoExistError("'" + Basename(target) + "' already exists"))
    ensures g.fs.entries == old(g.fs.entries) + Entries(target, g.templates)
  {
    first := g.Create(target);
    ghost var created := g.fs.entries;
    assert target in created;
    second := g.Create(target);
    assert g.fs.entries == created;
  }

  /** A workspace "/ws" holding only its "lib" folder. */
  lemma WorkspaceIsTree()
    ensures TreeShaped(map[[] := Dir, ["ws"] := Dir, ["ws", "lib"] := Dir])
  {
    assert Parent(["ws"]) == [];
    assert Parent(["ws", "lib"]) == ["ws"];
  }

  /** The same workspace once it already holds "lib/mvvm". */
  lemma WorkspaceWithDevindoIsTree()
    ensures TreeShaped(map[[] := Dir, ["ws"] := Dir, ["ws", "lib"] := Dir, ["ws", "lib", "mvvm"] := Dir])
  {
    assert Parent(["ws"]) == [];
    assert Parent(["ws", "lib"]) == ["ws"];
    assert Parent(["ws", "lib", "mvvm"]) == ["ws", "lib"];
  }

  /** Entering "mvvm" in a workspace without it creates lib/mvvm and reports success. */
  method FreshNameIsCreated() returns (log: seq<Message>, entries: map<Path, Node>)
    ensures log == [Information("Devindo: '" + "mvvm" + "' successfully created")]
    ensures entries == map[[] := Dir, ["ws"] := Dir, ["ws", "lib"] := Dir] + Entries(["ws", "lib", "mvvm"], DevindoTexts)
  {
    WorkspaceIsTree();
    var fs := new FileSystem(map[[] := Dir, ["ws"] := Dir, ["ws", "lib"] := Dir]);
    var window := new Window();
    var generator := new DevindoGenerator("/ws", window, fs, "/");
    ghost var target := ["ws", "lib", "mvvm"];
    BareNameExample("/");
    assert MkdirError(fs.entries, target) == None by {
      assert Parent(target) == ["ws", "lib"];
    }
    generator.Execute(Some("mvvm"));
    log, entries := window.log, fs.entries;
  }

  /** Entering "mvvm" again reports that it exists and changes nothing. */
  method ExistingNameIsReported() returns (log: seq<Message>, entries: map<Path, Node>)
    ensures log == [Error("Devindo: '" + "mvvm" + "' already exists")]
    ensures entries == map[[] := Dir, ["ws"] := Dir, ["ws", "lib"] := Dir, ["ws", "lib", "mvvm"] := Dir]
  {
    WorkspaceWithDevindoIsTree();
    var fs := new FileSystem(map[[] := Dir, ["ws"] := Dir, ["ws", "lib"] := Dir, ["ws", "lib", "mvvm"] := Dir]);
    var window := new Window();
    var generator := new DevindoGenerator("/ws", window, fs, "/");
    BareNameExample("/");
    generator.Execute(Some("mvvm"));
    log, entries := window.log, fs.entries;
  }

  /** Cancelling the input box, or leaving it empty, does nothing. */
  method CancelDoesNothing() returns (log: seq<Message>, entries: map<Path, Node>)
    ensures log == []
    ensures entries == map[[] := Dir, ["ws"] := Dir, ["ws", "lib"] := Dir]
  {
    WorkspaceIsTree();
    var fs := new FileSystem(map[[] := Dir, ["ws"] := Dir, ["ws", "lib"] := Dir]);
    var window := new Window();
    var generator := new DevindoGenerator("/ws", window, fs, "/");
    generator.Execute(None);
    generator.Execute(Some(""));
    log, entries := window.log, fs.entries;
  }
}
