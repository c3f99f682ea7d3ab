/**
  The fixed scaffold the generator writes: the five sub-directories of
  `devindoFolder`, in order, and six files whose contents are constant
  template texts. The texts are opaque to the model; only their identity
  matters.
 */
module Scaffold {
  import opened Wrappers
  import opened Paths
  import opened FileSystem

  /** `devindoFolder`: the sub-directories created, in this order. */
  const DevindoFolder: seq<string> := ["app", "assets", "screens", "services", "utils"]

  /** `p` is `root` followed by exactly one more segment. */
  predicate ChildOf(p: Path, root: Path) {
    |p| == |root| + 1 && p[..|root|] == root
  }

  lemma ChildIsAppend(root: Path, name: string)
    ensures ChildOf(root + [name], root) && (root + [name])[|root|] == name
  {
    assert (root + [name])[..|root|] == root;
  }

  /** The directories the `devindoFolder` loop has made under `root` once it has handled `names`. */
  function SubdirEntries(root: Path, names: seq<string>): (m: map<Path, Node>)
    ensures forall p :: p in m <==> ChildOf(p, root) && p[|root|] in names
    ensures forall p :: p in m ==> m[p] == Dir
    decreases |names|
  {
    if names == [] then map[]
    else
      var init, last := names[..|names| - 1], names[|names| - 1];
      assert forall n :: n in names <==> n in init || n == last by {
        assert names == init + [last];
      }
      forall p | ChildOf(p, root) ensures p == root + [last] <==> p[|root|] == last {
        if p[|root|] == last {
          assert p == root + [last];
        }
      }
      SubdirEntries(root, init)[root + [last] := Dir]
  }

  /** No name of `devindoFolder` occurs twice. */
  lemma FolderNamesDistinct()
    ensures forall i :: 0 <= i < |DevindoFolder| ==> DevindoFolder[i] !in DevindoFolder[..i]
  {
  }

  /** The file paths of the scaffold under `root`. */
  function FilePaths(root: Path): set<Path> {
    {root + ["screens", "home.dart"], root + ["app", "locator.dart"], root + ["app", "router.dart"],
     root + ["app", "thid_party_app.dart"], root + ["depedency_need_to_remove.dart"], root + ["main.dart"]}
  }

  /** The six template texts, one per file the scaffold writes. */
  datatype Texts = Texts(home: string, locator: string, router: string, third: string, depedency: string, main: string)

  /** The six files, each at its place under `root` with its template text from `t`. */
  function FileEntries(root: Path, t: Texts): (m: map<Path, Node>)
    ensures m.Keys == FilePaths(root)
  {
    map[root + ["screens", "home.dart"] := File(t.home),
        root + ["app", "locator.dart"] := File(t.locator),
        root + ["app", "router.dart"] := File(t.router),
        root + ["app", "thid_party_app.dart"] := File(t.third),
        root + ["depedency_need_to_remove.dart"] := File(t.depedency),
        root + ["main.dart"] := File(t.main)]
  }

  /** In the scaffold, each file path holds its own text of `t`. */
  lemma FileContents(root: Path, t: Texts)
    ensures var e := Entries(root, t);
            && e[root + ["screens", "home.dart"]] == File(t.home)
            && e[root + ["app", "locator.dart"]] == File(t.locator)
            && e[root + ["app", "router.dart"]] == File(t.router)
            && e[root + ["app", "thid_party_app.dart"]] == File(t.third)
            && e[root + ["depedency_need_to_remove.dart"]] == File(t.depedency)
            && e[root + ["main.dart"]] == File(t.main)
  {
    var files := FileEntries(root, t);
    FileEntriesContents(root, t);
    forall k | k in files ensures Entries(root, t)[k] == files[k] {
      FileEntryWins(root, t, k);
    }
  }

  lemma FileEntryWins(root: Path, t: Texts, k: Path)
    requires k in FileEntries(root, t)
    ensures Entries(root, t)[k] == FileEntries(root, t)[k]
  {
  }

  lemma FileEntriesContents(root: Path, t: Texts)
    ensures var m := FileEntries(root, t);
            && m[root + ["screens", "home.dart"]] == File(t.home)
            && m[root + ["app", "locator.dart"]] == File(t.locator)
            && m[root + ["app", "router.dart"]] == File(t.router)
            && m[root + ["app", "thid_party_app.dart"]] == File(t.third)
            && m[root + ["depedency_need_to_remove.dart"]] == File(t.depedency)
            && m[root + ["main.dart"]] == File(t.main)
  {
    var n := |root|;
    var home, locator, router := root + ["screens", "home.dart"], root + ["app", "locator.dart"], root + ["app", "router.dart"];
    var third, dep, main := root + ["app", "thid_party_app.dart"], root + ["depedency_need_to_remove.dart"], root + ["main.dart"];
    assert |home| == |locator| == |router| == |third| == n + 2 && |dep| == |main| == n + 1;
    assert home[n] == "screens" && locator[n] == "app";
    assert locator[n + 1] == "locator.dart" && router[n + 1] == "router.dart" && third[n + 1] == "thid_party_app.dart";
    assert dep[n] == "depedency_need_to_remove.dart" && main[n] == "main.dart";
  }

  /** Everything one successful run adds below and at `root`. */
  function Entries(root: Path, t: Texts): map<Path, Node> {
    map[root := Dir] + SubdirEntries(root, DevindoFolder) + FileEntries(root, t)
  }

  /** The sub-directories of the scaffold, written out in the order they are made. */
  lemma SubdirsListed(root: Path)
    ensures SubdirEntries(root, DevindoFolder)
         == map[root + ["app"] := Dir, root + ["assets"] := Dir, root + ["screens"] := Dir,
                root + ["services"] := Dir, root + ["utils"] := Dir]
  {
    var n4, n3, n2, n1 := DevindoFolder[..4], DevindoFolder[..3], DevindoFolder[..2], DevindoFolder[..1];
    assert n4[..3] == n3 && n3[..2] == n2 && n2[..1] == n1 && n1[..0] == [];
    assert SubdirEntries(root, n1) == map[root + ["app"] := Dir];
    assert SubdirEntries(root, n2) == SubdirEntries(root, n1)[root + ["assets"] := Dir];
    assert SubdirEntries(root, n3) == SubdirEntries(root, n2)[root + ["screens"] := Dir];
    assert SubdirEntries(root, n4) == SubdirEntries(root, n3)[root + ["services"] := Dir];
    assert SubdirEntries(root, DevindoFolder) == SubdirEntries(root, n4)[root + ["utils"] := Dir];
  }

  /** The scaffold, written out: the root, its five sub-directories and the six files with their texts. */
  lemma EntriesListed(root: Path, t: Texts)
    ensures Entries(root, t)
         == map[root := Dir,
                root + ["app"] := Dir, root + ["assets"] := Dir, root + ["screens"] := Dir,
                root + ["services"] := Dir, root + ["utils"] := Dir,
                root + ["screens", "home.dart"] := File(t.home),
                root + ["app", "locator.dart"] := File(t.locator),
                root + ["app", "router.dart"] := File(t.router),
                root + ["app", "thid_party_app.dart"] := File(t.third),
                root + ["depedency_need_to_remove.dart"] := File(t.depedency),
                root + ["main.dart"] := File(t.main)]
  {
    SubdirsListed(root);
    var dirs := map[root := Dir] + SubdirEntries(root, DevindoFolder);
    FiveUpdates(map[root := Dir], root + ["app"], root + ["assets"], root + ["screens"],
      root + ["services"], root + ["utils"], Dir);
    SixUpdates(dirs,
      root + ["screens", "home.dart"], File(t.home),
      root + ["app", "locator.dart"], File(t.locator),
      root + ["app", "router.dart"], File(t.router),
      root + ["app", "thid_party_app.dart"], File(t.third),
      root + ["depedency_need_to_remove.dart"], File(t.depedency),
      root + ["main.dart"], File(t.main));
  }

  /** Where each file path sits: one or two segments below `root`, never on a directory of the scaffold. */
  lemma {:induction false} FilePathsAreNotDirs(root: Path, p: Path)
    requires p in FilePaths(root)
    ensures |root| < |p| && p[..|root|] == root
    ensures p != root && (!ChildOf(p, root) || p[|root|] !in DevindoFolder)
    ensures Parent(p) == root || Parent(p) == root + ["app"] || Parent(p) == root + ["screens"]
  {
    var n := |root|;
    if p == root + ["depedency_need_to_remove.dart"] || p == root + ["main.dart"] {
      assert p[n] == "depedency_need_to_remove.dart" || p[n] == "main.dart";
      assert p[..n] == root;
      assert Parent(p) == root;
    } else {
      var dir := if p == root + ["screens", "home.dart"] then "screens" else "app";
      var name := p[n + 1];
      assert p == root + [dir, name];
      assert p[..n] == root;
      assert Parent(p) == root + [dir];
    }
  }

  /** Every file is written into the root or into one of the sub-directories made before it. */
  lemma FilesInsideCreatedDirs(root: Path)
    ensures forall p :: p in FilePaths(root) ==>
              Parent(p) == root || Parent(p) in SubdirEntries(root, DevindoFolder)
  {
    SubdirsListed(root);
    forall p | p in FilePaths(root)
      ensures Parent(p) == root || Parent(p) in SubdirEntries(root, DevindoFolder)
    {
      FilePathsAreNotDirs(root, p);
    }
  }

  /** Below a missing `root` a tree has nothing, so the scaffold overlaps no existing entry. */
  lemma ScaffoldIsFresh(entries: map<Path, Node>, root: Path, t: Texts)
    requires TreeShaped(entries) && root !in entries
    ensures forall p :: p in Entries(root, t) ==> p !in entries
  {
    EntriesListed(root, t);
    forall p | p in Entries(root, t) ensures p !in entries {
      if p in FilePaths(root) {
        FilePathsAreNotDirs(root, p);
      } else if p != root {
        assert ChildOf(p, root);
      }
      var q := p[|root|..];
      assert p == root + q;
      NothingBelowMissing(entries, root, q);
    }
  }

  /** One step of the `devindoFolder` loop succeeds and adds the next sub-directory, provided its name is new. */
  lemma SubdirStep(entries: map<Path, Node>, root: Path, names: seq<string>, i: nat)
    requires TreeShaped(entries) && MkdirError(entries, root) == None
    requires i < |names| && names[i] !in names[..i]
    ensures var current := entries[root := Dir] + SubdirEntries(root, names[..i]);
            && MkdirError(current, root + [names[i]]) == None
            && current[root + [names[i]] := Dir] == entries[root := Dir] + SubdirEntries(root, names[..i + 1])
  {
    var next := root + [names[i]];
    assert next !in entries by {
      NothingBelowMissing(entries, root, [names[i]]);
    }
    assert next !in SubdirEntries(root, names[..i]) by {
      ChildIsAppend(root, names[i]);
    }
    assert Parent(next) == root;
    assert names[..i + 1][..i] == names[..i];
  }

  /** The state in which `create` writes its files: the three parent directories exist and no file path is a directory. */
  ghost predicate ReadyForFiles(m: map<Path, Node>, root: Path) {
    && root in m && m[root] == Dir
    && root + ["app"] in m && m[root + ["app"]] == Dir
    && root + ["screens"] in m && m[root + ["screens"]] == Dir
    && forall p :: p in FilePaths(root) && p in m ==> m[p].File?
  }

  /** No file path of the scaffold is there before the files are written. */
  lemma FileNotYetThere(entries: map<Path, Node>, root: Path, p: Path)
    requires TreeShaped(entries) && root !in entries
    requires p in FilePaths(root)
    ensures p !in entries[root := Dir] + SubdirEntries(root, DevindoFolder)
  {
    FilePathsAreNotDirs(root, p);
    var q := p[|root|..];
    assert p == root + q;
    NothingBelowMissing(entries, root, q);
  }

  /** Once the directories exist, the tree is ready for the files. */
  lemma ReadyAfterDirs(entries: map<Path, Node>, root: Path)
    requires TreeShaped(entries) && root !in entries
    ensures ReadyForFiles(entries[root := Dir] + SubdirEntries(root, DevindoFolder), root)
  {
    var subs := SubdirEntries(root, DevindoFolder);
    assert root + ["app"] in subs by {
      ChildIsAppend(root, "app");
      assert DevindoFolder[0] == "app";
    }
    assert root + ["screens"] in subs by {
      ChildIsAppend(root, "screens");
      assert DevindoFolder[2] == "screens";
    }
    forall p | p in FilePaths(root) ensures p !in entries[root := Dir] + subs {
      FileNotYetThere(entries, root, p);
    }
  }

  /** Every write of `create` succeeds in a ready tree, and leaves it ready. */
  lemma FileWriteSucceeds(m: map<Path, Node>, root: Path, p: Path, content: string)
    requires ReadyForFiles(m, root) && p in FilePaths(root)
    ensures WriteError(m, p) == None
    ensures ReadyForFiles(m[p := File(content)], root)
  {
    FilePathsAreNotDirs(root, p);
    assert p != root + ["app"] && p != root + ["screens"] by {
      ChildIsAppend(root, "app");
      ChildIsAppend(root, "screens");
    }
  }

  /** Five updates with one value in a row are the union with the five-entry map. */
  lemma FiveUpdates(m: map<Path, Node>, k1: Path, k2: Path, k3: Path, k4: Path, k5: Path, v: Node)
    ensures m[k1 := v][k2 := v][k3 := v][k4 := v][k5 := v] == m + map[k1 := v, k2 := v, k3 := v, k4 := v, k5 := v]
  {
  }

  /** Six updates in a row are the union with the six-entry map. */
  lemma SixUpdates(m: map<Path, Node>, k1: Path, v1: Node, k2: Path, v2: Node, k3: Path, v3: Node,
                   k4: Path, v4: Node, k5: Path, v5: Node, k6: Path, v6: Node)
    ensures m[k1 := v1][k2 := v2][k3 := v3][k4 := v4][k5 := v5][k6 := v6]
         == m + map[k1 := v1, k2 := v2, k3 := v3, k4 := v4, k5 := v5, k6 := v6]
  {
  }

  /** The directories followed by the six writes, in the order `create` makes them, give exactly the scaffold. */
  lemma ScaffoldComplete(entries: map<Path, Node>, root: Path, t: Texts)
    ensures (entries[root := Dir] + SubdirEntries(root, DevindoFolder))
              [root + ["screens", "home.dart"] := File(t.home)]
              [root + ["app", "locator.dart"] := File(t.locator)]
              [root + ["app", "router.dart"] := File(t.router)]
              [root + ["app", "thid_party_app.dart"] := File(t.third)]
              [root + ["depedency_need_to_remove.dart"] := File(t.depedency)]
              [root + ["main.dart"] := File(t.main)]
         == entries + Entries(root, t)
  {
    var dirs := SubdirEntries(root, DevindoFolder);
    SixUpdates(entries[root := Dir] + dirs,
      root + ["screens", "home.dart"], File(t.home),
      root + ["app", "locator.dart"], File(t.locator),
      root + ["app", "router.dart"], File(t.router),
      root + ["app", "thid_party_app.dart"], File(t.third),
      root + ["depedency_need_to_remove.dart"], File(t.depedency),
      root + ["main.dart"], File(t.main));
    UnionRegroup(entries, root, dirs, FileEntries(root, t));
  }

  lemma UnionRegroup(entries: map<Path, Node>, root: Path, dirs: map<Path, Node>, files: map<Path, Node>)
    ensures entries[root := Dir] + dirs + files == entries + (map[root := Dir] + dirs + files)
  {
  }
}
