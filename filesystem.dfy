/**
  An abstract POSIX file system standing in for Node's `fs`: a map from
  canonical absolute paths to directories and files. Only the three calls the
  generator makes are modelled: `existsSync`, a non-recursive `mkdirSync` and
  a whole-content `writeFileSync`, with the error codes Node reports for them.
 */
module FileSystem {
  import opened Wrappers
  import opened Paths

  datatype Node = Dir | File(content: string)

  datatype ErrorCode = EEXIST | ENOENT | ENOTDIR | EISDIR {
    function Name(): string {
      match this
      case EEXIST => "EEXIST"
      case ENOENT => "ENOENT"
      case ENOTDIR => "ENOTDIR"
      case EISDIR => "EISDIR"
    }

    function Description(): string {
      match this
      case EEXIST => "file already exists"
      case ENOENT => "no such file or directory"
      case ENOTDIR => "not a directory"
      case EISDIR => "illegal operation on a directory"
    }
  }

  /** A failed system call: its code, the call ("mkdir" or "open") and the path. */
  datatype FsError = FsError(code: ErrorCode, syscall: string, path: string) {
    /** The `message` of the error Node throws, e.g. "ENOENT: no such file or directory, mkdir '/x/y'". */
    function Message(): string {
      code.Name() + ": " + code.Description() + ", " + syscall + " '" + path + "'"
    }
  }

  function Parent(p: Path): Path {
    if p == [] then [] else p[..|p| - 1]
  }

  /** The root is a directory and every other entry sits in a directory. */
  ghost predicate TreeShaped(entries: map<Path, Node>) {
    && [] in entries && entries[[]] == Dir
    && forall p {:trigger Parent(p)} :: p in entries && p != [] ==> Parent(p) in entries && entries[Parent(p)] == Dir
  }

  /** Why `mkdir p` fails, if it does. */
  function MkdirError(entries: map<Path, Node>, p: Path): Option<FsError> {
    if p in entries then Some(FsError(EEXIST, "mkdir", Render(p)))
    else if Parent(p) !in entries then Some(FsError(ENOENT, "mkdir", Render(p)))
    else if entries[Parent(p)].File? then Some(FsError(ENOTDIR, "mkdir", Render(p)))
    else None
  }

  /** Why opening `p` for writing fails, if it does. */
  function WriteError(entries: map<Path, Node>, p: Path): Option<FsError> {
    if p in entries && entries[p] == Dir then Some(FsError(EISDIR, "open", Render(p)))
    else if Parent(p) !in entries then Some(FsError(ENOENT, "open", Render(p)))
    else if entries[Parent(p)].File? then Some(FsError(ENOTDIR, "open", Render(p)))
    else None
  }

  lemma MkdirKeepsTree(entries: map<Path, Node>, p: Path)
    requires TreeShaped(entries) && MkdirError(entries, p) == None
    ensures p != [] && TreeShaped(entries[p := Dir])
  {
  }

  lemma WriteKeepsTree(entries: map<Path, Node>, p: Path, content: string)
    requires TreeShaped(entries) && WriteError(entries, p) == None
    ensures p != [] && TreeShaped(entries[p := File(content)])
  {
  }

  /** In a tree, nothing lies below a path that is not there. */
  lemma {:induction false} NothingBelowMissing(entries: map<Path, Node>, p: Path, q: Path)
    requires TreeShaped(entries)
    requires p !in entries
    ensures p + q !in entries
    decreases |q|
  {
    if q == [] {
      assert p + q == p;
    } else {
      var init := q[..|q| - 1];
      NothingBelowMissing(entries, p, init);
      assert Parent(p + q) == p + init;
    }
  }

  class FileSystem {
    var entries: map<Path, Node>

    ghost predicate Valid()
      reads this
    {
      TreeShaped(entries)
    }

    constructor (entries: map<Path, Node>)
      requires TreeShaped(entries)
      ensures Valid() && this.entries == entries
    {
      this.entries := entries;
    }

    /** `fs.existsSync(p)`: an entry, file or directory, is at `p`. */
    function ExistsSync(p: Path): bool
      reads this
    {
      p in entries
    }

    /** `fs.mkdirSync(p)`: creates one directory whose parent already exists. */
    method MkdirSync(p: Path) returns (err: Option<FsError>)
      requires Valid()
      modifies this
      ensures Valid()
      ensures err == MkdirError(old(entries), p)
      ensures entries == if err == None then old(entries)[p := Dir] else old(entries)
    {
      err := MkdirError(entries, p);
      if err == None {
        MkdirKeepsTree(entries, p);
        entries := entries[p := Dir];
      }
    }

    /** `fs.writeFileSync(p, content)`: creates or replaces the whole file. */
    method WriteFileSync(p: Path, content: string) returns (err: Option<FsError>)
      requires Valid()
      modifies this
      ensures Valid()
      ensures err == WriteError(old(entries), p)
      ensures entries == if err == None then old(entries)[p := File(content)] else old(entries)
    {
      err := WriteError(entries, p);
      if err == None {
        WriteKeepsTree(entries, p, content);
        entries := entries[p := File(content)];
      }
    }
  }
}
