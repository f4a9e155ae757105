/**
 * An abstract file system: the set of directories and a map from file path to what the file
 * holds. JSON and pickle files hold the values the code dumped into them (their byte formats
 * are the libraries' concern); every other file holds bytes.
 */
module FileSystem {
  import opened Wrappers
  import opened Stores
  import opened Base64

  type Path = string

  /** POSIX `os.path.join(a, b)`: an absolute `b` replaces `a`; otherwise one '/' separates them. */
  function PathJoin(a: Path, b: string): Path
  {
    if |b| > 0 && b[0] == '/' then b
    else if a == "" || a[|a| - 1] == '/' then a + b
    else a + "/" + b
  }

  predicate Relative(name: string)
  {
    name == [] || name[0] != '/'
  }

  /** Joining distinct relative names to one directory gives distinct paths, none equal to the
      directory itself when the name is not empty. */
  lemma {:induction false} PathJoinInjective(a: Path, b1: string, b2: string)
    requires Relative(b1) && Relative(b2)
    ensures PathJoin(a, b1) == PathJoin(a, b2) <==> b1 == b2
    ensures b1 != [] ==> PathJoin(a, b1) != a
  {
    var pre := if a == "" || a[|a| - 1] == '/' then a else a + "/";
    assert PathJoin(a, b1) == pre + b1 && PathJoin(a, b2) == pre + b2;
    if pre + b1 == pre + b2 {
      assert b1 == (pre + b1)[|pre|..] && b2 == (pre + b2)[|pre|..];
    }
  }

  /** What a file holds. */
  datatype FileContent =
    | SettingsJson(collectionName: Option<string>)       // {"collection_name": ...}, the key may be absent
    | DocstorePickle(store: OrderedDict)                  // a pickled in-memory document store
    | ParamsPickle(idKey: Option<string>, searchKwargs: Option<map<string, int>>)
    | Bytes(data: seq<Byte>)

  /** The state of the disk. */
  datatype FsState = FsState(dirs: set<Path>, files: map<Path, FileContent>) {

    /** No path is both a directory and a file. */
    ghost predicate Valid()
    {
      dirs !! files.Keys
    }

    /** `os.path.exists(p)`. */
    predicate Exists(p: Path)
    {
      p in dirs || p in files
    }

    /** Opening `p` for reading. */
    function Read(p: Path): (r: Result<FileContent, Exception>)
      ensures r.Success? <==> p in files
      ensures r.Success? ==> r.value == files[p]
    {
      if p in files then Success(files[p])
      else if p in dirs then Failure(IsADirectoryError(p))
      else Failure(FileNotFoundError(p))
    }

    /** Some directory on the way to `p` (a prefix of `p` ending before one of its '/') is a file. */
    predicate FileAbove(p: Path)
    {
      exists k :: 0 < k < |p| && p[k] == '/' && p[..k] in files
    }

    /** `os.makedirs(p, exist_ok=True)`: fails when a file is in the way, either further up the
        path (ENOTDIR, raised while making the parents) or at `p` itself (EEXIST). */
    function MakeDirs(p: Path): (r: Step)
      ensures r.outcome.Success? <==> p !in files && !FileAbove(p)
      ensures FileAbove(p) ==> r.outcome == Failure(NotADirectoryError(p))
      ensures !FileAbove(p) && p in files ==> r.outcome == Failure(FileExistsError(p))
      ensures r.outcome.Success? ==> r.fs == FsState(dirs + {p}, files)
      ensures r.outcome.Failure? ==> r.fs == this
      ensures Valid() ==> r.fs.Valid()
    {
      if FileAbove(p) then Step(Failure(NotADirectoryError(p)), this)
      else if p in files then Step(Failure(FileExistsError(p)), this)
      else Step(Success(()), FsState(dirs + {p}, files))
    }

    /** `os.remove(p)`: only a file can be removed; a directory is EISDIR (as on Linux), a missing
        path ENOENT. */
    function Remove(p: Path): (r: Step)
      ensures r.outcome.Success? <==> p in files
      ensures r.outcome.Success? ==> r.fs == FsState(dirs, files - {p})
      ensures p !in files && p in dirs ==> r.outcome == Failure(IsADirectoryError(p))
      ensures r.outcome.Failure? ==> r.fs == this
    {
      if p in files then Step(Success(()), FsState(dirs, files - {p}))
      else if p in dirs then Step(Failure(IsADirectoryError(p)), this)
      else Step(Failure(FileNotFoundError(p)), this)
    }

    /** `open(os.path.join(dir, name), "w")` and writing `c`: the directory must exist and the
        path must not be a directory; a file where the directory should be is ENOTDIR, a missing
        directory ENOENT. */
    function Write(dir: Path, name: string, c: FileContent): (r: Step)
      ensures r.outcome.Success? <==> dir in dirs && PathJoin(dir, name) !in dirs
      ensures dir !in dirs && dir in files ==> r.outcome == Failure(NotADirectoryError(PathJoin(dir, name)))
      ensures dir !in files && dir !in dirs ==> r.outcome == Failure(FileNotFoundError(PathJoin(dir, name)))
      ensures r.outcome.Success? ==> r.fs == FsState(dirs, files[PathJoin(dir, name) := c])
      ensures r.outcome.Failure? ==> r.fs == this
      ensures Valid() ==> r.fs.Valid()
    {
      var p := PathJoin(dir, name);
      if dir !in dirs then
        Step(Failure(if dir in files then NotADirectoryError(p) else FileNotFoundError(p)), this)
      else if p in dirs then Step(Failure(IsADirectoryError(p)), this)
      else Step(Success(()), FsState(dirs, files[p := c]))
    }
  }

  /** The outcome of a file-system operation and the state after it. */
  datatype Step = Step(outcome: Result<(), Exception>, fs: FsState)

  /** The process's view of the disk, which the modelled code changes in place. */
  class Disk {
    var state: FsState

    constructor(initial: FsState)
      ensures state == initial
    {
      state := initial;
    }

    method MakeDirs(p: Path) returns (r: Result<(), Exception>)
      modifies this
      ensures Step(r, state) == old(state).MakeDirs(p)
    {
      var s := state.MakeDirs(p);
      r, state := s.outcome, s.fs;
    }

    method Write(dir: Path, name: string, c: FileContent) returns (r: Result<(), Exception>)
      modifies this
      ensures Step(r, state) == old(state).Write(dir, name, c)
    {
      var s := state.Write(dir, name, c);
      r, state := s.outcome, s.fs;
    }

    method Remove(p: Path) returns (r: Result<(), Exception>)
      modifies this
      ensures Step(r, state) == old(state).Remove(p)
    {
      var s := state.Remove(p);
      r, state := s.outcome, s.fs;
    }
  }
}
