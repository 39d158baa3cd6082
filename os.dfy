/**
 * The slice of the operating system the trust gate touches, as values:
 * a filesystem snapshot mapping absolute paths to entries, `filepath.Base`
 * on Unix paths, `os.Lstat`, and `os.Open` followed by reading to the end.
 */
module Os {
  import opened Wrappers

  type Path = string
  type Bytes = seq<bv8>

  /** What a path names once symbolic links are followed. */
  datatype Inode = File(content: Bytes, readable: bool) | Dir

  /** A directory entry as lstat(2) reports it: a file or directory, or a symbolic link. */
  datatype Entry = Plain(inode: Inode) | Symlink(target: Path)

  /** Every path is a full key; a link's target is another key of the same map. */
  type FileSystem = map<Path, Entry>

  datatype Errno = ENOENT | EACCES | EISDIR | ELOOP

  /** Go's *os.PathError: the failing operation, the path it was given, and the cause. */
  datatype PathError = PathError(op: string, path: Path, err: Errno)

  /** Linux gives up resolving a path after this many symbolic links (MAXSYMLINKS). */
  const MaxSymlinks: nat := 40

  // ---------------------------------------------------------------------
  // filepath.Base on a system whose separator is '/'
  // ---------------------------------------------------------------------

  function TrimTrailingSlashes(path: Path): (p: Path)
    ensures |p| <= |path| && p == path[..|p|]
    ensures p == [] || p[|p| - 1] != '/'
  {
    if path != [] && path[|path| - 1] == '/' then TrimTrailingSlashes(path[..|path| - 1]) else path
  }

  /** The characters after the last '/' of p, or all of p when it has none. */
  function LastElement(p: Path): (e: Path)
    ensures |e| <= |p| && e == p[|p| - |e|..]
    ensures '/' !in e
    ensures |e| < |p| ==> p[|p| - |e| - 1] == '/'
    ensures p != [] && p[|p| - 1] != '/' ==> e != []
  {
    if p == [] || p[|p| - 1] == '/' then [] else LastElement(p[..|p| - 1]) + [p[|p| - 1]]
  }

  /** The last element of path: trailing slashes are ignored, "" gives "." and a path of only slashes gives "/". */
  function Base(path: Path): (name: Path)
    ensures name != ""
    ensures path == "" ==> name == "."
  {
    if path == "" then "."
    else
      var p := TrimTrailingSlashes(path);
      if p == "" then "/" else LastElement(p)
  }

  /** A single path element other than ".": what a binary can be called. */
  predicate IsElement(name: Path) {
    name != "" && name != "." && '/' !in name
  }

  /** Without its trailing slashes, path ends in name, and name is a whole element (it starts the path or follows a '/'). */
  predicate EndsWithElement(path: Path, name: Path) {
    var p := TrimTrailingSlashes(path);
    |name| <= |p| && p[|p| - |name|..] == name && (|name| == |p| || p[|p| - |name| - 1] == '/')
  }

  /** Base picks out exactly the last element of a path. */
  lemma BaseIsLastElement(path: Path, name: Path)
    requires IsElement(name)
    ensures Base(path) == name <==> EndsWithElement(path, name)
  {
    var p := TrimTrailingSlashes(path);
    if path != "" && p != "" && EndsWithElement(path, name) {
      var e := LastElement(p);
      // Neither of the two suffixes can be longer: the longer would hold the '/' before the shorter.
      assert |e| == |name|;
    }
  }

  /** Base inverts joining a directory and a name. */
  lemma BaseOfChild(dir: Path, name: Path)
    requires IsElement(name)
    ensures Base(dir + "/" + name) == name
  {
    var path := dir + "/" + name;
    assert path[|path| - |name|..] == name;
    assert path[|path| - |name| - 1] == '/';
    BaseIsLastElement(path, name);
  }

  // ---------------------------------------------------------------------
  // Lstat, Open and read
  // ---------------------------------------------------------------------

  /** os.Lstat: the entry itself, a symbolic link not followed. */
  function Lstat(fs: FileSystem, path: Path): (r: Result<Entry, PathError>)
    ensures r.Success? <==> path in fs
    ensures r.Success? ==> r.value == fs[path]
    ensures r.Failure? ==> r.error == PathError("lstat", path, ENOENT)
  {
    if path in fs then Success(fs[path]) else Failure(PathError("lstat", path, ENOENT))
  }

  /** Path resolution as open(2) does it: follow links, with at most `hops` more to go. */
  function Follow(fs: FileSystem, path: Path, hops: nat): (r: Result<Inode, Errno>)
    ensures r.Failure? ==> r.error in {ENOENT, ELOOP}
    ensures path in fs && fs[path].Plain? ==> r == Success(fs[path].inode)
    decreases hops
  {
    if path !in fs then Failure(ENOENT)
    else match fs[path]
      case Plain(inode) => Success(inode)
      case Symlink(target) => if hops == 0 then Failure(ELOOP) else Follow(fs, target, hops - 1)
  }

  /**
   * os.Open followed by reading until EOF: opening follows links and needs
   * read permission; a directory opens but cannot be read.
   */
  function ReadAll(fs: FileSystem, path: Path): (r: Result<Bytes, PathError>)
    ensures path !in fs ==> r == Failure(PathError("open", path, ENOENT))
    ensures path in fs && fs[path].Plain? ==>
      (r.Success? <==> fs[path].inode.File? && fs[path].inode.readable)
    ensures path in fs && fs[path] == Plain(Dir) ==> r == Failure(PathError("read", path, EISDIR))
    ensures path in fs && fs[path].Plain? && fs[path].inode.File? && !fs[path].inode.readable ==>
      r == Failure(PathError("open", path, EACCES))
    ensures r.Success? ==> Follow(fs, path, MaxSymlinks) == Success(File(r.value, true))
    ensures r.Failure? ==> r.error.path == path
  {
    match Follow(fs, path, MaxSymlinks)
    case Failure(e) => Failure(PathError("open", path, e))
    case Success(File(content, readable)) =>
      if readable then Success(content) else Failure(PathError("open", path, EACCES))
    case Success(Dir) => Failure(PathError("read", path, EISDIR))
  }

  /**
   * ioutil.WriteFile onto a regular file or a fresh path: the file holds
   * exactly data; a new file is created readable (mode 0644), an existing
   * one keeps its permissions.
   */
  function WriteFile(fs: FileSystem, path: Path, data: Bytes): (fs': FileSystem)
    requires path !in fs || (fs[path].Plain? && fs[path].inode.File?)
    ensures var readable := path !in fs || fs[path].inode.readable;
      && Lstat(fs', path) == Success(Plain(File(data, readable)))
      && ReadAll(fs', path) == if readable then Success(data) else Failure(PathError("open", path, EACCES))
    ensures forall q :: q != path ==> Lstat(fs', q) == Lstat(fs, q)
  {
    var readable := path !in fs || fs[path].inode.readable;
    fs[path := Plain(File(data, readable))]
  }
}
