/**
 * The part of the media directory the core touches, as two sets of paths
 * relative to MEDIA_ROOT (each path a sequence of components). MEDIA_ROOT
 * itself is the empty path and is always a directory.
 */
module FileSystem {
  import opened Wrappers

  type Path = seq<string>

  function Parent(p: Path): Path
    requires p != []
  {
    p[..|p| - 1]
  }

  /** Every non-empty leading part of `p`: the directories `mkdir(parents=True)` creates. */
  function Prefixes(p: Path): set<Path>
  {
    set k | 1 <= k <= |p| :: p[..k]
  }

  /** The parent of a created directory is MEDIA_ROOT or was created too. */
  lemma PrefixesClosed(p: Path)
    ensures forall q :: q in Prefixes(p) ==> q != [] && (Parent(q) == [] || Parent(q) in Prefixes(p))
  {
    forall q | q in Prefixes(p)
      ensures q != [] && (Parent(q) == [] || Parent(q) in Prefixes(p))
    {
      var k :| 1 <= k <= |p| && q == p[..k];
      assert Parent(q) == p[..k - 1];
    }
  }

  datatype FileTree = FileTree(dirs: set<Path>, files: set<Path>)
  {
    predicate IsDir(p: Path) { p == [] || p in dirs }

    /** `Path.exists()`: true for files and directories alike. */
    predicate Exists(p: Path) { IsDir(p) || p in files }

    /** A tree: nothing is both a file and a directory, and every entry's parent is a directory. */
    ghost predicate Valid()
    {
      && [] !in dirs && [] !in files
      && (forall p :: p in dirs ==> p !in files)
      && (forall p :: p in dirs ==> IsDir(Parent(p)))
      && (forall p :: p in files ==> IsDir(Parent(p)))
    }

    /** Some leading part of `p`, or `p` itself, is a regular file. */
    predicate FileInTheWay(p: Path)
    {
      exists k :: 1 <= k <= |p| && p[..k] in files
    }
  }

  /**
   * `Path.mkdir(parents=True, exist_ok=True)`: creates `p` and its missing
   * parents, accepts directories that already exist, and raises (None here)
   * when `p` or one of its parents is a regular file.
   */
  function MakeDirs(t: FileTree, p: Path): (r: Option<FileTree>)
    ensures r.None? <==> t.FileInTheWay(p)
    ensures r.Some? ==> r.value.files == t.files && r.value.dirs == t.dirs + Prefixes(p)
    ensures r.Some? ==> r.value.IsDir(p)
    ensures r.Some? && t.Valid() ==> r.value.Valid()
  {
    if t.FileInTheWay(p) then None
    else
      var r := t.(dirs := t.dirs + Prefixes(p));
      assert p == [] || p == p[..|p|];
      PrefixesClosed(p);
      Some(r)
  }

  /** Creating directories that already exist changes nothing (`exist_ok=True`). */
  lemma MakeDirsIdempotent(t: FileTree, p: Path)
    requires MakeDirs(t, p).Some?
    ensures MakeDirs(MakeDirs(t, p).value, p) == MakeDirs(t, p)
  {
    var t1 := MakeDirs(t, p).value;
    assert t1.dirs + Prefixes(p) == t1.dirs;
  }

  /** Writing a regular file into an existing directory. */
  function AddFile(t: FileTree, p: Path): (r: FileTree)
    requires p != [] && t.IsDir(Parent(p)) && p !in t.dirs
    ensures r.dirs == t.dirs && r.files == t.files + {p}
    ensures t.Valid() ==> r.Valid()
  {
    t.(files := t.files + {p})
  }

  /** `Path.unlink()` of an existing regular file. */
  function RemoveFile(t: FileTree, p: Path): (r: FileTree)
    requires p in t.files
    ensures r.dirs == t.dirs && r.files == t.files - {p}
    ensures t.Valid() ==> r.Valid()
  {
    t.(files := t.files - {p})
  }
}
