/**
 * An abstract filesystem: a set of directories and a map from file path to
 * content.  The journal lists, in order, the directory creations and file
 * writes that took effect, so that the order of effects can be stated.
 */
module FileSystem {
  import opened PathModel
  import Transform
  import LineageRecord

  datatype Content =
    | Text(text: string)
    | ParquetTable(frame: Transform.OutFrame)
    | JsonRecord(record: LineageRecord.RunMetadata)

  datatype Effect = MadeDirs(dir: Path) | Wrote(file: Path)

  datatype FsState = FsState(dirs: set<Path>, files: map<Path, Content>, journal: seq<Effect>)

  /** `q` is `p` or one of its ancestors, other than the empty (current) path. */
  predicate IsPrefixOf(q: Path, p: Path) {
    0 < |q| <= |p| && q == p[..|q|]
  }

  /**
   * The current directory always exists, no path is both a directory and a
   * file, and the parent of every directory and of every file is a directory.
   */
  predicate Consistent(s: FsState) {
    && [] in s.dirs
    && s.dirs !! s.files.Keys
    && (forall d :: d in s.dirs && d != [] ==> d[..|d| - 1] in s.dirs)
    && (forall f :: f in s.files ==> f != [] && f[..|f| - 1] in s.dirs)
  }

  /** `p` and its ancestors, other than the empty (current) path. */
  function Prefixes(p: Path): set<Path> {
    set i | 0 < i <= |p| :: p[..i]
  }

  /** `mkdir(parents=True, exist_ok=True)` succeeds unless a file is in the way. */
  predicate CanMakeDirs(s: FsState, p: Path) {
    Prefixes(p) !! s.files.Keys
  }

  function AfterMakeDirs(s: FsState, p: Path): (s': FsState)
    ensures s'.dirs == s.dirs + Prefixes(p) && s'.files == s.files
  {
    s.(dirs := s.dirs + Prefixes(p), journal := s.journal + [MadeDirs(p)])
  }

  /** A file can be (over)written when its parent is a directory and it is not one itself. */
  predicate CanWrite(s: FsState, p: Path) {
    p != [] && p[..|p| - 1] in s.dirs && p !in s.dirs
  }

  function AfterWrite(s: FsState, p: Path, c: Content): (s': FsState)
    ensures s'.files == s.files[p := c] && s'.dirs == s.dirs
  {
    s.(files := s.files[p := c], journal := s.journal + [Wrote(p)])
  }

  lemma MakeDirsKeepsConsistent(s: FsState, p: Path)
    requires Consistent(s) && CanMakeDirs(s, p)
    ensures Consistent(AfterMakeDirs(s, p))
  {
    var s' := AfterMakeDirs(s, p);
    forall d | d in s'.dirs && d != []
      ensures d[..|d| - 1] in s'.dirs
    {
      if d !in s.dirs {
        var i :| 0 < i <= |p| && d == p[..i];
        if i > 1 {
          assert d[..|d| - 1] == p[..i - 1];
        }
      }
    }
  }

  /** Creating a directory that exists already changes nothing but the journal. */
  lemma MakeDirsIdempotent(s: FsState, p: Path)
    requires Consistent(s) && p in s.dirs
    ensures CanMakeDirs(s, p)
    ensures AfterMakeDirs(s, p).dirs == s.dirs && AfterMakeDirs(s, p).files == s.files
  {
    AncestorsExist(s, p, 0);
  }

  lemma {:induction false} AncestorsExist(s: FsState, p: Path, i: nat)
    requires Consistent(s) && p in s.dirs && i <= |p|
    ensures forall j :: i <= j <= |p| ==> p[..j] in s.dirs && p[..j] !in s.files
    decreases |p| - i
  {
    if i < |p| {
      AncestorsExist(s, p, i + 1);
    }
    assert p[..|p|] == p;
    if i < |p| {
      assert p[..i + 1][..i] == p[..i];
    }
  }

  /** In a consistent filesystem, nothing below a missing directory is a directory. */
  lemma {:induction false} MissingBelow(s: FsState, d: Path, k: nat)
    requires Consistent(s) && k <= |d| && d[..k] !in s.dirs
    ensures d !in s.dirs
    decreases |d| - k
  {
    if k < |d| {
      assert d[..k + 1][..k] == d[..k];
      MissingBelow(s, d, k + 1);
    } else {
      assert d[..k] == d;
    }
  }

  /** A file can be written again at once, and the second content replaces the first. */
  lemma WriteTwice(s: FsState, p: Path, c1: Content, c2: Content)
    requires CanWrite(s, p)
    ensures CanWrite(AfterWrite(s, p, c1), p)
    ensures AfterWrite(AfterWrite(s, p, c1), p, c2).files == s.files[p := c2]
  {
    assert s.files[p := c1][p := c2] == s.files[p := c2];
  }

  lemma WriteKeepsConsistent(s: FsState, p: Path, c: Content)
    requires Consistent(s) && CanWrite(s, p)
    ensures Consistent(AfterWrite(s, p, c))
  {
  }

  /** The filesystem the program writes to. */
  class Store {
    var dirs: set<Path>
    var files: map<Path, Content>
    ghost var journal: seq<Effect>

    ghost function State(): FsState
      reads this
    {
      FsState(dirs, files, journal)
    }

    constructor (dirs: set<Path>, files: map<Path, Content>)
      ensures State() == FsState(dirs, files, [])
    {
      this.dirs := dirs;
      this.files := files;
      journal := [];
    }

    /** `Path(p).mkdir(parents=True, exist_ok=True)` */
    method MakeDirs(p: Path) returns (ok: bool)
      modifies this
      ensures ok == CanMakeDirs(old(State()), p)
      ensures State() == if ok then AfterMakeDirs(old(State()), p) else old(State())
    {
      ok := Prefixes(p) !! files.Keys;
      if ok {
        dirs := dirs + Prefixes(p);
        journal := journal + [MadeDirs(p)];
      }
    }

    /** `write_text` / `write_parquet`: replaces the whole content of the file. */
    method Write(p: Path, c: Content) returns (ok: bool)
      modifies this
      ensures ok == CanWrite(old(State()), p)
      ensures State() == if ok then AfterWrite(old(State()), p, c) else old(State())
    {
      ok := p != [] && p[..|p| - 1] in dirs && p !in dirs;
      if ok {
        files := files[p := c];
        journal := journal + [Wrote(p)];
      }
    }
  }
}
