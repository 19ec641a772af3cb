/**
 * The part of the filesystem the cache touches: regular files holding
 * values, and directories.  `Ensure` is py.path's `ensure(dir=1)`, which
 * creates a directory together with every missing ancestor.
 */
module FileTree {
  import opened Paths
  import opened Values

  datatype Tree = Tree(files: map<Path, Value>, dirs: set<Path>)

  /**
   * What every real directory tree satisfies: the root is a directory,
   * nothing is both a file and a directory, every entry but the root sits
   * in a directory, and entries have proper names.
   */
  predicate WellFormed(t: Tree) {
    && [] in t.dirs
    && (forall p :: p in t.files ==> p !in t.dirs)
    && (forall d :: d in t.dirs ==> ValidPath(d) && (d != [] ==> Parent(d) in t.dirs))
    && (forall f :: f in t.files ==> ValidPath(f) && f != [] && Parent(f) in t.dirs)
  }

  /** The paths at which py.path's `check()` finds something. */
  function Existing(t: Tree): set<Path> {
    t.files.Keys + t.dirs
  }

  /** Some prefix of `d`, `d` itself included, is a regular file. */
  predicate FileInTheWay(t: Tree, d: Path) {
    exists i :: 0 <= i <= |d| && d[..i] in t.files
  }

  /** `d` and all its ancestors. */
  function Prefixes(d: Path): set<Path> {
    set i | 0 <= i <= |d| :: d[..i]
  }

  /** Create `d` and every missing ancestor; a regular file on the way is an error. */
  function Ensure(t: Tree, d: Path): Result<Tree> {
    if FileInTheWay(t, d) then Err(IOError) else Ok(Tree(t.files, t.dirs + Prefixes(d)))
  }

  /**
   * `Ensure` fails exactly when a file is in the way, leaving the tree as it
   * was; otherwise `d` is a directory afterwards, no file changed, and the
   * tree is still well formed.
   */
  lemma EnsureOutcome(t: Tree, d: Path)
    requires WellFormed(t) && ValidPath(d)
    ensures Ensure(t, d).Err? <==> FileInTheWay(t, d)
    ensures Ensure(t, d).Err? ==> Ensure(t, d).error == IOError
    ensures Ensure(t, d).Ok? ==>
      var t' := Ensure(t, d).value;
      && WellFormed(t')
      && d in t'.dirs
      && t'.files == t.files
      && t.dirs <= t'.dirs
      && (forall q :: q in t'.dirs && q !in t.dirs ==> q in Prefixes(d))
  {
    if !FileInTheWay(t, d) {
      var t' := Ensure(t, d).value;
      assert d[..|d|] == d;
      forall q | q in Prefixes(d)
        ensures q !in t.files && ValidPath(q) && (q != [] ==> Parent(q) in t'.dirs)
      {
        var i :| 0 <= i <= |d| && q == d[..i];
        if i > 0 {
          assert Parent(q) == d[..i - 1];
        }
      }
      assert WellFormed(t');
    }
  }

  /** Every prefix of a directory of a well-formed tree is a directory. */
  lemma {:induction false} DirectoryPrefixes(t: Tree, d: Path, i: nat)
    requires WellFormed(t) && d in t.dirs && i <= |d|
    ensures d[..i] in t.dirs
    decreases |d|
  {
    if i < |d| {
      assert d != [];
      var p := Parent(d);
      assert d[..i] == p[..i];
      DirectoryPrefixes(t, p, i);
    } else {
      assert d[..i] == d;
    }
  }

  /** Ensuring a directory that already exists changes nothing. */
  lemma EnsureExisting(t: Tree, d: Path)
    requires WellFormed(t) && d in t.dirs
    ensures Ensure(t, d) == Ok(t)
  {
    forall i | 0 <= i <= |d|
      ensures d[..i] in t.dirs && d[..i] !in t.files
    {
      DirectoryPrefixes(t, d, i);
    }
    assert Prefixes(d) <= t.dirs;
    assert t.dirs + Prefixes(d) == t.dirs;
  }
}
