/**
 * The key-value store `Cache`: every key `group/.../name` names the file
 * `cachedir/group/.../name`, which holds one serialised value.
 *
 * The spec functions (`GetPathOp`, `LoadOp`, `GetOp`, `SetOp`) say what one
 * call returns and what the filesystem looks like afterwards; the class
 * `Cache` holds the filesystem and its methods perform those calls in place.
 */
module CacheStore {
  import opened Paths
  import opened Values
  import opened FileTree
  import opened RootDir

  /** The subdirectory of the root directory the cache lives in. */
  const CacheDirName: string := ".cache"

  /** What a call leaves behind: its outcome and the filesystem afterwards. */
  datatype Step<T> = Step(result: Result<T>, tree: Tree)

  /** A cache directory is a proper path below the root. */
  predicate ValidCacheDir(cachedir: Path) {
    cachedir != [] && ValidPath(cachedir)
  }

  /** The file a key names. */
  function KeyPath(cachedir: Path, key: string): Path {
    cachedir + Segments(key)
  }

  lemma KeyPathValid(cachedir: Path, key: string)
    requires ValidCacheDir(cachedir)
    ensures ValidPath(KeyPath(cachedir, key)) && KeyPath(cachedir, key) != []
    ensures ValidPath(Parent(KeyPath(cachedir, key)))
  {
  }

  /** `getpath`: check the key, create the file's directory, return the file's path. */
  function GetPathOp(t: Tree, cachedir: Path, key: string): Step<Path> {
    if '/' !in key then Step(Err(KeyError), t)
    else
      var p := KeyPath(cachedir, key);
      match Ensure(t, Parent(p))
      case Err(e) => Step(Err(e), t)
      case Ok(t') => Step(Ok(p), t')
  }

  /**
   * `get` with the miss reported as `None`: a stored value, nothing, or an
   * error (a directory at the key's path cannot be opened for reading).
   */
  function LoadOp(t: Tree, cachedir: Path, key: string): Step<Option<Value>> {
    var s := GetPathOp(t, cachedir, key);
    match s.result
    case Err(e) => Step(Err(e), s.tree)
    case Ok(p) =>
      if p in s.tree.dirs then Step(Err(IOError), s.tree)
      else if p in s.tree.files then Step(Ok(Some(s.tree.files[p])), s.tree)
      else Step(Ok(None), s.tree)
  }

  /** `get(key, default)`. */
  function GetOp(t: Tree, cachedir: Path, key: string, default: Value): Step<Value> {
    var s := LoadOp(t, cachedir, key);
    match s.result
    case Err(e) => Step(Err(e), s.tree)
    case Ok(found) => Step(Ok(if found.Some? then found.value else default), s.tree)
  }

  /** `set(key, value)`: write the value to the key's file, replacing what was there. */
  function SetOp(t: Tree, cachedir: Path, key: string, v: Value): Step<()> {
    var s := GetPathOp(t, cachedir, key);
    match s.result
    case Err(e) => Step(Err(e), s.tree)
    case Ok(p) =>
      if p in s.tree.dirs then Step(Err(IOError), s.tree)
      else Step(Ok(()), Tree(s.tree.files[p := v], s.tree.dirs))
  }

  // --- getpath ------------------------------------------------------------

  /**
   * A key without '/' is refused and nothing changes.  Otherwise the path is
   * the cache directory followed by the key's segments; the call fails
   * exactly when a regular file blocks the file's directory, and on success
   * that directory exists and no file changed.
   */
  lemma GetPathOutcome(t: Tree, cachedir: Path, key: string)
    requires WellFormed(t) && ValidCacheDir(cachedir)
    ensures '/' !in key ==> GetPathOp(t, cachedir, key) == Step(Err(KeyError), t)
    ensures '/' in key ==>
      (GetPathOp(t, cachedir, key).result.Ok? <==> !FileInTheWay(t, Parent(KeyPath(cachedir, key))))
    ensures GetPathOp(t, cachedir, key).result.Err? ==> GetPathOp(t, cachedir, key).tree == t
    ensures GetPathOp(t, cachedir, key).result.Ok? ==>
      var s := GetPathOp(t, cachedir, key);
      && s.result.value == cachedir + Segments(key)
      && Parent(s.result.value) in s.tree.dirs
      && s.tree.files == t.files
      && t.dirs <= s.tree.dirs
      && WellFormed(s.tree)
  {
    KeyPathValid(cachedir, key);
    EnsureOutcome(t, Parent(KeyPath(cachedir, key)));
  }

  // --- get ----------------------------------------------------------------

  /** A key whose file was never written reads as the default, whatever the default is. */
  lemma GetMissReturnsDefault(t: Tree, cachedir: Path, key: string, default: Value)
    requires WellFormed(t) && ValidCacheDir(cachedir)
    requires KeyPath(cachedir, key) !in t.files
    ensures GetOp(t, cachedir, key, default).result.Ok? ==> GetOp(t, cachedir, key, default).result.value == default
    ensures '/' in key && KeyPath(cachedir, key) !in t.dirs && !FileInTheWay(t, Parent(KeyPath(cachedir, key))) ==>
      GetOp(t, cachedir, key, default).result == Ok(default)
  {
    GetPathOutcome(t, cachedir, key);
    var p := KeyPath(cachedir, key);
    if '/' in key && p !in t.dirs && !FileInTheWay(t, Parent(p)) {
      var t' := GetPathOp(t, cachedir, key).tree;
      EnsureOutcome(t, Parent(p));
      assert p !in Prefixes(Parent(p));
      assert p !in t'.dirs;
    }
  }

  /** Reading the file of a directory that already exists changes nothing on disk. */
  lemma LoadExisting(t: Tree, cachedir: Path, key: string)
    requires WellFormed(t) && ValidCacheDir(cachedir) && '/' in key
    requires Parent(KeyPath(cachedir, key)) in t.dirs
    ensures LoadOp(t, cachedir, key).tree == t
    ensures var p := KeyPath(cachedir, key);
      LoadOp(t, cachedir, key).result ==
        if p in t.dirs then Err(IOError) else if p in t.files then Ok(Some(t.files[p])) else Ok(None)
  {
    EnsureExisting(t, Parent(KeyPath(cachedir, key)));
  }

  // --- set ----------------------------------------------------------------

  /**
   * `set` fails with `KeyError` exactly for keys without '/', and with
   * `IOError` exactly when a file blocks the directory or the path is a
   * directory; on success the key's file holds the value and the tree is
   * still well formed.
   */
  lemma SetOutcome(t: Tree, cachedir: Path, key: string, v: Value)
    requires WellFormed(t) && ValidCacheDir(cachedir)
    ensures var s := SetOp(t, cachedir, key, v); var p := KeyPath(cachedir, key);
      && (s.result == Err(KeyError) <==> '/' !in key)
      && (s.result == Err(IOError) <==> '/' in key && (FileInTheWay(t, Parent(p)) || p in t.dirs))
      && (s.result.Ok? ==> WellFormed(s.tree) && p in s.tree.files && s.tree.files[p] == v)
      && (s.result.Err? ==> s.tree.files == t.files && WellFormed(s.tree))
  {
    GetPathOutcome(t, cachedir, key);
    KeyPathValid(cachedir, key);
    var p := KeyPath(cachedir, key);
    if '/' in key && !FileInTheWay(t, Parent(p)) {
      EnsureOutcome(t, Parent(p));
      assert p !in Prefixes(Parent(p));
    }
  }

  /** A value written with `set` is what `get` returns next, and reading changes nothing. */
  lemma SetThenGet(t: Tree, cachedir: Path, key: string, v: Value, default: Value)
    requires WellFormed(t) && ValidCacheDir(cachedir)
    requires SetOp(t, cachedir, key, v).result.Ok?
    ensures var t' := SetOp(t, cachedir, key, v).tree;
      GetOp(t', cachedir, key, default) == Step(Ok(v), t')
  {
    SetOutcome(t, cachedir, key, v);
    GetPathOutcome(t, cachedir, key);
    var t' := SetOp(t, cachedir, key, v).tree;
    LoadExisting(t', cachedir, key);
  }

  /** Once the key's directory exists and its path is no directory, `set` just writes the file. */
  lemma SetPrepared(t: Tree, cachedir: Path, key: string, w: Value)
    requires WellFormed(t) && '/' in key
    requires Parent(KeyPath(cachedir, key)) in t.dirs && KeyPath(cachedir, key) !in t.dirs
    ensures SetOp(t, cachedir, key, w) == Step(Ok(()), Tree(t.files[KeyPath(cachedir, key) := w], t.dirs))
  {
    EnsureExisting(t, Parent(KeyPath(cachedir, key)));
  }

  /**
   * A `set` that succeeds with one value succeeds with any other: both
   * create the same directories and write the same file.
   */
  lemma SetSucceeds(t: Tree, cachedir: Path, key: string, v: Value, w: Value)
    requires WellFormed(t) && ValidCacheDir(cachedir)
    requires SetOp(t, cachedir, key, v).result.Ok?
    ensures var p := KeyPath(cachedir, key); var t1 := GetPathOp(t, cachedir, key).tree;
      && '/' in key && Parent(p) in t1.dirs && p !in t1.dirs
      && WellFormed(Tree(t1.files[p := v], t1.dirs))
      && SetOp(t, cachedir, key, v) == Step(Ok(()), Tree(t1.files[p := v], t1.dirs))
      && SetOp(t, cachedir, key, w) == Step(Ok(()), Tree(t1.files[p := w], t1.dirs))
      && SetOp(Tree(t1.files[p := v], t1.dirs), cachedir, key, w) == Step(Ok(()), Tree(t1.files[p := v][p := w], t1.dirs))
  {
    GetPathOutcome(t, cachedir, key);
    SetOutcome(t, cachedir, key, v);
    var p := KeyPath(cachedir, key);
    var t1 := GetPathOp(t, cachedir, key).tree;
    SetPrepared(Tree(t1.files[p := v], t1.dirs), cachedir, key, w);
  }

  /** Writing a file twice leaves the second value. */
  lemma WriteTwice(t: Tree, p: Path, v: Value, w: Value)
    ensures Tree(t.files[p := v][p := w], t.dirs) == Tree(t.files[p := w], t.dirs)
  {
    assert t.files[p := v][p := w] == t.files[p := w];
  }

  /** A second `set` of the same key replaces the first one entirely. */
  lemma SetOverwrites(t: Tree, cachedir: Path, key: string, v: Value, w: Value)
    requires WellFormed(t) && ValidCacheDir(cachedir)
    requires SetOp(t, cachedir, key, v).result.Ok?
    ensures SetOp(SetOp(t, cachedir, key, v).tree, cachedir, key, w) == SetOp(t, cachedir, key, w)
  {
    SetSucceeds(t, cachedir, key, v, w);
    WriteTwice(GetPathOp(t, cachedir, key).tree, KeyPath(cachedir, key), v, w);
  }

  /** `set` changes no file other than the key's own, and only adds directories. */
  lemma SetFrame(t: Tree, cachedir: Path, key: string, v: Value, q: Path)
    requires WellFormed(t) && ValidCacheDir(cachedir)
    requires q != KeyPath(cachedir, key)
    ensures var t' := SetOp(t, cachedir, key, v).tree;
      && (q in t'.files <==> q in t.files)
      && (q in t.files ==> t'.files[q] == t.files[q])
      && t.dirs <= t'.dirs
  {
    GetPathOutcome(t, cachedir, key);
  }

  // --- listing ------------------------------------------------------------

  /** The entries two levels below the cache directory: `cachedir/sub/name`. */
  ghost predicate SecondLevel(cachedir: Path, p: Path) {
    |p| == |cachedir| + 2 && p[..|cachedir|] == cachedir
  }

  /** The key under which the entry `cachedir/sub/name` is listed. */
  function EntryKey(cachedir: Path, p: Path): string
    requires |p| == |cachedir| + 2
  {
    p[|cachedir|] + "/" + p[|cachedir| + 1]
  }

  /** Some second-level entry is itself a directory. */
  ghost predicate NestedDirectory(t: Tree, cachedir: Path) {
    exists p :: p in t.dirs && SecondLevel(cachedir, p)
  }

  /** The pair `(key, value)` is listed: it comes from a second-level file. */
  ghost predicate ListedPair(t: Tree, cachedir: Path, key: string, v: Value) {
    exists p :: p in t.files && SecondLevel(cachedir, p) && key == EntryKey(cachedir, p) && v == t.files[p]
  }

  /** Different second-level entries are listed under different keys. */
  lemma EntryKeyInjective(cachedir: Path, p: Path, q: Path)
    requires ValidPath(p) && ValidPath(q) && SecondLevel(cachedir, p) && SecondLevel(cachedir, q)
    requires EntryKey(cachedir, p) == EntryKey(cachedir, q)
    ensures p == q
  {
    var n := |cachedir|;
    TwoSegmentKeyInjective(p[n], p[n + 1], q[n], q[n + 1]);
    assert p == cachedir + [p[n], p[n + 1]];
    assert q == cachedir + [q[n], q[n + 1]];
  }

  /** Reading a second-level entry through its key. */
  lemma LoadEntry(t: Tree, cachedir: Path, p: Path)
    requires WellFormed(t) && ValidCacheDir(cachedir)
    requires p in Existing(t) && SecondLevel(cachedir, p)
    ensures KeyPath(cachedir, EntryKey(cachedir, p)) == p
    ensures LoadOp(t, cachedir, EntryKey(cachedir, p)) ==
      Step(if p in t.dirs then Err(IOError) else Ok(Some(t.files[p])), t)
  {
    var n := |cachedir|;
    assert ValidPath(p);
    TwoSegmentKey(p[n], p[n + 1]);
    assert p == cachedir + [p[n], p[n + 1]];
    var key := EntryKey(cachedir, p);
    assert '/' in key by { assert key[|p[n]|] == '/'; }
    assert Parent(p) in t.dirs;
    LoadExisting(t, cachedir, key);
  }

  /** Every second-level entry sits in a first-level directory. */
  lemma EntryInSubdirectory(t: Tree, cachedir: Path, p: Path)
    requires WellFormed(t) && p in Existing(t) && SecondLevel(cachedir, p)
    ensures p[..|cachedir| + 1] in t.dirs
    ensures |p[..|cachedir| + 1]| == |cachedir| + 1 && p[..|cachedir| + 1][..|cachedir|] == cachedir
  {
    assert p[..|cachedir| + 1] == Parent(p);
  }

  /** `p` is an entry of the directory `sub`. */
  predicate InSubdirectory(sub: Path, p: Path) {
    |p| == |sub| + 1 && p[..|sub|] == sub
  }

  /** The pair under which the second-level file `p` is listed. */
  function Entry(t: Tree, cachedir: Path, p: Path): (string, Value)
    requires p in t.files && |p| == |cachedir| + 2
  {
    (EntryKey(cachedir, p), t.files[p])
  }

  /** `out` lists the second-level files `srcs`, one pair each and no file twice. */
  ghost predicate ListsFiles(t: Tree, cachedir: Path, out: seq<(string, Value)>, srcs: seq<Path>) {
    && |srcs| == |out|
    && (forall i :: 0 <= i < |srcs| ==>
          srcs[i] in t.files && SecondLevel(cachedir, srcs[i]) && out[i] == Entry(t, cachedir, srcs[i]))
    && (forall i, j :: 0 <= i < j < |srcs| ==> srcs[i] != srcs[j])
  }

  /** Listing one more file that was not listed before. */
  lemma ListsOneMore(t: Tree, cachedir: Path, out: seq<(string, Value)>, srcs: seq<Path>, p: Path)
    requires ListsFiles(t, cachedir, out, srcs) && p !in srcs
    requires p in t.files && SecondLevel(cachedir, p)
    ensures ListsFiles(t, cachedir, out + [Entry(t, cachedir, p)], srcs + [p])
  {
  }

  /** Two listings of disjoint sets of files, one after the other. */
  lemma ListsBoth(t: Tree, cachedir: Path, out: seq<(string, Value)>, srcs: seq<Path>,
                  out': seq<(string, Value)>, srcs': seq<Path>)
    requires ListsFiles(t, cachedir, out, srcs) && ListsFiles(t, cachedir, out', srcs')
    requires forall i, j :: 0 <= i < |srcs| && 0 <= j < |srcs'| ==> srcs[i] != srcs'[j]
    ensures ListsFiles(t, cachedir, out + out', srcs + srcs')
  {
    var o, s := out + out', srcs + srcs';
    forall i | 0 <= i < |s|
      ensures s[i] in t.files && SecondLevel(cachedir, s[i]) && o[i] == Entry(t, cachedir, s[i])
    {
      if i >= |srcs| {
        assert s[i] == srcs'[i - |srcs|] && o[i] == out'[i - |srcs|];
      }
    }
    forall i, j | 0 <= i < j < |s|
      ensures s[i] != s[j]
    {
      if i >= |srcs| {
        assert s[i] == srcs'[i - |srcs|] && s[j] == srcs'[j - |srcs|];
      } else if j >= |srcs| {
        assert s[j] == srcs'[j - |srcs|];
      }
    }
  }

  /**
   * A listing of every second-level file lists exactly the `ListedPair`s,
   * each key once.
   */
  lemma ListingComplete(t: Tree, cachedir: Path, out: seq<(string, Value)>, srcs: seq<Path>)
    requires WellFormed(t) && ListsFiles(t, cachedir, out, srcs)
    requires forall p :: p in t.files && SecondLevel(cachedir, p) ==> p in srcs
    ensures forall key, v :: (key, v) in out <==> ListedPair(t, cachedir, key, v)
    ensures forall i, j :: 0 <= i < j < |out| ==> out[i].0 != out[j].0
  {
    forall key, v
      ensures (key, v) in out <==> ListedPair(t, cachedir, key, v)
    {
      if (key, v) in out {
        ListedIsFile(t, cachedir, out, srcs, key, v);
      }
      if ListedPair(t, cachedir, key, v) {
        FileIsListed(t, cachedir, out, srcs, key, v);
      }
    }
    forall i, j | 0 <= i < j < |out|
      ensures out[i].0 != out[j].0
    {
      ListedKeysDiffer(t, cachedir, out, srcs, i, j);
    }
  }

  lemma ListedIsFile(t: Tree, cachedir: Path, out: seq<(string, Value)>, srcs: seq<Path>, key: string, v: Value)
    requires ListsFiles(t, cachedir, out, srcs)
    requires (key, v) in out
    ensures ListedPair(t, cachedir, key, v)
  {
    var i :| 0 <= i < |out| && out[i] == (key, v);
    assert srcs[i] in t.files && SecondLevel(cachedir, srcs[i]);
  }

  lemma FileIsListed(t: Tree, cachedir: Path, out: seq<(string, Value)>, srcs: seq<Path>, key: string, v: Value)
    requires ListsFiles(t, cachedir, out, srcs)
    requires forall p :: p in t.files && SecondLevel(cachedir, p) ==> p in srcs
    requires ListedPair(t, cachedir, key, v)
    ensures (key, v) in out
  {
    var p :| p in t.files && SecondLevel(cachedir, p) && key == EntryKey(cachedir, p) && v == t.files[p];
    var i :| 0 <= i < |srcs| && srcs[i] == p;
    assert out[i] == (key, v);
  }

  lemma ListedKeysDiffer(t: Tree, cachedir: Path, out: seq<(string, Value)>, srcs: seq<Path>, i: nat, j: nat)
    requires WellFormed(t) && ListsFiles(t, cachedir, out, srcs)
    requires i < j < |out|
    ensures out[i].0 != out[j].0
  {
    if out[i].0 == out[j].0 {
      EntryKeyInjective(cachedir, srcs[i], srcs[j]);
    }
  }

  /** A directory inside a first-level directory is a nested directory. */
  lemma NestedBelow(t: Tree, cachedir: Path, sub: Path, p: Path)
    requires |sub| == |cachedir| + 1 && sub[..|cachedir|] == cachedir
    requires p in t.dirs && InSubdirectory(sub, p)
    ensures NestedDirectory(t, cachedir)
  {
    assert p[..|cachedir|] == sub[..|cachedir|];
    assert SecondLevel(cachedir, p);
  }

  /** The key `a/b/c`, for proper names `a`, `b`, `c`, names the file `cachedir/a/b/c`. */
  lemma ThreeSegmentKey(cachedir: Path, a: string, b: string, c: string)
    requires ValidName(a) && ValidName(b) && ValidName(c)
    ensures KeyPath(cachedir, a + "/" + b + "/" + c) == cachedir + [a, b, c]
    ensures '/' in a + "/" + b + "/" + c
  {
    var key := a + "/" + b + "/" + c;
    assert JoinSlash([b, c]) == b + "/" + c;
    assert JoinSlash([a, b, c]) == a + "/" + JoinSlash([b, c]);
    assert key == a + "/" + (b + "/" + c);
    SegmentsOfJoin([a, b, c]);
    assert key[|a|] == '/';
  }

  /**
   * A key with three segments is stored and read back, yet its directory
   * `cachedir/a/b` is a second-level entry, which the listing opens as if it
   * were a value file.
   */
  lemma DeepKeyBreaksListing(t: Tree, cachedir: Path, a: string, b: string, c: string, v: Value)
    requires WellFormed(t) && ValidCacheDir(cachedir)
    requires ValidName(a) && ValidName(b) && ValidName(c)
    requires SetOp(t, cachedir, a + "/" + b + "/" + c, v).result.Ok?
    ensures var t' := SetOp(t, cachedir, a + "/" + b + "/" + c, v).tree;
      && GetOp(t', cachedir, a + "/" + b + "/" + c, VNone).result == Ok(v)
      && NestedDirectory(t', cachedir)
  {
    var key := a + "/" + b + "/" + c;
    ThreeSegmentKey(cachedir, a, b, c);
    SetThenGet(t, cachedir, key, v, VNone);
    GetPathOutcome(t, cachedir, key);
    var d := cachedir + [a, b];
    assert Parent(KeyPath(cachedir, key)) == d;
    assert SecondLevel(cachedir, d);
  }

  /** On an empty filesystem, storing under a three-segment key succeeds. */
  lemma DeepKeyAccepted(a: string, b: string, c: string, v: Value)
    requires ValidName(a) && ValidName(b) && ValidName(c)
    ensures WellFormed(Tree(map[], {[]}))
    ensures SetOp(Tree(map[], {[]}), [CacheDirName], a + "/" + b + "/" + c, v).result.Ok?
  {
    var t := Tree(map[], {[]});
    var cd := [CacheDirName];
    var key := a + "/" + b + "/" + c;
    ThreeSegmentKey(cd, a, b, c);
    SetOutcome(t, cd, key, v);
    assert !FileInTheWay(t, Parent(KeyPath(cd, key)));
    assert KeyPath(cd, key) !in t.dirs;
  }

  /** Reading the entry `sub/name` of a first-level directory under its listed key. */
  lemma ReadEntry(t: Tree, cachedir: Path, sub: Path, entry: Path)
    requires WellFormed(t) && ValidCacheDir(cachedir) && |sub| == |cachedir| + 1 && sub[..|cachedir|] == cachedir
    requires entry in Existing(t) && InSubdirectory(sub, entry)
    ensures SecondLevel(cachedir, entry)
    ensures sub[|sub| - 1] + "/" + entry[|sub|] == EntryKey(cachedir, entry)
    ensures LoadOp(t, cachedir, EntryKey(cachedir, entry)) ==
      Step(if entry in t.dirs then Err(IOError) else Ok(Some(t.files[entry])), t)
  {
    assert entry[..|cachedir|] == sub[..|cachedir|];
    assert entry[|cachedir|] == sub[|sub| - 1];
    LoadEntry(t, cachedir, entry);
  }

  /**
   * Progress through the entries of `sub`: `names` are still to be read,
   * `out` lists the files `srcs` read so far, and every entry is read, still
   * to be read, or a skipped directory.
   */
  ghost predicate ReadingEntries(t: Tree, cachedir: Path, sub: Path, skipDirectories: bool,
                                 names: set<Path>, out: seq<(string, Value)>, srcs: seq<Path>) {
    && (forall p :: p in names ==> p in Existing(t) && InSubdirectory(sub, p) && p !in srcs)
    && ListsFiles(t, cachedir, out, srcs)
    && (forall i :: 0 <= i < |srcs| ==> InSubdirectory(sub, srcs[i]))
    && (forall p :: p in Existing(t) && InSubdirectory(sub, p) ==>
          p in srcs || p in names || (skipDirectories && p in t.dirs))
  }

  lemma ReadingEntriesStart(t: Tree, cachedir: Path, sub: Path, skipDirectories: bool)
    ensures ReadingEntries(t, cachedir, sub, skipDirectories,
      set p | p in t.files.Keys + t.dirs && InSubdirectory(sub, p), [], [])
  {
  }

  lemma ReadingEntriesSkip(t: Tree, cachedir: Path, sub: Path, skipDirectories: bool,
                           names: set<Path>, out: seq<(string, Value)>, srcs: seq<Path>, entry: Path)
    requires ReadingEntries(t, cachedir, sub, skipDirectories, names, out, srcs)
    requires entry in names && skipDirectories && entry in t.dirs
    ensures ReadingEntries(t, cachedir, sub, skipDirectories, names - {entry}, out, srcs)
  {
  }

  lemma ReadingEntriesFile(t: Tree, cachedir: Path, sub: Path, skipDirectories: bool,
                           names: set<Path>, out: seq<(string, Value)>, srcs: seq<Path>, entry: Path)
    requires ReadingEntries(t, cachedir, sub, skipDirectories, names, out, srcs)
    requires entry in names && entry in t.files && SecondLevel(cachedir, entry)
    ensures ReadingEntries(t, cachedir, sub, skipDirectories, names - {entry},
      out + [Entry(t, cachedir, entry)], srcs + [entry])
  {
    ListsOneMore(t, cachedir, out, srcs, entry);
  }

  lemma ReadingEntriesDone(t: Tree, cachedir: Path, sub: Path, skipDirectories: bool,
                           out: seq<(string, Value)>, srcs: seq<Path>)
    requires WellFormed(t)
    requires ReadingEntries(t, cachedir, sub, skipDirectories, {}, out, srcs)
    ensures !skipDirectories ==> !exists p :: p in t.dirs && InSubdirectory(sub, p)
    ensures forall p :: p in t.files && InSubdirectory(sub, p) ==> p in srcs
  {
  }

  /**
   * One first-level directory's part of `iteritems()`: every entry of `sub`
   * is read back with `get` under the key `sub/name`.  As written, an entry
   * that is itself a directory is opened too, and that fails; with
   * `skipDirectories` such entries are passed over instead.  `srcs` names
   * the file behind each pair.
   */
  method ListEntries(t: Tree, cachedir: Path, sub: Path, skipDirectories: bool)
    returns (r: Result<seq<(string, Value)>>, ghost srcs: seq<Path>)
    requires WellFormed(t) && ValidCacheDir(cachedir)
    requires sub in t.dirs && |sub| == |cachedir| + 1 && sub[..|cachedir|] == cachedir
    ensures r.Err? <==> !skipDirectories && exists p :: p in t.dirs && InSubdirectory(sub, p)
    ensures r.Err? ==> r.error == IOError
    ensures r.Ok? ==> ListsFiles(t, cachedir, r.value, srcs)
    ensures r.Ok? ==> forall i :: 0 <= i < |srcs| ==> InSubdirectory(sub, srcs[i])
    ensures r.Ok? ==> forall p :: p in t.files && InSubdirectory(sub, p) ==> p in srcs
  {
    var names := set p | p in t.files.Keys + t.dirs && InSubdirectory(sub, p);
    var out: seq<(string, Value)> := [];
    srcs := [];
    ReadingEntriesStart(t, cachedir, sub, skipDirectories);
    while names != {}
      invariant ReadingEntries(t, cachedir, sub, skipDirectories, names, out, srcs)
      decreases names
    {
      var entry :| entry in names;
      if skipDirectories && entry in t.dirs {
        ReadingEntriesSkip(t, cachedir, sub, skipDirectories, names, out, srcs, entry);
      } else {
        var key := sub[|sub| - 1] + "/" + entry[|sub|];
        ReadEntry(t, cachedir, sub, entry);
        var got := LoadOp(t, cachedir, key).result;
        if got.Err? {
          assert entry in t.dirs && InSubdirectory(sub, entry);
          return Err(got.error), srcs;
        }
        if got.value.Some? {
          ReadingEntriesFile(t, cachedir, sub, skipDirectories, names, out, srcs, entry);
          out := out + [(key, got.value.value)];
          srcs := srcs + [entry];
        }
      }
      names := names - {entry};
    }
    ReadingEntriesDone(t, cachedir, sub, skipDirectories, out, srcs);
    return Ok(out), srcs;
  }

  /**
   * Progress through the first-level directories: `subs` are still to be
   * read, `done` have been read, and `out` lists the files `srcs` found in
   * them, which are all the files in them.
   */
  ghost predicate ReadingTree(t: Tree, cachedir: Path, skipDirectories: bool,
                              subs: set<Path>, done: set<Path>, out: seq<(string, Value)>, srcs: seq<Path>) {
    && (forall d :: d in subs ==> d in t.dirs && InSubdirectory(cachedir, d) && d !in done)
    && (forall d :: d in t.dirs && InSubdirectory(cachedir, d) ==> d in done || d in subs)
    && ListsFiles(t, cachedir, out, srcs)
    && (forall i :: 0 <= i < |srcs| ==> srcs[i][..|cachedir| + 1] in done)
    && (forall p :: p in t.files && SecondLevel(cachedir, p) && p[..|cachedir| + 1] in done ==> p in srcs)
    && (!skipDirectories ==>
          forall p :: p in t.dirs && SecondLevel(cachedir, p) ==> p[..|cachedir| + 1] !in done)
  }

  lemma ReadingTreeStart(t: Tree, cachedir: Path, skipDirectories: bool)
    ensures ReadingTree(t, cachedir, skipDirectories,
      set d | d in t.dirs && InSubdirectory(cachedir, d), {}, [], [])
  {
  }

  lemma ReadingTreeStep(t: Tree, cachedir: Path, skipDirectories: bool,
                        subs: set<Path>, done: set<Path>, out: seq<(string, Value)>, srcs: seq<Path>,
                        sub: Path, part: seq<(string, Value)>, psrcs: seq<Path>)
    requires ReadingTree(t, cachedir, skipDirectories, subs, done, out, srcs)
    requires sub in subs
    requires ListsFiles(t, cachedir, part, psrcs)
    requires forall i :: 0 <= i < |psrcs| ==> InSubdirectory(sub, psrcs[i])
    requires forall p :: p in t.files && InSubdirectory(sub, p) ==> p in psrcs
    requires !skipDirectories ==> !exists p :: p in t.dirs && InSubdirectory(sub, p)
    ensures ReadingTree(t, cachedir, skipDirectories, subs - {sub}, done + {sub}, out + part, srcs + psrcs)
  {
    forall i, j | 0 <= i < |srcs| && 0 <= j < |psrcs|
      ensures srcs[i] != psrcs[j]
    {
      assert psrcs[j][..|cachedir| + 1] == sub;
    }
    ListsBoth(t, cachedir, out, srcs, part, psrcs);
    var srcs' := srcs + psrcs;
    forall i | 0 <= i < |srcs'|
      ensures srcs'[i][..|cachedir| + 1] in done + {sub}
    {
      if i >= |srcs| {
        assert srcs'[i] == psrcs[i - |srcs|];
      }
    }
    forall p | p in t.files && SecondLevel(cachedir, p) && p[..|cachedir| + 1] in done + {sub}
      ensures p in srcs'
    {
      if p[..|cachedir| + 1] == sub {
        assert InSubdirectory(sub, p);
      }
    }
  }

  lemma ReadingTreeDone(t: Tree, cachedir: Path, skipDirectories: bool,
                        done: set<Path>, out: seq<(string, Value)>, srcs: seq<Path>)
    requires WellFormed(t)
    requires ReadingTree(t, cachedir, skipDirectories, {}, done, out, srcs)
    ensures forall key, v :: (key, v) in out <==> ListedPair(t, cachedir, key, v)
    ensures forall i, j :: 0 <= i < j < |out| ==> out[i].0 != out[j].0
    ensures !skipDirectories ==> !NestedDirectory(t, cachedir)
  {
    forall p | p in Existing(t) && SecondLevel(cachedir, p)
      ensures p[..|cachedir| + 1] in done
    {
      EntryInSubdirectory(t, cachedir, p);
    }
    ListingComplete(t, cachedir, out, srcs);
  }

  /**
   * `iteritems()` over the first-level directories, in whatever order the
   * directory listing gives them.
   */
  method ListTree(t: Tree, cachedir: Path, skipDirectories: bool) returns (r: Result<seq<(string, Value)>>)
    requires WellFormed(t) && ValidCacheDir(cachedir)
    ensures r.Err? <==> cachedir !in t.dirs || (!skipDirectories && NestedDirectory(t, cachedir))
    ensures r.Err? ==> r.error == IOError
    ensures r.Ok? ==> forall key, v :: (key, v) in r.value <==> ListedPair(t, cachedir, key, v)
    ensures r.Ok? ==> forall i, j :: 0 <= i < j < |r.value| ==> r.value[i].0 != r.value[j].0
  {
    if cachedir !in t.dirs {
      return Err(IOError);
    }
    var subs := set d | d in t.dirs && InSubdirectory(cachedir, d);
    var out: seq<(string, Value)> := [];
    ghost var srcs: seq<Path> := [];
    ghost var done: set<Path> := {};
    ReadingTreeStart(t, cachedir, skipDirectories);
    while subs != {}
      invariant ReadingTree(t, cachedir, skipDirectories, subs, done, out, srcs)
      decreases subs
    {
      var sub :| sub in subs;
      var part, psrcs := ListEntries(t, cachedir, sub, skipDirectories);
      if part.Err? {
        var p :| p in t.dirs && InSubdirectory(sub, p);
        NestedBelow(t, cachedir, sub, p);
        return Err(part.error);
      }
      ReadingTreeStep(t, cachedir, skipDirectories, subs, done, out, srcs, sub, part.value, psrcs);
      out := out + part.value;
      srcs := srcs + psrcs;
      done := done + {sub};
      subs := subs - {sub};
    }
    ReadingTreeDone(t, cachedir, skipDirectories, done, out, srcs);
    return Ok(out);
  }

  class Cache {
    const cachedir: Path
    var files: map<Path, Value>
    var dirs: set<Path>

    /** The filesystem as a value. */
    function State(): Tree
      reads this
    {
      Tree(files, dirs)
    }

    ghost predicate Valid()
      reads this
    {
      WellFormed(State()) && ValidCacheDir(cachedir)
    }

    /** `Cache(config)`: the cache directory is `.cache` under the root directory. */
    constructor (config: Config, tree: Tree)
      requires ValidConfig(config) && WellFormed(tree)
      ensures Valid() && State() == tree
      ensures cachedir == GetRootDir(config, Existing(tree), CacheDirName)
    {
      cachedir := GetRootDir(config, Existing(tree), CacheDirName);
      files := tree.files;
      dirs := tree.dirs;
    }

    /** `getpath(key)`. */
    method GetPath(key: string) returns (r: Result<Path>)
      requires Valid()
      modifies this
      ensures Valid()
      ensures var s := GetPathOp(old(State()), cachedir, key); r == s.result && State() == s.tree
    {
      GetPathOutcome(State(), cachedir, key);
      if '/' !in key {
        return Err(KeyError);
      }
      var p := cachedir + Segments(key);
      var ensured := Ensure(State(), Parent(p));
      if ensured.Err? {
        return Err(ensured.error);
      }
      dirs := ensured.value.dirs;
      return Ok(p);
    }

    /** `get(key, default)`. */
    method Get(key: string, default: Value) returns (r: Result<Value>)
      requires Valid()
      modifies this
      ensures Valid()
      ensures var s := GetOp(old(State()), cachedir, key, default); r == s.result && State() == s.tree
    {
      var path := GetPath(key);
      if path.Err? {
        return Err(path.error);
      }
      var p := path.value;
      if p in dirs {
        return Err(IOError);
      } else if p in files {
        return Ok(files[p]);
      } else {
        return Ok(default);
      }
    }

    /** `set(key, value)`. */
    method Set(key: string, v: Value) returns (r: Result<()>)
      requires Valid()
      modifies this
      ensures Valid()
      ensures var s := SetOp(old(State()), cachedir, key, v); r == s.result && State() == s.tree
    {
      SetOutcome(State(), cachedir, key, v);
      var path := GetPath(key);
      if path.Err? {
        return Err(path.error);
      }
      var p := path.value;
      if p in dirs {
        return Err(IOError);
      }
      files := files[p := v];
      return Ok(());
    }

    /** `iteritems()` as written. */
    method Items() returns (r: Result<seq<(string, Value)>>)
      requires Valid()
      ensures r.Err? <==> cachedir !in dirs || NestedDirectory(State(), cachedir)
      ensures r.Err? ==> r.error == IOError
      ensures r.Ok? ==> forall key, v :: (key, v) in r.value <==> ListedPair(State(), cachedir, key, v)
      ensures r.Ok? ==> forall i, j :: 0 <= i < j < |r.value| ==> r.value[i].0 != r.value[j].0
    {
      r := ListTree(State(), cachedir, false);
    }

    /** `iteritems()` passing over entries that are directories. */
    method ItemsSkippingDirs() returns (r: Result<seq<(string, Value)>>)
      requires Valid()
      ensures r.Err? <==> cachedir !in dirs
      ensures r.Err? ==> r.error == IOError
      ensures r.Ok? ==> forall key, v :: (key, v) in r.value <==> ListedPair(State(), cachedir, key, v)
      ensures r.Ok? ==> forall i, j :: 0 <= i < j < |r.value| ==> r.value[i].0 != r.value[j].0
    {
      r := ListTree(State(), cachedir, true);
    }
  }
}
