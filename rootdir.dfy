/**
 * Finding the project root the cache directory lives in.
 *
 * `GetRoot` is the generator `getroot`: for every command-line operand
 * (or the current directory when there is none) it walks from the
 * operand's own path up to the filesystem root and, at each level, yields
 * every marker file that exists, in the order of the marker list.
 * `GetRootDir` is `getrootdir`: the directory of the ini file pytest
 * already found, else the directory of the first hit, else the current
 * directory, with the named subdirectory joined on.
 */
module RootDir {
  import opened Paths
  import opened Values
  import opened Sequences

  /** The parts of pytest's config object this plugin reads. */
  datatype Config = Config(
    args: seq<string>,     // the command-line arguments
    cwd: Path,             // the current working directory
    inicfg: Option<Path>,  // the ini file pytest found, if any
    lf: bool)              // the --lf flag

  predicate ValidConfig(config: Config) {
    ValidPath(config.cwd) && (config.inicfg.Some? ==> ValidPath(config.inicfg.value))
  }

  /** The marker files, in the order they are tried at each level. */
  const IniBasenames: seq<string> := ["setup.py", "setup.cfg", "tox.ini", "pytest.ini"]

  /** An argument that looks like an option. */
  predicate IsOption(arg: string) {
    |arg| > 0 && arg[0] == '-'
  }

  /** The absolute path of an argument (py.path.local(arg)). */
  function ArgPath(cwd: Path, arg: string): (p: Path)
    ensures ValidPath(cwd) ==> ValidPath(p)
  {
    if |arg| > 0 && arg[0] == '/' then Segments(arg) else cwd + Segments(arg)
  }

  /** The arguments that are not options, in order. */
  function Operands(args: seq<string>): seq<string>
    decreases |args|
  {
    if args == [] then []
    else
      var last := args[|args| - 1];
      Operands(args[..|args| - 1]) + (if IsOption(last) then [] else [last])
  }

  /** The paths the search starts from: the operands, or the current directory. */
  function StartPaths(args: seq<string>, cwd: Path): (r: seq<Path>)
  {
    var ops := Operands(args);
    if ops == [] then [cwd] else seq(|ops|, i requires 0 <= i < |ops| => ArgPath(cwd, ops[i]))
  }

  /** Exactly the non-option arguments survive the filter. */
  lemma {:induction false} OperandsMember(args: seq<string>, x: string)
    ensures x in Operands(args) <==> x in args && !IsOption(x)
    decreases |args|
  {
    if args != [] {
      var init := args[..|args| - 1];
      OperandsMember(init, x);
      assert args == init + [args[|args| - 1]];
    }
  }

  /**
   * The filter keeps the arguments' order: the operands are a subsequence
   * of the arguments, and all of them when no argument is an option.
   */
  lemma OperandsOrder(args: seq<string>)
    ensures IsSubsequence(Operands(args), args)
    ensures |Operands(args)| <= |args|
    ensures (forall i :: 0 <= i < |args| ==> !IsOption(args[i])) ==> Operands(args) == args
  {
    OperandsSubsequence(args);
    if forall i :: 0 <= i < |args| ==> !IsOption(args[i]) {
      OperandsWithoutOptions(args);
    }
  }

  lemma {:induction false} OperandsSubsequence(args: seq<string>)
    ensures IsSubsequence(Operands(args), args)
    ensures |Operands(args)| <= |args|
    decreases |args|
  {
    if args != [] {
      var init := args[..|args| - 1];
      OperandsSubsequence(init);
      var ops := Operands(args);
      if IsOption(args[|args| - 1]) {
        assert ops == Operands(init);
      } else {
        assert ops[..|ops| - 1] == Operands(init);
      }
    }
  }

  lemma {:induction false} OperandsWithoutOptions(args: seq<string>)
    requires forall i :: 0 <= i < |args| ==> !IsOption(args[i])
    ensures Operands(args) == args
    decreases |args|
  {
    if args != [] {
      var init := args[..|args| - 1];
      assert forall i :: 0 <= i < |init| ==> init[i] == args[i];
      OperandsWithoutOptions(init);
      assert args == init + [args[|args| - 1]];
    }
  }

  /**
   * The start paths: `[cwd]` when only options were given, otherwise one
   * path per operand, in the operands' order.
   */
  lemma StartPathsShape(args: seq<string>, cwd: Path)
    ensures (forall x :: x in args ==> IsOption(x)) ==> StartPaths(args, cwd) == [cwd]
    ensures Operands(args) == [] ==> StartPaths(args, cwd) == [cwd]
    ensures Operands(args) != [] ==>
      && |StartPaths(args, cwd)| == |Operands(args)|
      && forall i :: 0 <= i < |Operands(args)| ==> StartPaths(args, cwd)[i] == ArgPath(cwd, Operands(args)[i])
    ensures forall p :: p in StartPaths(args, cwd) ==>
      p == cwd || exists x :: x in args && !IsOption(x) && p == ArgPath(cwd, x)
  {
    forall x ensures x in Operands(args) <==> x in args && !IsOption(x) {
      OperandsMember(args, x);
    }
    var ops := Operands(args);
    if ops != [] {
      assert ops[0] in ops;
    }
  }

  lemma StartPathsValid(args: seq<string>, cwd: Path)
    requires ValidPath(cwd)
    ensures forall p :: p in StartPaths(args, cwd) ==> ValidPath(p)
  {
  }

  // --- the hits, in the order the generator yields them -------------------

  /** The marker files that exist directly in `base`, in marker order. */
  function MarkerHits(base: Path, names: seq<string>, present: set<Path>): seq<Path>
    decreases |names|
  {
    if names == [] then []
    else
      var p := base + [names[|names| - 1]];
      MarkerHits(base, names[..|names| - 1], present) + (if p in present then [p] else [])
  }

  /** The hits of each directory of `bases`, in that order. */
  function BaseHits(bases: seq<Path>, names: seq<string>, present: set<Path>): seq<Path>
    decreases |bases|
  {
    if bases == [] then []
    else BaseHits(bases[..|bases| - 1], names, present) + MarkerHits(bases[|bases| - 1], names, present)
  }

  /** The hits of each start path, walking from the path itself up to the root. */
  function RootHits(starts: seq<Path>, names: seq<string>, present: set<Path>): seq<Path>
    decreases |starts|
  {
    if starts == [] then []
    else RootHits(starts[..|starts| - 1], names, present) + BaseHits(Ancestors(starts[|starts| - 1]), names, present)
  }

  /** The file tried for start `i`, ancestor `j` (0 is the start itself) and marker `k`. */
  function Candidate(starts: seq<Path>, names: seq<string>, i: nat, j: nat, k: nat): Path
    requires i < |starts| && j <= |starts[i]| && k < |names|
  {
    Ancestors(starts[i])[j] + [names[k]]
  }

  /** Triple `(i', j', k')` is tried before `(i, j, k)`. */
  predicate Before(i': nat, j': nat, k': nat, i: nat, j: nat, k: nat) {
    i' < i || (i' == i && (j' < j || (j' == j && k' < k)))
  }

  lemma MarkerHitsSnoc(base: Path, names: seq<string>, present: set<Path>, k: nat)
    requires k < |names|
    ensures MarkerHits(base, names[..k + 1], present) ==
      MarkerHits(base, names[..k], present) + (if base + [names[k]] in present then [base + [names[k]]] else [])
  {
    assert names[..k + 1][..k] == names[..k];
  }

  lemma BaseHitsSnoc(bases: seq<Path>, names: seq<string>, present: set<Path>, j: nat)
    requires j < |bases|
    ensures BaseHits(bases[..j + 1], names, present) ==
      BaseHits(bases[..j], names, present) + MarkerHits(bases[j], names, present)
  {
    assert bases[..j + 1][..j] == bases[..j];
  }

  lemma RootHitsSnoc(starts: seq<Path>, names: seq<string>, present: set<Path>, i: nat)
    requires i < |starts|
    ensures RootHits(starts[..i + 1], names, present) ==
      RootHits(starts[..i], names, present) + BaseHits(Ancestors(starts[i]), names, present)
  {
    assert starts[..i + 1][..i] == starts[..i];
  }

  /**
   * The generator `getroot`: hits in argument order, then from the
   * innermost directory outward, then in marker order.
   */
  method GetRoot(args: seq<string>, cwd: Path, names: seq<string>, present: set<Path>)
    returns (hits: seq<Path>)
    ensures hits == RootHits(StartPaths(args, cwd), names, present)
  {
    var starts := StartPaths(args, cwd);
    hits := [];
    for i := 0 to |starts|
      invariant hits == RootHits(starts[..i], names, present)
    {
      var bases := Ancestors(starts[i]);
      var level: seq<Path> := [];
      for j := 0 to |bases|
        invariant level == BaseHits(bases[..j], names, present)
      {
        var found: seq<Path> := [];
        for k := 0 to |names|
          invariant found == MarkerHits(bases[j], names[..k], present)
        {
          var p := bases[j] + [names[k]];
          MarkerHitsSnoc(bases[j], names, present, k);
          if p in present {
            found := found + [p];
          }
        }
        assert names[..|names|] == names;
        BaseHitsSnoc(bases, names, present, j);
        level := level + found;
      }
      assert bases[..|bases|] == bases;
      RootHitsSnoc(starts, names, present, i);
      hits := hits + level;
    }
    assert starts[..|starts|] == starts;
  }

  // --- which paths are hits -----------------------------------------------

  /** `h` is one of the marker files tried in `base`. */
  ghost predicate TriedIn(base: Path, names: seq<string>, h: Path) {
    exists k :: 0 <= k < |names| && h == base + [names[k]]
  }

  /** `h` is one of the marker files tried in some directory of `bases`. */
  ghost predicate TriedInAny(bases: seq<Path>, names: seq<string>, h: Path)
    decreases |bases|
  {
    && bases != []
    && (TriedInAny(bases[..|bases| - 1], names, h) || TriedIn(bases[|bases| - 1], names, h))
  }

  /** `h` is one of the marker files tried on the way up from some start path. */
  ghost predicate Tried(starts: seq<Path>, names: seq<string>, h: Path)
    decreases |starts|
  {
    && starts != []
    && (Tried(starts[..|starts| - 1], names, h) || TriedInAny(Ancestors(starts[|starts| - 1]), names, h))
  }

  lemma {:induction false} MarkerHitsMember(base: Path, names: seq<string>, present: set<Path>, h: Path)
    ensures h in MarkerHits(base, names, present) <==> h in present && TriedIn(base, names, h)
    decreases |names|
  {
    if names != [] {
      var n := |names| - 1;
      MarkerHitsMember(base, names[..n], present, h);
      if TriedIn(base, names[..n], h) {
        var k :| 0 <= k < n && h == base + [names[..n][k]];
        assert h == base + [names[k]];
      }
      if h in present && TriedIn(base, names, h) {
        var k :| 0 <= k < |names| && h == base + [names[k]];
        if k < n {
          assert names[..n][k] == names[k];
        }
      }
    }
  }

  lemma {:induction false} BaseHitsMember(bases: seq<Path>, names: seq<string>, present: set<Path>, h: Path)
    ensures h in BaseHits(bases, names, present) <==> h in present && TriedInAny(bases, names, h)
    decreases |bases|
  {
    if bases != [] {
      var n := |bases| - 1;
      BaseHitsMember(bases[..n], names, present, h);
      MarkerHitsMember(bases[n], names, present, h);
    }
  }

  /** A path is a hit exactly when it exists and is one of the files tried. */
  lemma {:induction false} RootHitsMember(starts: seq<Path>, names: seq<string>, present: set<Path>, h: Path)
    ensures h in RootHits(starts, names, present) <==> h in present && Tried(starts, names, h)
    decreases |starts|
  {
    if starts != [] {
      var n := |starts| - 1;
      RootHitsMember(starts[..n], names, present, h);
      BaseHitsMember(Ancestors(starts[n]), names, present, h);
    }
  }

  /** Being tried in some directory means being some directory's marker file. */
  lemma {:induction false} TriedInAnyIndex(bases: seq<Path>, names: seq<string>, h: Path)
    requires TriedInAny(bases, names, h)
    ensures exists j, k :: 0 <= j < |bases| && 0 <= k < |names| && h == bases[j] + [names[k]]
    decreases |bases|
  {
    var n := |bases| - 1;
    if TriedInAny(bases[..n], names, h) {
      TriedInAnyIndex(bases[..n], names, h);
      var j, k :| 0 <= j < n && 0 <= k < |names| && h == bases[..n][j] + [names[k]];
      assert bases[..n][j] == bases[j];
    } else {
      var k :| 0 <= k < |names| && h == bases[n] + [names[k]];
    }
  }

  /** Being tried means being the candidate of some argument, ancestor and marker. */
  lemma {:induction false} TriedCandidate(starts: seq<Path>, names: seq<string>, h: Path)
    requires Tried(starts, names, h)
    ensures exists i, j, k ::
      0 <= i < |starts| && 0 <= j <= |starts[i]| && 0 <= k < |names| && h == Candidate(starts, names, i, j, k)
    decreases |starts|
  {
    var n := |starts| - 1;
    if Tried(starts[..n], names, h) {
      TriedCandidate(starts[..n], names, h);
      var i, j, k :| 0 <= i < n && 0 <= j <= |starts[..n][i]| && 0 <= k < |names| &&
        h == Candidate(starts[..n], names, i, j, k);
      CandidateOfPrefix(starts, names, n, i, j, k);
    } else {
      TriedInAnyIndex(Ancestors(starts[n]), names, h);
      var j, k :| 0 <= j < |Ancestors(starts[n])| && 0 <= k < |names| && h == Ancestors(starts[n])[j] + [names[k]];
      assert h == Candidate(starts, names, n, j, k);
    }
  }

  // --- which hit comes first ----------------------------------------------

  lemma MarkerHitsNone(base: Path, names: seq<string>, present: set<Path>)
    requires forall k :: 0 <= k < |names| ==> base + [names[k]] !in present
    ensures MarkerHits(base, names, present) == []
  {
    var hs := MarkerHits(base, names, present);
    if hs != [] {
      MarkerHitsMember(base, names, present, hs[0]);
    }
  }

  lemma {:induction false} MarkerHitsFirst(base: Path, names: seq<string>, present: set<Path>, k: nat)
    requires k < |names| && base + [names[k]] in present
    requires forall k' :: 0 <= k' < k ==> base + [names[k']] !in present
    ensures MarkerHits(base, names, present) != []
    ensures MarkerHits(base, names, present)[0] == base + [names[k]]
    decreases |names|
  {
    var n := |names| - 1;
    if k < n {
      MarkerHitsFirst(base, names[..n], present, k);
    } else {
      MarkerHitsNone(base, names[..n], present);
    }
  }

  lemma BaseHitsNone(bases: seq<Path>, names: seq<string>, present: set<Path>)
    requires forall j, k :: 0 <= j < |bases| && 0 <= k < |names| ==> bases[j] + [names[k]] !in present
    ensures BaseHits(bases, names, present) == []
  {
    var hs := BaseHits(bases, names, present);
    if hs != [] {
      BaseHitsMember(bases, names, present, hs[0]);
      TriedInAnyIndex(bases, names, hs[0]);
    }
  }

  lemma {:induction false} BaseHitsFirst(bases: seq<Path>, names: seq<string>, present: set<Path>, j: nat, k: nat)
    requires j < |bases| && k < |names| && bases[j] + [names[k]] in present
    requires forall j', k' :: 0 <= j' < |bases| && 0 <= k' < |names| && (j' < j || (j' == j && k' < k)) ==>
      bases[j'] + [names[k']] !in present
    ensures BaseHits(bases, names, present) != []
    ensures BaseHits(bases, names, present)[0] == bases[j] + [names[k]]
    decreases |bases|
  {
    var n := |bases| - 1;
    if j < n {
      BaseHitsFirst(bases[..n], names, present, j, k);
    } else {
      BaseHitsNone(bases[..n], names, present);
      MarkerHitsFirst(bases[n], names, present, k);
    }
  }

  /** When no file tried exists, there is no hit at all. */
  lemma RootHitsNone(starts: seq<Path>, names: seq<string>, present: set<Path>)
    requires forall i, j, k :: 0 <= i < |starts| && 0 <= j <= |starts[i]| && 0 <= k < |names| ==>
      Candidate(starts, names, i, j, k) !in present
    ensures RootHits(starts, names, present) == []
  {
    var hs := RootHits(starts, names, present);
    if hs != [] {
      RootHitsMember(starts, names, present, hs[0]);
      TriedCandidate(starts, names, hs[0]);
    }
  }

  lemma CandidateOfPrefix(starts: seq<Path>, names: seq<string>, n: nat, i: nat, j: nat, k: nat)
    requires n <= |starts| && i < n && j <= |starts[i]| && k < |names|
    ensures Candidate(starts[..n], names, i, j, k) == Candidate(starts, names, i, j, k)
  {
    assert starts[..n][i] == starts[i];
  }

  /** The first hit is the file tried first among those that exist. */
  lemma {:induction false} RootHitsFirst(starts: seq<Path>, names: seq<string>, present: set<Path>, i: nat, j: nat, k: nat)
    requires i < |starts| && j <= |starts[i]| && k < |names|
    requires Candidate(starts, names, i, j, k) in present
    requires forall i', j', k' ::
      (0 <= i' < |starts| && 0 <= j' <= |starts[i']| && 0 <= k' < |names| && Before(i', j', k', i, j, k)) ==>
        Candidate(starts, names, i', j', k') !in present
    ensures RootHits(starts, names, present) != []
    ensures RootHits(starts, names, present)[0] == Candidate(starts, names, i, j, k)
    decreases |starts|
  {
    var n := |starts| - 1;
    var prefix := starts[..n];
    if i < n {
      forall i', j', k' | 0 <= i' < n && 0 <= j' <= |prefix[i']| && 0 <= k' < |names| &&
        Before(i', j', k', i, j, k)
        ensures Candidate(prefix, names, i', j', k') !in present
      {
        CandidateOfPrefix(starts, names, n, i', j', k');
      }
      CandidateOfPrefix(starts, names, n, i, j, k);
      RootHitsFirst(prefix, names, present, i, j, k);
    } else {
      forall i', j', k' | 0 <= i' < n && 0 <= j' <= |prefix[i']| && 0 <= k' < |names|
        ensures Candidate(prefix, names, i', j', k') !in present
      {
        CandidateOfPrefix(starts, names, n, i', j', k');
        assert Before(i', j', k', i, j, k);
      }
      RootHitsNone(prefix, names, present);
      var bases := Ancestors(starts[n]);
      forall j', k' | 0 <= j' < |bases| && 0 <= k' < |names| && (j' < j || (j' == j && k' < k))
        ensures bases[j'] + [names[k']] !in present
      {
        assert bases[j'] + [names[k']] == Candidate(starts, names, n, j', k');
        assert Before(n, j', k', i, j, k);
      }
      BaseHitsFirst(bases, names, present, j, k);
    }
  }

  // --- the root directory -------------------------------------------------

  /** The directory `getrootdir` settles on: the ini file's, the first hit's, or the current one. */
  function RootBase(config: Config, present: set<Path>): (base: Path)
    ensures ValidConfig(config) ==> ValidPath(base)
  {
    var hits := RootHits(StartPaths(config.args, config.cwd), IniBasenames, present);
    RootDirValid(config, present, hits);
    if config.inicfg.Some? then Parent(config.inicfg.value)
    else if hits != [] then Parent(hits[0])
    else config.cwd
  }

  /** `getrootdir`: the named subdirectory of the root directory. */
  function GetRootDir(config: Config, present: set<Path>, name: string): (r: Path)
    ensures config.inicfg.Some? ==> r == Parent(config.inicfg.value) + [name]
    ensures ValidConfig(config) && ValidName(name) ==> ValidPath(r)
  {
    RootBase(config, present) + [name]
  }

  lemma RootDirValid(config: Config, present: set<Path>, hits: seq<Path>)
    requires hits == RootHits(StartPaths(config.args, config.cwd), IniBasenames, present)
    ensures ValidConfig(config) && hits != [] ==> ValidPath(Parent(hits[0]))
  {
    var starts := StartPaths(config.args, config.cwd);
    if ValidConfig(config) && hits != [] {
      RootHitsMember(starts, IniBasenames, present, hits[0]);
      TriedCandidate(starts, IniBasenames, hits[0]);
      var i, j, k :| 0 <= i < |starts| && 0 <= j <= |starts[i]| && 0 <= k < |IniBasenames| &&
        hits[0] == Candidate(starts, IniBasenames, i, j, k);
      StartPathsValid(config.args, config.cwd);
      assert starts[i] in starts;
      AncestorsValid(starts[i], j);
      ParentOfChild(Ancestors(starts[i])[j], IniBasenames[k]);
    }
  }

  /**
   * Without an ini file, the root is the directory holding the first marker
   * tried that exists: earliest argument, innermost directory, earliest marker.
   */
  lemma GetRootDirFirstHit(config: Config, present: set<Path>, name: string, i: nat, j: nat, k: nat)
    requires config.inicfg.None?
    requires var starts := StartPaths(config.args, config.cwd);
      && i < |starts| && j <= |starts[i]| && k < |IniBasenames|
      && Candidate(starts, IniBasenames, i, j, k) in present
      && forall i', j', k' ::
        (0 <= i' < |starts| && 0 <= j' <= |starts[i']| && 0 <= k' < |IniBasenames| && Before(i', j', k', i, j, k)) ==>
          Candidate(starts, IniBasenames, i', j', k') !in present
    ensures var starts := StartPaths(config.args, config.cwd);
      GetRootDir(config, present, name) == starts[i][..|starts[i]| - j] + [name]
  {
    var starts := StartPaths(config.args, config.cwd);
    RootHitsFirst(starts, IniBasenames, present, i, j, k);
    FirstHitBase(config, present);
    CandidateParent(starts, IniBasenames, i, j, k);
  }

  lemma FirstHitBase(config: Config, present: set<Path>)
    requires config.inicfg.None?
    requires RootHits(StartPaths(config.args, config.cwd), IniBasenames, present) != []
    ensures RootBase(config, present) == Parent(RootHits(StartPaths(config.args, config.cwd), IniBasenames, present)[0])
  {
  }

  /** A candidate's directory is its start path with `j` trailing segments removed. */
  lemma CandidateParent(starts: seq<Path>, names: seq<string>, i: nat, j: nat, k: nat)
    requires i < |starts| && j <= |starts[i]| && k < |names|
    ensures Parent(Candidate(starts, names, i, j, k)) == starts[i][..|starts[i]| - j]
  {
    var a := Ancestors(starts[i])[j];
    assert Candidate(starts, names, i, j, k) == a + [names[k]];
    ParentOfChild(a, names[k]);
    AncestorsAt(starts[i], j);
  }

  /** Without an ini file and without any marker on the way up, the root is the current directory. */
  lemma GetRootDirFallback(config: Config, present: set<Path>, name: string)
    requires config.inicfg.None?
    requires var starts := StartPaths(config.args, config.cwd);
      forall i, j, k :: 0 <= i < |starts| && 0 <= j <= |starts[i]| && 0 <= k < |IniBasenames| ==>
        Candidate(starts, IniBasenames, i, j, k) !in present
    ensures GetRootDir(config, present, name) == config.cwd + [name]
  {
    RootHitsNone(StartPaths(config.args, config.cwd), IniBasenames, present);
  }
}
