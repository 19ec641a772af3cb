/**
 * Absolute filesystem paths as sequences of segments, and the way a
 * slash-delimited cache key or command-line argument becomes such a path.
 *
 * A path `["home", "u", "proj"]` stands for `/home/u/proj`; the empty
 * sequence is the filesystem root `/`.  Joining a string onto a path
 * (py.path's `join`, followed by `normpath`) drops leading, trailing and
 * doubled slashes, so a string contributes exactly its non-empty
 * slash-free pieces.
 */
module Paths {

  type Path = seq<string>

  /** A single directory entry name: non-empty and without a separator. */
  predicate ValidName(s: string) {
    s != "" && '/' !in s
  }

  /** Every segment of the path is a proper entry name. */
  predicate ValidPath(p: Path) {
    forall i :: 0 <= i < |p| ==> ValidName(p[i])
  }

  /** The directory that contains `p` (py.path's `dirpath`); the root is its own parent. */
  function Parent(p: Path): (q: Path)
    ensures p == [] ==> q == []
    ensures p != [] ==> |q| == |p| - 1 && p == q + [p[|p| - 1]]
  {
    if p == [] then [] else p[..|p| - 1]
  }

  lemma ParentOfChild(p: Path, name: string)
    ensures Parent(p + [name]) == p
  {
  }

  /** The index of the first '/' in `s`, or `|s|` when there is none. */
  function FirstSlash(s: string): (i: nat)
    ensures i <= |s|
    ensures i < |s| ==> s[i] == '/'
    ensures '/' !in s[..i]
  {
    if s == [] then 0
    else if s[0] == '/' then 0
    else 1 + FirstSlash(s[1..])
  }

  /**
   * The path segments a slash-delimited string contributes: its maximal
   * slash-free pieces, the empty ones dropped.
   */
  function Segments(s: string): (r: Path)
    ensures ValidPath(r)
    decreases |s|
  {
    if s == [] then []
    else
      var i := FirstSlash(s);
      (if i == 0 then [] else [s[..i]]) + (if i == |s| then [] else Segments(s[i + 1..]))
  }

  /** The segments written out with one '/' between neighbours. */
  function JoinSlash(p: Path): string
  {
    if p == [] then ""
    else if |p| == 1 then p[0]
    else p[0] + "/" + JoinSlash(p[1..])
  }

  /** The characters of `s` other than '/', in order. */
  function NonSlash(s: string): string
  {
    if s == [] then ""
    else (if s[0] == '/' then "" else [s[0]]) + NonSlash(s[1..])
  }

  /** All segments laid end to end. */
  function Concat(p: Path): string
  {
    if p == [] then "" else p[0] + Concat(p[1..])
  }

  lemma {:induction false} FirstSlashOfName(a: string, rest: string)
    requires '/' !in a
    ensures FirstSlash(a) == |a|
    ensures FirstSlash(a + "/" + rest) == |a|
  {
    if a != [] {
      assert (a + "/" + rest)[1..] == a[1..] + "/" + rest;
      FirstSlashOfName(a[1..], rest);
    }
  }

  /** Splitting undoes joining: a path of proper names survives the round trip. */
  lemma {:induction false} SegmentsOfJoin(p: Path)
    requires ValidPath(p)
    ensures Segments(JoinSlash(p)) == p
  {
    if p == [] {
    } else if |p| == 1 {
      FirstSlashOfName(p[0], "");
      assert p[0][..|p[0]|] == p[0];
    } else {
      var a, rest := p[0], JoinSlash(p[1..]);
      FirstSlashOfName(a, rest);
      var s := a + "/" + rest;
      assert s[..|a|] == a;
      assert s[|a| + 1..] == rest;
      SegmentsOfJoin(p[1..]);
    }
  }

  lemma {:induction false} NonSlashAppend(u: string, v: string)
    ensures NonSlash(u + v) == NonSlash(u) + NonSlash(v)
  {
    if u == [] {
      assert u + v == v;
    } else {
      assert (u + v)[1..] == u[1..] + v;
      NonSlashAppend(u[1..], v);
    }
  }

  lemma {:induction false} ConcatAppend(p: Path, q: Path)
    ensures Concat(p + q) == Concat(p) + Concat(q)
  {
    if p == [] {
      assert p + q == q;
    } else {
      assert (p + q)[1..] == p[1..] + q;
      ConcatAppend(p[1..], q);
    }
  }

  lemma {:induction false} NonSlashOfName(a: string)
    requires '/' !in a
    ensures NonSlash(a) == a
  {
    if a != [] {
      NonSlashOfName(a[1..]);
    }
  }

  /** The first piece of `s` keeps exactly the characters before the first separator. */
  lemma FirstPiece(s: string)
    requires s != []
    ensures var i := FirstSlash(s);
      Concat(if i == 0 then [] else [s[..i]]) == NonSlash(s[..i])
  {
    var i := FirstSlash(s);
    assert '/' !in s[..i];
    NonSlashOfName(s[..i]);
    if i != 0 {
      assert Concat([s[..i]]) == s[..i] + Concat([]);
    }
  }

  lemma NonSlashSplit(s: string, i: nat)
    requires i <= |s|
    ensures NonSlash(s) == NonSlash(s[..i]) + NonSlash(s[i..])
  {
    assert s == s[..i] + s[i..];
    NonSlashAppend(s[..i], s[i..]);
  }

  lemma NonSlashSkip(s: string)
    requires s != [] && s[0] == '/'
    ensures NonSlash(s) == NonSlash(s[1..])
  {
  }

  /** `Segments` takes the first piece off and splits the rest after the separator. */
  lemma SegmentsUnfold(s: string)
    requires s != []
    ensures var i := FirstSlash(s);
      Segments(s) == (if i == 0 then [] else [s[..i]]) + (if i == |s| then [] else Segments(s[i + 1..]))
  {
  }

  /** Dropping a separator at `i` splits the characters other than '/' there. */
  lemma NonSlashAtSlash(s: string, i: nat)
    requires i < |s| && s[i] == '/'
    ensures NonSlash(s) == NonSlash(s[..i]) + NonSlash(s[i + 1..])
  {
    NonSlashSplit(s, i);
    var u := s[i..];
    assert u[1..] == s[i + 1..];
    NonSlashSkip(u);
  }

  /** Splitting loses no character except the separators. */
  lemma {:induction false} SegmentsKeepCharacters(s: string)
    ensures Concat(Segments(s)) == NonSlash(s)
    decreases |s|
  {
    if s != [] {
      var i := FirstSlash(s);
      var head: Path := if i == 0 then [] else [s[..i]];
      SegmentsUnfold(s);
      FirstPiece(s);
      if i < |s| {
        var tail := Segments(s[i + 1..]);
        ConcatAppend(head, tail);
        NonSlashAtSlash(s, i);
        SegmentsKeepCharacters(s[i + 1..]);
      } else {
        assert s[..i] == s;
        assert Segments(s) == head;
      }
    }
  }

  /** Two-segment keys `sub/name` determine their two segments. */
  lemma TwoSegmentKey(s: string, n: string)
    requires ValidName(s) && ValidName(n)
    ensures Segments(s + "/" + n) == [s, n]
  {
    assert JoinSlash([s, n]) == s + "/" + n;
    SegmentsOfJoin([s, n]);
  }

  /** A two-segment key names its two segments unambiguously. */
  lemma TwoSegmentKeyInjective(a: string, b: string, c: string, d: string)
    requires ValidName(a) && ValidName(b) && ValidName(c) && ValidName(d)
    requires a + "/" + b == c + "/" + d
    ensures a == c && b == d
  {
    TwoSegmentKey(a, b);
    TwoSegmentKey(c, d);
  }

  /**
   * The directories from `p` up to the root, innermost first
   * (py.path's `parts(reverse=True)`).
   */
  function Ancestors(p: Path): (r: seq<Path>)
    ensures |r| == |p| + 1
    decreases |p|
  {
    if p == [] then [[]] else [p] + Ancestors(Parent(p))
  }

  /** The `j`-th ancestor is `p` with its last `j` segments removed. */
  lemma {:induction false} AncestorsAt(p: Path, j: nat)
    requires j <= |p|
    ensures Ancestors(p)[j] == p[..|p| - j]
    decreases |p|
  {
    if j == 0 {
      assert p[..|p|] == p;
    } else {
      AncestorsAt(Parent(p), j - 1);
    }
  }

  /** Every ancestor of a path of proper names has proper names. */
  lemma AncestorsValid(p: Path, j: nat)
    requires ValidPath(p) && j <= |p|
    ensures ValidPath(Ancestors(p)[j])
  {
    AncestorsAt(p, j);
  }
}
