/**
 * The `--lf` ("last failed") plugin built on the cache.
 *
 * At the end of every session the node ids of the failed tests are stored
 * under the key `cache/lastfailed`.  When a later session runs with `--lf`,
 * the plugin loads that set, announces in the report header how many
 * failures will be rerun, and narrows the collected items to those whose
 * node id is in the set, handing the rest to the deselection hook.
 */
module LastFailed {
  import opened Paths
  import opened Values
  import opened FileTree
  import opened RootDir
  import opened CacheStore
  import opened Sequences

  /** The cache key the failed node ids are stored under. */
  const LastFailedKey: string := "cache/lastfailed"

  /** A collected test item; the plugin only looks at its node id. */
  datatype Item = Item(nodeid: string)

  /** A test report kept by the terminal reporter. */
  datatype Report = Report(nodeid: string)

  /** The terminal reporter's `stats`: report category ("failed", "skipped", ...) to reports. */
  type Stats = map<string, seq<Report>>

  // --- the stored value ---------------------------------------------------

  /** A set of node ids as the value `set` stores. */
  function IdsValue(ids: set<string>): Value {
    VSet(set id | id in ids :: VStr(id))
  }

  /** The node ids a loaded value denotes: the strings of a set. */
  function NodeIds(v: Value): set<string> {
    if v.VSet? then set e | e in v.elems && e.VStr? :: e.s else {}
  }

  /** Storing a set of node ids and reading it back gives the same set. */
  lemma NodeIdsOfIdsValue(ids: set<string>)
    ensures NodeIds(IdsValue(ids)) == ids
  {
    forall id | id in ids
      ensures id in NodeIds(IdsValue(ids))
    {
      assert VStr(id) in IdsValue(ids).elems;
    }
  }

  // --- pytest_sessionfinish -----------------------------------------------

  /** `stats.get("failed", [])`. */
  function FailedReports(stats: Stats): seq<Report> {
    if "failed" in stats then stats["failed"] else []
  }

  /** The node ids of a sequence of reports. */
  function ReportIds(reports: seq<Report>): set<string> {
    set r | r in reports :: r.nodeid
  }

  /** `set([x.nodeid for x in failedreports])`. */
  function FailedIds(stats: Stats): set<string> {
    ReportIds(FailedReports(stats))
  }

  /** A node id is recorded exactly when some failed report carries it. */
  lemma FailedIdsMember(stats: Stats, id: string)
    ensures id in FailedIds(stats) <==>
      exists i :: 0 <= i < |FailedReports(stats)| && FailedReports(stats)[i].nodeid == id
  {
    if id in FailedIds(stats) {
      var r :| r in FailedReports(stats) && r.nodeid == id;
      var i :| 0 <= i < |FailedReports(stats)| && FailedReports(stats)[i] == r;
    }
  }

  /**
   * Reports of any other category (skipped, passed, errors) do not affect
   * what is recorded.
   */
  lemma OtherCategoriesIgnored(stats: Stats, category: string, reports: seq<Report>)
    requires category != "failed"
    ensures FailedIds(stats[category := reports]) == FailedIds(stats)
  {
    assert FailedReports(stats[category := reports]) == FailedReports(stats);
  }

  /** No failed reports, nothing recorded: the empty set is still written. */
  lemma NoFailuresRecordsEmpty(stats: Stats)
    requires "failed" !in stats || stats["failed"] == []
    ensures FailedIds(stats) == {}
  {
  }

  /** There are no more recorded ids than failed reports. */
  lemma {:induction false} ReportIdsBound(reports: seq<Report>)
    ensures |ReportIds(reports)| <= |reports|
    decreases |reports|
  {
    if reports != [] {
      var init := reports[..|reports| - 1];
      var last := reports[|reports| - 1];
      assert reports == init + [last];
      assert ReportIds(reports) == ReportIds(init) + {last.nodeid};
      ReportIdsBound(init);
    }
  }

  lemma FailedIdsBound(stats: Stats)
    ensures |FailedIds(stats)| <= |FailedReports(stats)|
  {
    ReportIdsBound(FailedReports(stats));
  }

  /** `pytest_sessionfinish`: `cache.set("cache/lastfailed", ids)`. */
  function SessionFinishOp(t: Tree, cachedir: Path, stats: Stats): Step<()> {
    SetOp(t, cachedir, LastFailedKey, IdsValue(FailedIds(stats)))
  }

  /** `LFPlugin.__init__`: with `--lf`, `cache.get("cache/lastfailed", set())`. */
  function LoadOpLF(t: Tree, cachedir: Path, lf: bool): Step<set<string>> {
    if !lf then Step(Ok({}), t)
    else
      var s := GetOp(t, cachedir, LastFailedKey, VSet({}));
      match s.result
      case Err(e) => Step(Err(e), s.tree)
      case Ok(v) => Step(Ok(NodeIds(v)), s.tree)
  }

  lemma LastFailedKeyShape(cachedir: Path)
    ensures '/' in LastFailedKey
    ensures KeyPath(cachedir, LastFailedKey) == cachedir + ["cache", "lastfailed"]
  {
    assert LastFailedKey == "cache" + "/" + "lastfailed";
    assert LastFailedKey[5] == '/';
    TwoSegmentKey("cache", "lastfailed");
  }

  /**
   * Recording never raises `KeyError`; it fails only when the filesystem
   * refuses, and on success the file holds exactly the failed node ids.
   */
  lemma SessionFinishOutcome(t: Tree, cachedir: Path, stats: Stats)
    requires WellFormed(t) && ValidCacheDir(cachedir)
    ensures var s := SessionFinishOp(t, cachedir, stats); var p := cachedir + ["cache", "lastfailed"];
      && s.result != Err(KeyError)
      && (s.result.Err? <==> FileInTheWay(t, Parent(p)) || p in t.dirs)
      && (s.result.Ok? ==> WellFormed(s.tree) && p in s.tree.files && NodeIds(s.tree.files[p]) == FailedIds(stats))
  {
    LastFailedKeyShape(cachedir);
    SetOutcome(t, cachedir, LastFailedKey, IdsValue(FailedIds(stats)));
    NodeIdsOfIdsValue(FailedIds(stats));
  }

  /**
   * The failures one session records are exactly what the next `--lf`
   * session loads, and loading changes nothing on disk.
   */
  lemma NextSessionLoadsFailures(t: Tree, cachedir: Path, stats: Stats)
    requires WellFormed(t) && ValidCacheDir(cachedir)
    requires SessionFinishOp(t, cachedir, stats).result.Ok?
    ensures var t' := SessionFinishOp(t, cachedir, stats).tree;
      LoadOpLF(t', cachedir, true) == Step(Ok(FailedIds(stats)), t')
  {
    var ids := FailedIds(stats);
    SetThenGet(t, cachedir, LastFailedKey, IdsValue(ids), VSet({}));
    NodeIdsOfIdsValue(ids);
  }

  /** Without a recorded file (a first run), `--lf` loads no failures. */
  lemma FirstRunLoadsNothing(t: Tree, cachedir: Path)
    requires WellFormed(t) && ValidCacheDir(cachedir)
    requires KeyPath(cachedir, LastFailedKey) !in t.files
    ensures LoadOpLF(t, cachedir, true).result.Ok? ==> LoadOpLF(t, cachedir, true).result.value == {}
  {
    GetMissReturnsDefault(t, cachedir, LastFailedKey, VSet({}));
  }

  /** Without `--lf` nothing is read and nothing changes. */
  lemma LoadWithoutLF(t: Tree, cachedir: Path)
    ensures LoadOpLF(t, cachedir, false) == Step(Ok({}), t)
  {
  }

  // --- pytest_report_header -----------------------------------------------

  /** The character of a decimal digit. */
  function Digit(d: nat): (c: char)
    requires d < 10
    ensures '0' <= c <= '9'
  {
    (48 + d) as char
  }

  predicate AllDigits(s: string) {
    forall i :: 0 <= i < |s| ==> '0' <= s[i] <= '9'
  }

  /** `%d` of a count. */
  function Decimal(n: nat): (s: string)
    ensures |s| > 0 && AllDigits(s)
    decreases n
  {
    if n < 10 then [Digit(n)] else Decimal(n / 10) + [Digit(n % 10)]
  }

  /** The number a string of digits denotes. */
  function ParseDecimal(s: string): nat
    requires AllDigits(s)
    decreases |s|
  {
    if s == [] then 0 else 10 * ParseDecimal(s[..|s| - 1]) + (s[|s| - 1] as int - 48)
  }

  /** The number printed is the count: reading the digits back gives it. */
  lemma {:induction false} DecimalRoundTrip(n: nat)
    ensures ParseDecimal(Decimal(n)) == n
    decreases n
  {
    if n >= 10 {
      var s := Decimal(n);
      assert s[..|s| - 1] == Decimal(n / 10);
      DecimalRoundTrip(n / 10);
    }
  }

  /** `%d` prints no leading zero: a positive count starts with a non-zero digit. */
  lemma {:induction false} DecimalNoLeadingZero(n: nat)
    ensures n > 0 ==> Decimal(n)[0] != '0'
    ensures Decimal(n)[0] == '0' <==> n == 0
    decreases n
  {
    if n >= 10 {
      DecimalNoLeadingZero(n / 10);
      assert Decimal(n)[0] == Decimal(n / 10)[0];
    }
  }

  const HeaderPrefix: string := "run-last-failure: "
  const NoFailuresMode: string := "run all (no recorded failures)"

  /** The mode part of the header. */
  function Mode(lastfailed: set<string>): string {
    if lastfailed == {} then NoFailuresMode
    else "rerun last " + Decimal(|lastfailed|) + " failures"
  }

  /** `pytest_report_header`: a line only with `--lf`. */
  function ReportHeader(lf: bool, lastfailed: set<string>): (r: Option<string>)
    ensures r.None? <==> !lf
  {
    if lf then Some(HeaderPrefix + Mode(lastfailed)) else None
  }

  /**
   * With `--lf` and no recorded failures the header announces a full run;
   * otherwise it announces a rerun whose printed count, written without
   * leading zeros, reads back as the number of recorded failures.
   */
  lemma HeaderAnnounces(lastfailed: set<string>)
    ensures lastfailed == {} ==> ReportHeader(true, lastfailed) == Some(HeaderPrefix + NoFailuresMode)
    ensures lastfailed != {} ==> exists d ::
      && AllDigits(d)
      && ParseDecimal(d) == |lastfailed|
      && d[0] != '0'
      && ReportHeader(true, lastfailed) == Some(HeaderPrefix + ("rerun last " + d + " failures"))
  {
    if lastfailed != {} {
      var d := Decimal(|lastfailed|);
      DecimalRoundTrip(|lastfailed|);
      DecimalNoLeadingZero(|lastfailed|);
      assert ReportHeader(true, lastfailed) == Some(HeaderPrefix + ("rerun last " + d + " failures"));
    }
  }

  /** Different counts print differently. */
  lemma DecimalInjective(m: nat, n: nat)
    requires Decimal(m) == Decimal(n)
    ensures m == n
  {
    DecimalRoundTrip(m);
    DecimalRoundTrip(n);
  }

  /** The rerun text gives its count back. */
  lemma RerunTextInjective(a: string, b: string)
    requires "rerun last " + a + " failures" == "rerun last " + b + " failures"
    ensures a == b
  {
    var x := "rerun last " + a + " failures";
    var y := "rerun last " + b + " failures";
    assert |a| == |b|;
    assert a == x[11..11 + |a|];
    assert b == y[11..11 + |b|];
  }

  /** A full run and a rerun are announced differently. */
  lemma ModesDiffer(f: set<string>, g: set<string>)
    requires f == {} && g != {}
    ensures Mode(f) != Mode(g)
  {
    assert Mode(f)[1] != Mode(g)[1];
  }

  /** With `--lf`, two headers agree exactly when the numbers of recorded failures agree. */
  lemma HeaderDeterminesCount(f: set<string>, g: set<string>)
    ensures ReportHeader(true, f) == ReportHeader(true, g) <==> |f| == |g|
  {
    if ReportHeader(true, f) == ReportHeader(true, g) {
      var hf, hg := HeaderPrefix + Mode(f), HeaderPrefix + Mode(g);
      assert hf == hg;
      assert Mode(f) == hf[|HeaderPrefix|..] && Mode(g) == hg[|HeaderPrefix|..];
      if f == {} && g != {} {
        ModesDiffer(f, g);
      } else if f != {} && g == {} {
        ModesDiffer(g, f);
      } else if f != {} && g != {} {
        RerunTextInjective(Decimal(|f|), Decimal(|g|));
        DecimalInjective(|f|, |g|);
      }
    }
  }

  // --- pytest_collection_modifyitems --------------------------------------

  /** The items whose node id was recorded as failed, in collection order. */
  function Kept(items: seq<Item>, lastfailed: set<string>): seq<Item>
    decreases |items|
  {
    if items == [] then []
    else
      var last := items[|items| - 1];
      Kept(items[..|items| - 1], lastfailed) + (if last.nodeid in lastfailed then [last] else [])
  }

  /** The other items, in collection order. */
  function Deselected(items: seq<Item>, lastfailed: set<string>): seq<Item>
    decreases |items|
  {
    if items == [] then []
    else
      var last := items[|items| - 1];
      Deselected(items[..|items| - 1], lastfailed) + (if last.nodeid in lastfailed then [] else [last])
  }

  lemma KeptSnoc(items: seq<Item>, lastfailed: set<string>, x: Item)
    ensures Kept(items + [x], lastfailed) == Kept(items, lastfailed) + (if x.nodeid in lastfailed then [x] else [])
    ensures Deselected(items + [x], lastfailed) == Deselected(items, lastfailed) + (if x.nodeid in lastfailed then [] else [x])
  {
    assert (items + [x])[..|items|] == items;
  }

  /**
   * Filtering splits the items: the kept ones are exactly those recorded as
   * failed, the deselected ones exactly the others, and together they are
   * the items again.
   */
  lemma {:induction false} FilterPartition(items: seq<Item>, lastfailed: set<string>)
    ensures forall x :: x in Kept(items, lastfailed) <==> x in items && x.nodeid in lastfailed
    ensures forall x :: x in Deselected(items, lastfailed) <==> x in items && x.nodeid !in lastfailed
    ensures multiset(Kept(items, lastfailed)) + multiset(Deselected(items, lastfailed)) == multiset(items)
    decreases |items|
  {
    if items != [] {
      var init, last := items[..|items| - 1], items[|items| - 1];
      assert items == init + [last];
      FilterPartition(init, lastfailed);
    }
  }

  /** Both parts keep the collection order. */
  lemma {:induction false} FilterKeepsOrder(items: seq<Item>, lastfailed: set<string>)
    ensures IsSubsequence(Kept(items, lastfailed), items)
    ensures IsSubsequence(Deselected(items, lastfailed), items)
    decreases |items|
  {
    if items != [] {
      var init := items[..|items| - 1];
      FilterKeepsOrder(init, lastfailed);
      var k, d := Kept(items, lastfailed), Deselected(items, lastfailed);
      if items[|items| - 1].nodeid in lastfailed {
        assert k[..|k| - 1] == Kept(init, lastfailed);
        assert d == Deselected(init, lastfailed);
      } else {
        assert d[..|d| - 1] == Deselected(init, lastfailed);
        assert k == Kept(init, lastfailed);
      }
    }
  }

  /** When every item was recorded as failed, nothing is deselected. */
  lemma {:induction false} FilterAllFailed(items: seq<Item>, lastfailed: set<string>)
    requires forall i :: 0 <= i < |items| ==> items[i].nodeid in lastfailed
    ensures Kept(items, lastfailed) == items && Deselected(items, lastfailed) == []
    decreases |items|
  {
    if items != [] {
      var init := items[..|items| - 1];
      FilterAllFailed(init, lastfailed);
      assert items == init + [items[|items| - 1]];
    }
  }

  /** The collected items, a list the hook rewrites in place (`items[:] = ...`). */
  class ItemList {
    var elems: seq<Item>

    constructor (elems: seq<Item>)
      ensures this.elems == elems
    {
      this.elems := elems;
    }
  }

  class LFPlugin {
    const lf: bool
    const cache: Cache
    var lastfailed: set<string>

    constructor (lf: bool, cache: Cache, lastfailed: set<string>)
      ensures this.lf == lf && this.cache == cache && this.lastfailed == lastfailed
    {
      this.lf := lf;
      this.cache := cache;
      this.lastfailed := lastfailed;
    }

    /**
     * `pytest_collection_modifyitems`: with `--lf` and recorded failures,
     * keep the failed items in place and return the others, which go to
     * `pytest_deselected`; otherwise leave the items alone.
     */
    method ModifyItems(items: ItemList) returns (deselected: Option<seq<Item>>)
      modifies items
      ensures lf && lastfailed != {} ==>
        items.elems == Kept(old(items.elems), lastfailed) &&
        deselected == Some(Deselected(old(items.elems), lastfailed))
      ensures !(lf && lastfailed != {}) ==> items.elems == old(items.elems) && deselected == None
    {
      if !(lf && lastfailed != {}) {
        return None;
      }
      var all := items.elems;
      var newitems: seq<Item> := [];
      var others: seq<Item> := [];
      for i := 0 to |all|
        invariant newitems == Kept(all[..i], lastfailed)
        invariant others == Deselected(all[..i], lastfailed)
      {
        KeptSnoc(all[..i], lastfailed, all[i]);
        assert all[..i + 1] == all[..i] + [all[i]];
        if all[i].nodeid in lastfailed {
          newitems := newitems + [all[i]];
        } else {
          others := others + [all[i]];
        }
      }
      assert all[..|all|] == all;
      items.elems := newitems;
      return Some(others);
    }

    /** `pytest_sessionfinish`: record the node ids of this session's failures. */
    method SessionFinish(stats: Stats) returns (r: Result<()>)
      requires cache.Valid()
      modifies cache
      ensures cache.Valid()
      ensures var s := SessionFinishOp(old(cache.State()), cache.cachedir, stats);
        r == s.result && cache.State() == s.tree
    {
      var ids := FailedIds(stats);
      r := cache.Set(LastFailedKey, IdsValue(ids));
    }
  }

  /**
   * `LFPlugin(config)`: with `--lf`, load the recorded failures, which can
   * fail like any `get`; without it nothing is read.
   */
  method NewLFPlugin(config: Config, cache: Cache) returns (r: Result<LFPlugin>)
    requires cache.Valid()
    modifies cache
    ensures cache.Valid()
    ensures var s := LoadOpLF(old(cache.State()), cache.cachedir, config.lf);
      && cache.State() == s.tree
      && (r.Err? <==> s.result.Err?)
      && (r.Err? ==> r.error == s.result.error)
      && (r.Ok? ==> fresh(r.value) && r.value.lf == config.lf && r.value.cache == cache &&
                    r.value.lastfailed == s.result.value)
  {
    var lastfailed: set<string> := {};
    if config.lf {
      var got := cache.Get(LastFailedKey, VSet({}));
      if got.Err? {
        return Err(got.error);
      }
      lastfailed := NodeIds(got.value);
    }
    var plugin := new LFPlugin(config.lf, cache, lastfailed);
    return Ok(plugin);
  }
}
