# pytest-cache in Dafny

A model of the `pytest-cache` plugin (`pytest_cache.py`) with proofs about it. The plugin has two parts:

- a small persistent key-value store kept under a `.cache` directory;
- the `--lf` ("rerun last failures") feature built on that store.

The model covers four things:

- **Key to path** (`Paths`, `CacheStore`).
  - A key `group/.../name` must contain a `/`. It names the file `cachedir/group/.../name`.
  - Empty pieces of the key are dropped, as `py.path`'s `join` normalises them.
  - `getpath` creates the file's directory and any missing ancestors. A regular file on the way makes it fail.
- **The store** (`FileTree`, `CacheStore`).
  - The filesystem is a well-formed tree of files, which hold values, and directories.
  - The spec functions `GetPathOp`, `LoadOp`, `GetOp` and `SetOp` give, for each call, the outcome and the tree afterwards.
  - The class `Cache` holds the tree in fields. Its methods `GetPath`, `Get` and `Set` update those fields in place, exactly as the spec functions say.
  - `Items` is `iteritems`.
- **Root discovery** (`RootDir`).
  - `GetRoot` is the generator `getroot`, a triple loop:
    - over the non-option arguments, or the current directory when there are none;
    - over each one's ancestors, innermost first;
    - over the marker files `setup.py`, `setup.cfg`, `tox.ini`, `pytest.ini`, in that order.
  - `GetRootDir` joins the name onto one directory, the first of these that applies:
    - the ini file's directory;
    - the first hit's directory;
    - the current directory.
- **Last failures** (`LastFailed`).
  - `NewLFPlugin` loads `cache/lastfailed` when `--lf` is given.
  - `ReportHeader` is the header line.
  - `ModifyItems` keeps the failed items in place and returns the deselected ones.
  - `SessionFinish` records the node ids of the failed reports.

Some things are parameters rather than modelled:

- The filesystem a call sees is a `Tree` value. For root discovery it is the set of paths that exist.
- The command line, the current directory and the ini file pytest found are fields of `Config`.
- The terminal reporter's statistics are a map from category to reports.

The program's own tests expect several things this version of the code does not have: `makedir`, `_getvaluepath`, a `--clearcache` option, and other header and `--cache` output. One of these touches the modelled core, and there the model follows the code. The test `test_config_cache_dataerror` (test_cache.py:61-69) expects a corrupt value file to read as the default. In this version, `get` (pytest_cache.py:57-61) does not catch the exceptions of execnet's `loads`. Values are stored as values in this model, so a corrupt file cannot arise.

## Model

| member | source | states |
|---|---|---|
| Paths.SegmentsOfJoin | pytest_cache.py:49 | a key made of proper names joined by `/` maps to exactly those path segments |
| Paths.SegmentsKeepCharacters | pytest_cache.py:49 | mapping a key to segments loses no character except the separators |
| Paths.TwoSegmentKeyInjective | pytest_cache.py:37 | a key `group/name` of proper names determines both names |
| Paths.AncestorsAt | pytest_cache.py:160 | the `j`-th directory visited going up is the path with its last `j` segments removed |
| FileTree.EnsureOutcome | pytest_cache.py:50 | creating a directory fails exactly when a prefix is a regular file; on success the directory exists, no file changed, only ancestors of it were added, and the tree stays well formed |
| FileTree.EnsureExisting | pytest_cache.py:50 | ensuring an existing directory changes nothing |
| CacheStore.GetPathOutcome | pytest_cache.py:42-51 | a key without `/` gives `KeyError` and leaves the tree unchanged; otherwise the path is the cache directory plus the key's segments, the call fails exactly when a file blocks the directory, and on success the directory exists and no file changed |
| CacheStore.Cache.GetPath | pytest_cache.py:42-51 | the result and the new state are those of `getpath` on the old state; the tree stays well formed |
| CacheStore.Cache.Get | pytest_cache.py:53-63 | the result and the new state are those of `get` on the old state |
| CacheStore.GetMissReturnsDefault | pytest_cache.py:61-63 | a key whose file was never written reads as the default, whatever the default is |
| CacheStore.LoadExisting | pytest_cache.py:53-63 | when the key's directory exists, `get` touches nothing: a directory at the path is an error, a file gives its value, nothing gives a miss |
| CacheStore.Cache.Set | pytest_cache.py:65-73 | the result and the new state are those of `set` on the old state; the tree stays well formed |
| CacheStore.SetOutcome | pytest_cache.py:65-73 | `set` fails with `KeyError` exactly for keys without `/` and with `IOError` exactly when a file blocks the directory or the path is a directory; on success the file holds the value |
| CacheStore.SetThenGet | pytest_cache.py:53-73 | after a successful `set`, `get` of the same key returns the value for every default and changes nothing |
| CacheStore.SetSucceeds | pytest_cache.py:65-73 | a `set` that succeeds with one value succeeds with any value, creating the same directories and writing the same file |
| CacheStore.SetOverwrites | pytest_cache.py:65-73 | setting a key twice is the same as setting it once to the second value |
| CacheStore.SetFrame | pytest_cache.py:65-73 | `set` changes no file but the key's own and removes no directory |
| CacheStore.Cache.constructor | pytest_cache.py:28-31 | the cache directory is `getrootdir(config, ".cache")` and the store starts from the given filesystem |
| CacheStore.EntryKeyInjective | pytest_cache.py:37 | different entries two levels down are listed under different keys |
| CacheStore.LoadEntry | pytest_cache.py:37-38 | reading an entry through its listed key returns its value, or fails when the entry is a directory |
| CacheStore.ListingComplete | pytest_cache.py:33-40 | a listing of every second-level file lists exactly the pairs of those files, each key once |
| CacheStore.ListEntries | pytest_cache.py:36-40 | the entries of one first-level directory yield one pair per file in it, under the key `group/name`; it fails with `IOError` exactly when it holds a directory, unless directories are skipped |
| CacheStore.ListTree | pytest_cache.py:33-40 | the listing fails exactly when the cache directory is missing or, when directories are not skipped, some second-level entry is a directory; otherwise it yields exactly the second-level files' pairs, no key twice |
| CacheStore.Cache.Items | pytest_cache.py:33-40 | `iteritems` as written: it raises `IOError` exactly when the cache directory is missing or a second-level entry is a directory; otherwise it yields each second-level file as `(group/name, value)`, each key once |
| CacheStore.DeepKeyBreaksListing | pytest_cache.py:33-51 | after storing under a three-segment key `a/b/c`, the value reads back, yet `cachedir/a/b` is a directory two levels down, so `iteritems` fails |
| CacheStore.DeepKeyAccepted | pytest_cache.py:42-51 | storing under any three-segment key `a/b/c` of proper names succeeds on an empty filesystem |
| CacheStore.Cache.ItemsSkippingDirs | pytest_cache.py:33-40 | the listing with directory entries passed over fails only when the cache directory is missing, and yields exactly the second-level files' pairs, each key once |
| RootDir.OperandsMember | pytest_cache.py:155 | exactly the arguments that do not start with `-` are kept |
| RootDir.OperandsOrder | pytest_cache.py:155 | the operands are a subsequence of the arguments, so filtering out options never reorders them; with no options nothing is dropped |
| RootDir.StartPathsShape | pytest_cache.py:155-158 | a command line without operands starts from `[cwd]`; otherwise there is exactly one start path per operand, the `i`-th being the `i`-th operand's path |
| RootDir.GetRoot | pytest_cache.py:154-164 | the hits are those of the triple order: argument, then ancestor innermost first, then marker order |
| RootDir.RootHitsMember | pytest_cache.py:154-164 | a path is a hit exactly when it exists and is a marker file in some ancestor of some start path |
| RootDir.RootHitsFirst | pytest_cache.py:154-164 | the first hit is the earliest existing candidate in that order |
| RootDir.RootHitsNone | pytest_cache.py:154-164 | when no candidate exists there is no hit |
| RootDir.GetRootDir | pytest_cache.py:130-152 | with an ini file, the result is the ini file's directory plus the name; the result is a valid path |
| RootDir.GetRootDirFirstHit | pytest_cache.py:142-146 | without an ini file, the result is the directory of the earliest existing marker, plus the name |
| RootDir.GetRootDirFallback | pytest_cache.py:147-151 | without an ini file and without any existing marker, the result is the current directory plus the name |
| LastFailed.NodeIdsOfIdsValue | pytest_cache.py:81 | a stored set of node ids reads back as the same set |
| LastFailed.NewLFPlugin | pytest_cache.py:78-81 | with `--lf` the plugin holds what `get("cache/lastfailed", set())` returned, or construction fails as that call did; without `--lf` nothing is read |
| LastFailed.LoadWithoutLF | pytest_cache.py:80 | without `--lf` the load changes nothing and holds no failures |
| LastFailed.FirstRunLoadsNothing | pytest_cache.py:81 | without a recorded file, `--lf` loads no failures |
| LastFailed.ReportHeader | pytest_cache.py:83-89 | there is a header line exactly when `--lf` is given |
| LastFailed.HeaderAnnounces | pytest_cache.py:84-89 | no recorded failures announce "run all (no recorded failures)"; otherwise "rerun last N failures", where N has no leading zero and reads back as the number of recorded failures |
| LastFailed.DecimalRoundTrip | pytest_cache.py:88 | the printed count reads back as the count |
| LastFailed.DecimalNoLeadingZero | pytest_cache.py:88 | the printed count has no leading zero: it starts with `0` exactly when the count is zero |
| LastFailed.HeaderDeterminesCount | pytest_cache.py:83-89 | two `--lf` headers are equal exactly when the numbers of recorded failures are |
| LastFailed.LFPlugin.ModifyItems | pytest_cache.py:91-101 | with `--lf` and recorded failures, the item list becomes the failed items and the rest are returned for the deselection hook; otherwise the items are unchanged and nothing is deselected |
| LastFailed.FilterPartition | pytest_cache.py:94-100 | kept items are exactly those recorded as failed, deselected items exactly the others, and together they are a permutation of the items |
| LastFailed.FilterKeepsOrder | pytest_cache.py:94-100 | kept and deselected items are each a subsequence of the items, in collection order |
| LastFailed.FilterAllFailed | pytest_cache.py:94-100 | when every item was recorded, all are kept and none deselected |
| LastFailed.FailedIdsMember | pytest_cache.py:106-108 | a node id is recorded exactly when some report in `stats["failed"]` carries it |
| LastFailed.OtherCategoriesIgnored | pytest_cache.py:106-108 | skipped, passed and error reports do not affect what is recorded |
| LastFailed.NoFailuresRecordsEmpty | pytest_cache.py:106-109 | without failed reports the empty set is recorded |
| LastFailed.FailedIdsBound | pytest_cache.py:106-108 | there are no more recorded ids than failed reports |
| LastFailed.SessionFinishOutcome | pytest_cache.py:103-109 | given the terminal reporter's statistics, recording never raises `KeyError`; it fails exactly when the filesystem refuses, and on success `cache/lastfailed` holds exactly the failed node ids |
| LastFailed.LFPlugin.SessionFinish | pytest_cache.py:103-109 | the result and the new state are those of `set("cache/lastfailed", ids)` with `ids` the failed node ids |
| LastFailed.NextSessionLoadsFailures | pytest_cache.py:78-109 | the failures one session records are exactly what the next `--lf` session loads |

## Left out

- `pytest_addoption`, `pytest_cmdline_main`, `pytest_configure` and the module-level `pytest_report_header` are left out: they are registration glue for the host test runner.
- `showcache` and `_showcache` are left out: they only print `iteritems`.
- execnet's `dumps` and `loads` are not modelled. A file holds the value itself, so `get` never fails to decode.
- Corrupt cache contents cannot arise for the same reason, and the source has no handling for them to model.
- `set`'s return value, the number of bytes written, is modelled as `()`.
- A value that execnet's `dumps` cannot encode (test_cache.py:65 stores the cache object itself) is outside `Value`. The source opens the file for writing before `dumps` raises (pytest_cache.py:67-71), so such a `set` leaves an empty file behind. The model does not capture this.
- The `trace` calls and warnings are not modelled: they have no effect on results.
- CacheStore.Cache.Items: the model does not capture that `iteritems` is lazy. If some pairs are yielded and then an error is raised, the model returns only the error.
- The listing order of directories is left open: `Items` picks entries in any order, and its contract holds for every order.
- RootDir.GetRoot computes every hit, while `getrootdir` consumes only the first. The laziness is not observable without I/O.
- `.` and `..` segments, symbolic links, and permission errors other than a file blocking a directory are not modelled.
- LastFailed.NodeIds: a value under `cache/lastfailed` other than a set of strings is not modelled. Python's `len` and `in` on other types could see other things. Only this plugin writes that key, and it always writes a set of strings.
- When `--lf` is off, the source never sets `self.lastfailed`. The model holds the empty set there, which is never read.
- The `pytest_deselected` hook call is modelled as `ModifyItems` returning the deselected items.
- LastFailed.LFPlugin.SessionFinish assumes the terminal reporter plugin is registered. The source reads its `stats` through `getplugin("terminalreporter")` (pytest_cache.py:105-106), and without that plugin the call raises `AttributeError`. The model takes the statistics as a parameter, so that failure is not modelled, and `SessionFinishOutcome`'s "fails exactly when the filesystem refuses" holds only under this assumption.
- CacheStore.Cache.ItemsSkippingDirs is one choice of repair. Neither the source nor its tests say whether `iteritems` should pass over directory entries or walk into them. Passing over them means that a value stored under a key with three segments, such as `a/b/c`, is never listed.

## Findings

| source | as written | input that shows it | evidently intended | confidence | as-written member | corrected member |
|---|---|---|---|---|---|---|
| pytest_cache.py:33-40 | `iteritems` calls `get` on every entry of every first-level directory, including entries that are directories, and opening a directory raises | `set("a/b/c", 1)`, which `getpath` accepts because only `/` is required, then `iteritems()` | list the stored values without failing; passing over entries that are directories is the repair modelled here, a choice the source does not settle (walking into them would also list `a/b/c`) | not executed | CacheStore.Cache.Items, CacheStore.DeepKeyBreaksListing | CacheStore.Cache.ItemsSkippingDirs |
