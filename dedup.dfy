/**
 * The duplicate-suppression cache of ScreenShotListenManager (`sHasCallbackPaths`):
 * an insertion-ordered list of the paths already reported in this session.  This module
 * describes one `checkCallback` step on the list as a value; the manager's method is
 * proved to perform exactly this step in place.
 */
module Dedup {

  /** Once the list holds this many paths, a miss first evicts the oldest ones. */
  const CACHE_LIMIT: nat := 20

  /** How many of the oldest paths one eviction drops. */
  const EVICT_COUNT: nat := 5

  /** The list before the append on a miss: the five oldest dropped when it is full. */
  function Evicted(paths: seq<string>): (r: seq<string>) {
    if |paths| >= CACHE_LIMIT then paths[EVICT_COUNT..] else paths
  }

  /** The list after `checkCallback(path)`: unchanged on a hit, evicted-then-appended on a miss. */
  function AfterCheck(paths: seq<string>, path: string): (r: seq<string>) {
    if path in paths then paths else Evicted(paths) + [path]
  }

  /** The list after checking each of `qs` in turn. */
  function AfterChecks(paths: seq<string>, qs: seq<string>): (r: seq<string>)
    decreases |qs|
  {
    if qs == [] then paths else AfterChecks(AfterCheck(paths, qs[0]), qs[1..])
  }

  /** No path is listed twice. */
  predicate NoDuplicates(paths: seq<string>) {
    forall i, j :: 0 <= i < j < |paths| ==> paths[i] != paths[j]
  }

  /** A hit leaves the list as it was. */
  lemma HitUnchanged(paths: seq<string>, path: string)
    requires path in paths
    ensures AfterCheck(paths, path) == paths
  {
  }

  /** A miss makes the path the newest entry, so checking it again is a hit. */
  lemma MissAppends(paths: seq<string>, path: string)
    requires path !in paths
    ensures var next := AfterCheck(paths, path);
      |next| > 0 && next[|next| - 1] == path && path in next
    ensures AfterCheck(AfterCheck(paths, path), path) == AfterCheck(paths, path)
  {
  }

  /**
   * A miss on a full list drops the five oldest entries and keeps the others, newest last, in
   * their order; on a shorter list it only appends.  Either way the path under test is never
   * among those dropped, since it was not listed.
   */
  lemma MissKeepsNewestInOrder(paths: seq<string>, path: string)
    requires path !in paths
    ensures |paths| >= CACHE_LIMIT ==>
      AfterCheck(paths, path) == paths[EVICT_COUNT..] + [path] &&
      |AfterCheck(paths, path)| == |paths| - EVICT_COUNT + 1
    ensures |paths| < CACHE_LIMIT ==> AfterCheck(paths, path) == paths + [path]
    ensures forall q :: q in paths && q !in AfterCheck(paths, path) ==>
      |paths| >= CACHE_LIMIT && q in paths[..EVICT_COUNT]
  {
  }

  /** Twenty entries plus one miss leave sixteen entries. */
  lemma FullCacheMissLeavesSixteen(paths: seq<string>, path: string)
    requires |paths| == CACHE_LIMIT && path !in paths
    ensures |AfterCheck(paths, path)| == 16
  {
  }

  /** The list never grows past twenty entries. */
  lemma SizeBounded(paths: seq<string>, path: string)
    requires |paths| <= CACHE_LIMIT
    ensures |AfterCheck(paths, path)| <= CACHE_LIMIT
  {
  }

  /** A list without repeats stays without repeats. */
  lemma NoDuplicatesKept(paths: seq<string>, path: string)
    requires NoDuplicates(paths)
    ensures NoDuplicates(AfterCheck(paths, path))
  {
  }

  /**
   * A listed path stays listed while it is among the `m` newest and `m` plus the number of
   * further checks is at most sixteen: a full list evicts only its five oldest entries.
   */
  lemma {:induction false} NewestSurvive(paths: seq<string>, p: string, m: nat, qs: seq<string>)
    requires 1 <= m <= |paths|
    requires p in paths[|paths| - m..]
    requires m + |qs| <= CACHE_LIMIT - EVICT_COUNT + 1
    ensures p in AfterChecks(paths, qs)
    decreases |qs|
  {
    if qs != [] {
      var q := qs[0];
      var next := AfterCheck(paths, q);
      if q in paths {
        NewestSurvive(next, p, m, qs[1..]);
      } else {
        var kept := Evicted(paths);
        assert |paths| - m >= |paths| - |kept|;
        assert paths[|paths| - m..] == kept[|kept| - m..];
        assert next[|next| - (m + 1)..] == kept[|kept| - m..] + [q];
        NewestSurvive(next, p, m + 1, qs[1..]);
      }
    }
  }

  /** A path that missed (and was therefore reported) is still suppressed for at least the next fifteen checks. */
  lemma RecentPathSuppressed(paths: seq<string>, path: string, qs: seq<string>)
    requires path !in paths
    requires |qs| <= CACHE_LIMIT - EVICT_COUNT
    ensures path in AfterChecks(AfterCheck(paths, path), qs)
  {
    var next := AfterCheck(paths, path);
    assert next[|next| - 1..] == [path];
    NewestSurvive(next, path, 1, qs);
  }
}
