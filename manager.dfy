/**
 * ScreenShotListenManager: the session state (start time, observers, listener), the
 * duplicate-suppression list, and the per-row dispatch that reports a screenshot path to
 * the listener.  Each call of the listener's `onShot` is recorded in the field `shots`.
 */
module ListenManager {
  import opened Wrappers
  import opened Text
  import opened Classifier
  import opened Dedup

  /** Stands for the identity of an `OnScreenShotListener` object. */
  type ListenerId = nat

  /** One call `listener.onShot(path)`. */
  datatype Shot = Shot(listener: ListenerId, path: string)

  /** The paths handed to any listener in a log of calls. */
  function ReportedPaths(shots: seq<Shot>): (r: set<string>) {
    set i | 0 <= i < |shots| :: shots[i].path
  }

  /**
   * `getRealScreenSize` as written: the Point is allocated before the display query, so a
   * failed query (`display == None`) still yields a size, namely 0 x 0.
   */
  function RealScreenSizeAsWritten(display: Option<Point>): (r: Option<Point>)
    ensures r.Some?
    ensures display.Some? ==> r == display
    ensures display.None? ==> r == Some(Point(0, 0))
  {
    Some(if display.Some? then display.value else Point(0, 0))
  }

  /**
   * `getRealScreenSize` as the null test of `checkScreenShot` expects it: absent when the
   * query fails, so that every row passes the size test; the queried size otherwise.
   */
  function RealScreenSize(display: Option<Point>): (r: Option<Point>)
    ensures display.None? ==> forall d: ScreenData :: FitsScreen(d, r)
    ensures display.Some? ==> r == display
  {
    display
  }

  /** The path of the screenshot in the session walk-through below. */
  const SAMPLE_SHOT_PATH: string := "/dcim/Screenshot_2021.png"

  /** Its lower-cased form holds "screenshot", the first keyword, at index 6. */
  lemma SampleShotHasKeyword()
    ensures HasKeyword(SAMPLE_SHOT_PATH)
  {
    assert SAMPLE_SHOT_PATH[6..16] == "Screenshot";
    KeywordInAnyCase(SAMPLE_SHOT_PATH, 0, 6);
  }

  /** The path of the photo in the session walk-through below. */
  const SAMPLE_PHOTO_PATH: string := "/dcim/IMG_001.jpg"

  /** It contains no 's' in either case, so no keyword. */
  lemma SamplePhotoHasNoKeyword()
    ensures !HasKeyword(SAMPLE_PHOTO_PATH)
  {
    NoLetterSRejected(SAMPLE_PHOTO_PATH);
  }

  /**
   * With the display query failed, the size as written is 0 x 0 and rejects a genuine, fresh
   * 1080 x 2280 screenshot; the corrected absent size lets the same row through.
   */
  lemma FailedDisplayQueryRejectsScreenshot(t: int)
    ensures !IsScreenShot(ScreenData(SAMPLE_SHOT_PATH, t, 1080, 2280), t, t, RealScreenSizeAsWritten(None))
    ensures IsScreenShot(ScreenData(SAMPLE_SHOT_PATH, t, 1080, 2280), t, t, RealScreenSize(None))
  {
    SampleShotHasKeyword();
  }

  class ScreenShotListenManager {
    /** `sScreenRealSize`, fixed at construction; None when the display could not be queried. */
    var screenRealSize: Option<Point>
    /** `sHasCallbackPaths`, oldest first. */
    var callbackPaths: seq<string>
    /** `mListener`; None stands for null. */
    var listener: Option<ListenerId>
    /** `mStartListenTime`, in milliseconds. */
    var startListenTime: int
    /** Whether `mInternalObserver` / `mExternalObserver` are non-null. */
    var internalObserver: bool
    var externalObserver: bool
    /** Every `onShot` call made so far, in order. */
    var shots: seq<Shot>

    /**
     * The list stays within twenty entries, holds each path once, and holds only paths that
     * were reported to a listener.
     */
    ghost predicate Valid()
      reads this
    {
      && |callbackPaths| <= CACHE_LIMIT
      && NoDuplicates(callbackPaths)
      && forall p :: p in callbackPaths ==> p in ReportedPaths(shots)
    }

    /** The constructor; `display` is the result of the display-size query. */
    constructor (display: Option<Point>)
      ensures Valid()
      ensures screenRealSize == RealScreenSize(display)
      ensures callbackPaths == [] && listener == None && startListenTime == 0
      ensures !internalObserver && !externalObserver && shots == []
    {
      screenRealSize := RealScreenSize(display);
      callbackPaths := [];
      listener := None;
      startListenTime := 0;
      internalObserver, externalObserver := false, false;
      shots := [];
    }

    /** `startListen` at clock reading `now`: empty list, new start time, both observers created. */
    method StartListen(now: int)
      requires Valid()
      modifies this
      ensures Valid()
      ensures callbackPaths == [] && startListenTime == now
      ensures internalObserver && externalObserver
      ensures screenRealSize == old(screenRealSize) && listener == old(listener) && shots == old(shots)
    {
      callbackPaths := [];
      startListenTime := now;
      internalObserver := true;
      externalObserver := true;
    }

    /**
     * `stopListen`: both observers are dropped, whatever their unregistration did; the start
     * time returns to zero and the list is emptied.
     */
    method StopListen()
      requires Valid()
      modifies this
      ensures Valid()
      ensures !internalObserver && !externalObserver
      ensures startListenTime == 0 && callbackPaths == []
      ensures screenRealSize == old(screenRealSize) && listener == old(listener) && shots == old(shots)
    {
      if internalObserver {
        internalObserver := false;
      }
      if externalObserver {
        externalObserver := false;
      }
      startListenTime := 0;
      callbackPaths := [];
    }

    /** `setListener`: later detections go to `l`. */
    method SetListener(l: Option<ListenerId>)
      requires Valid()
      modifies this`listener
      ensures Valid()
      ensures listener == l
    {
      listener := l;
    }

    /**
     * `checkCallback`: true when the path is already listed, leaving the list alone;
     * otherwise, after removing the five oldest entries from a list of twenty or more, the
     * path is appended and the answer is false.
     */
    method CheckCallback(imagePath: string) returns (seen: bool)
      modifies this`callbackPaths
      ensures seen <==> imagePath in old(callbackPaths)
      ensures callbackPaths == AfterCheck(old(callbackPaths), imagePath)
    {
      if imagePath in callbackPaths {
        return true;
      }
      if |callbackPaths| >= CACHE_LIMIT {
        for i := 0 to EVICT_COUNT
          invariant callbackPaths == old(callbackPaths)[i..]
        {
          callbackPaths := callbackPaths[1..];
        }
      }
      callbackPaths := callbackPaths + [imagePath];
      return false;
    }

    /**
     * `handleMediaRowData` at clock reading `now`: the listener is called with the row's path
     * exactly when the row is a screenshot, a listener is set and the path is not listed yet.
     * Without a listener the list is not consulted, so it does not change.
     */
    method HandleMediaRowData(d: ScreenData, now: int)
      requires Valid()
      modifies this`callbackPaths, this`shots
      ensures Valid()
      ensures var accepted := IsScreenShot(d, startListenTime, now, screenRealSize);
        && callbackPaths == (if accepted && listener.Some?
                             then AfterCheck(old(callbackPaths), d.data)
                             else old(callbackPaths))
        && shots == old(shots) + (if accepted && listener.Some? && d.data !in old(callbackPaths)
                                  then [Shot(listener.value, d.data)]
                                  else [])
      ensures d.data in old(callbackPaths) ==> shots == old(shots) && callbackPaths == old(callbackPaths)
      ensures listener.None? ==> shots == old(shots) && callbackPaths == old(callbackPaths)
    {
      var accepted := CheckScreenShot(d, startListenTime, now, screenRealSize);
      if accepted {
        if listener.Some? {
          ghost var before := callbackPaths;
          var seen := CheckCallback(d.data);
          if !seen {
            shots := shots + [Shot(listener.value, d.data)];
            SizeBounded(before, d.data);
            NoDuplicatesKept(before, d.data);
            assert d.data in ReportedPaths(shots) by {
              assert shots[|shots| - 1].path == d.data;
            }
            forall p | p in callbackPaths
              ensures p in ReportedPaths(shots)
            {
              if p != d.data {
                assert p in before;
                var i :| 0 <= i < |old(shots)| && old(shots)[i].path == p;
                assert shots[i].path == p;
              }
            }
          }
        }
      }
    }

    /**
     * The result of one media-index query (`handleScreenData`): a missing row is dropped,
     * a row is handed to `HandleMediaRowData`.
     */
    method OnQueryResult(row: Option<ScreenData>, now: int)
      requires Valid()
      modifies this`callbackPaths, this`shots
      ensures Valid()
      ensures row.None? ==> shots == old(shots) && callbackPaths == old(callbackPaths)
      ensures row.Some? ==>
        var d := row.value;
        var accepted := IsScreenShot(d, startListenTime, now, screenRealSize);
        && callbackPaths == (if accepted && listener.Some?
                             then AfterCheck(old(callbackPaths), d.data)
                             else old(callbackPaths))
        && shots == old(shots) + (if accepted && listener.Some? && d.data !in old(callbackPaths)
                                  then [Shot(listener.value, d.data)]
                                  else [])
    {
      if row.Some? {
        HandleMediaRowData(row.value, now);
      }
    }
  }

  /**
   * A session started at `t0` on a 1080 x 2340 screen: a fresh 1080 x 2280 row whose path names
   * a screenshot is reported once, the repeated notification for it is suppressed, and a row
   * with the same timing and size whose path has no keyword is never reported.  A stop
   * followed by a new start leaves an empty list and the new start time.  The two sample
   * paths above meet the requirements (`SampleShotHasKeyword`, `SamplePhotoHasNoKeyword`).
   */
  method SessionWalkThrough(t0: int, t1: int, shotPath: string, photoPath: string)
    returns (log: seq<Shot>, cacheAfterRestart: seq<string>, start: int)
    requires HasKeyword(shotPath) && !HasKeyword(photoPath)
    ensures log == [Shot(1, shotPath)]
    ensures cacheAfterRestart == [] && start == t1
  {
    var m := new ScreenShotListenManager(Some(Point(1080, 2340)));
    m.SetListener(Some(1));
    m.StartListen(t0);
    var shot := ScreenData(shotPath, t0 + 2000, 1080, 2280);
    m.HandleMediaRowData(shot, t0 + 2000);
    m.HandleMediaRowData(shot, t0 + 2000);
    m.HandleMediaRowData(shot.(data := photoPath), t0 + 2000);
    log := m.shots;
    m.StopListen();
    m.StartListen(t1);
    cacheAfterRestart, start := m.callbackPaths, m.startListenTime;
  }

  /** The walk-through with the two sample paths. */
  method SampleSession(t0: int, t1: int) returns (log: seq<Shot>)
    ensures log == [Shot(1, SAMPLE_SHOT_PATH)]
  {
    SampleShotHasKeyword();
    SamplePhotoHasNoKeyword();
    var cache, start;
    log, cache, start := SessionWalkThrough(t0, t1, SAMPLE_SHOT_PATH, SAMPLE_PHOTO_PATH);
  }
}
