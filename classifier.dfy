/**
 * The screenshot heuristic of ScreenShotListenManager: a media-index row counts as a
 * screenshot when it is recent, fits the screen in either orientation, and its path
 * names a screen capture.  The clock reading is the explicit parameter `now`.
 */
module Classifier {
  import opened Wrappers
  import opened Text

  /** One row of the media index: the DATA path, DATE_TAKEN in milliseconds, WIDTH and HEIGHT. */
  datatype ScreenData = ScreenData(data: string, dateTaken: int, width: int, height: int)

  /** The real display size, as `android.graphics.Point`. */
  datatype Point = Point(x: int, y: int)

  /** A row older than this many milliseconds is not a fresh capture. */
  const MAX_AGE_MILLIS: int := 10 * 1000

  /** Path fragments that mark a screen capture; all lower case. */
  const KEYWORDS: seq<string> := [
    "screenshot", "screen_shot", "screen-shot", "screen shot",
    "screencapture", "screen_capture", "screen-capture", "screen capture",
    "screencap", "screen_cap", "screen-cap", "screen cap"
  ]

  /** Criterion one: taken no earlier than the session start and at most ten seconds before `now`. */
  predicate IsRecent(d: ScreenData, startListenTime: int, now: int) {
    startListenTime <= d.dateTaken && now - d.dateTaken <= MAX_AGE_MILLIS
  }

  /** Criterion two: the image fits the screen upright or rotated; skipped when the size is unknown. */
  predicate FitsScreen(d: ScreenData, screen: Option<Point>) {
    match screen
    case None => true
    case Some(p) =>
      (d.width <= p.x && d.height <= p.y) || (d.height <= p.x && d.width <= p.y)
  }

  /** Criterion three: a non-empty path whose lower-cased form contains one of the keywords. */
  predicate HasKeyword(path: string) {
    path != [] && exists k :: 0 <= k < |KEYWORDS| && Contains(ToLower(path), KEYWORDS[k])
  }

  /** The three criteria together: the reference definition of a screenshot row. */
  predicate IsScreenShot(d: ScreenData, startListenTime: int, now: int, screen: Option<Point>) {
    IsRecent(d, startListenTime, now) && FitsScreen(d, screen) && HasKeyword(d.data)
  }

  /**
   * `checkScreenShot`: the time test, the size test and the keyword scan, each returning
   * false as soon as it fails, and the scan returning true at the first keyword found.
   */
  method CheckScreenShot(d: ScreenData, startListenTime: int, now: int, screen: Option<Point>)
    returns (r: bool)
    ensures r == IsScreenShot(d, startListenTime, now, screen)
    ensures d.dateTaken < startListenTime ==> !r
    ensures now - d.dateTaken > MAX_AGE_MILLIS ==> !r
    ensures !FitsScreen(d, screen) ==> !r
    ensures d.data == [] ==> !r
    ensures IsRecent(d, startListenTime, now) && FitsScreen(d, screen) ==> (r <==> HasKeyword(d.data))
  {
    if d.dateTaken < startListenTime || now - d.dateTaken > MAX_AGE_MILLIS {
      return false;
    }
    if screen.Some? {
      var size := screen.value;
      if !((d.width <= size.x && d.height <= size.y) || (d.height <= size.x && d.width <= size.y)) {
        return false;
      }
    }
    var data := d.data;
    if data == [] {
      return false;
    }
    data := ToLower(data);
    for i := 0 to |KEYWORDS|
      invariant forall k :: 0 <= k < i ==> !Contains(data, KEYWORDS[k])
    {
      if Contains(data, KEYWORDS[i]) {
        return true;
      }
    }
    return false;
  }

  /** Both ends of the recency window are closed: a row taken at the session start, ten seconds ago, passes. */
  lemma RecencyBoundsInclusive(d: ScreenData, startListenTime: int)
    requires d.dateTaken == startListenTime
    ensures IsRecent(d, startListenTime, d.dateTaken + MAX_AGE_MILLIS)
    ensures !IsRecent(d, startListenTime, d.dateTaken + MAX_AGE_MILLIS + 1)
    ensures !IsRecent(d.(dateTaken := startListenTime - 1), startListenTime, startListenTime)
  {
  }

  /** On a 1080 x 1920 screen a landscape 1920 x 1080 image fits rotated; 2000 x 1080 fits neither way. */
  lemma RotatedFitExample(path: string, t: int)
    ensures FitsScreen(ScreenData(path, t, 1920, 1080), Some(Point(1080, 1920)))
    ensures !FitsScreen(ScreenData(path, t, 2000, 1080), Some(Point(1080, 1920)))
  {
  }

  /** The keyword test, spelled out: some keyword occurs at some position of the lower-cased path. */
  lemma HasKeywordIff(path: string)
    ensures HasKeyword(path) <==>
      path != [] && exists k, i :: 0 <= k < |KEYWORDS| && OccursAt(ToLower(path), KEYWORDS[k], i)
  {
    var lower := ToLower(path);
    if HasKeyword(path) {
      var k :| 0 <= k < |KEYWORDS| && Contains(lower, KEYWORDS[k]);
      ContainsIff(lower, KEYWORDS[k]);
      var i :| OccursAt(lower, KEYWORDS[k], i);
    }
    if path != [] && exists k, i :: 0 <= k < |KEYWORDS| && OccursAt(lower, KEYWORDS[k], i) {
      var k, i :| 0 <= k < |KEYWORDS| && OccursAt(lower, KEYWORDS[k], i);
      ContainsAt(lower, KEYWORDS[k], i);
      assert 0 <= k < |KEYWORDS| && Contains(ToLower(path), KEYWORDS[k]);
    }
  }

  /** Case does not matter: a path and its lower-cased form pass or fail the keyword test together. */
  lemma HasKeywordIgnoresCase(path: string)
    ensures HasKeyword(path) <==> HasKeyword(ToLower(path))
  {
  }

  /** Every keyword starts with 's', so a path without 's' or 'S' never names a screenshot. */
  lemma NoLetterSRejected(path: string)
    requires forall i :: 0 <= i < |path| ==> path[i] != 's' && path[i] != 'S'
    ensures !HasKeyword(path)
  {
    var lower := ToLower(path);
    forall k | 0 <= k < |KEYWORDS|
      ensures !Contains(lower, KEYWORDS[k])
    {
      assert KEYWORDS[k][0] == 's';
      NotContainsWithoutFirstChar(lower, KEYWORDS[k]);
    }
  }

  /** A keyword written in any case inside the path is found. */
  lemma KeywordInAnyCase(path: string, k: int, i: int)
    requires 0 <= k < |KEYWORDS|
    requires 0 <= i && i + |KEYWORDS[k]| <= |path|
    requires forall j :: 0 <= j < |KEYWORDS[k]| ==> LowerChar(path[i + j]) == KEYWORDS[k][j]
    ensures HasKeyword(path)
  {
    var lower := ToLower(path);
    var key := KEYWORDS[k];
    assert lower[i..i + |key|] == key by {
      forall j | 0 <= j < |key|
        ensures lower[i..i + |key|][j] == key[j]
      {
        assert lower[i + j] == LowerChar(path[i + j]);
      }
    }
    ContainsAt(lower, key, i);
  }
}
