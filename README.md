# ScreenShotListenManager in Dafny

This project models the detection core of `ScreenShotListenManager`, the Android component
that watches the media index for new images. It decides from a row's metadata alone whether
the image is a screenshot, and it reports each qualifying path to a listener at most once
while that path stays in its duplicate list.

- `text.dfy` (module `Text`) covers the two Java string operations the heuristic relies on:
  lower-casing (`ToLower`, ASCII folding) and substring search (`Contains`, with
  `ContainsIff` tying it to "occurs at some index").
- `classifier.dfy` (module `Classifier`) holds the media row `ScreenData`, the screen
  size `Point`, the twelve `KEYWORDS`, and the three criteria: recency, orientation-tolerant
  size fit, and keyword match. `IsScreenShot` is the reference definition.
  `CheckScreenShot` is `checkScreenShot` with its early returns and its keyword loop, and it
  is proved equal to `IsScreenShot`. The clock reading is the parameter `now`.
- `dedup.dfy` (module `Dedup`) holds `AfterCheck`, one `checkCallback` step on the list of
  reported paths taken as a value, with its properties: hit leaves the list alone, a miss
  appends, a full list loses its five oldest entries, the size bound, no repeats, and a path
  just reported stays suppressed for at least fifteen more checks.
- `manager.dfy` (module `ListenManager`) holds the class `ScreenShotListenManager`. Its
  fields are the screen size, the list `callbackPaths`, the listener, the start time, the
  two observer references (as flags), and a log `shots` of every `onShot` call. Its methods
  are `StartListen`, `StopListen`, `SetListener`, `CheckCallback` (the in-place list update
  with its `remove(0)` loop), `HandleMediaRowData` and `OnQueryResult`. `Valid()` states the
  invariant that every public method keeps: at most twenty paths, no path twice, and every
  listed path already reported. `CheckCallback` is private in the code and has no `Valid()`
  contract: called on its own it may list a path nobody was told about. Its only caller,
  `HandleMediaRowData`, reports the path in the same step and so keeps the invariant.
  `SessionWalkThrough` is a client that runs one session end to end, and `SampleSession`
  runs it on two concrete paths.
- `wrappers.dfy` (module `Wrappers`) holds `Option`, which stands for Java's nullable
  references.

The platform services become inputs. The current time is a `now` parameter. The
media-index query result is an `Option<ScreenData>`. The display-size query result is the
`Option<Point>` given to the constructor. A listener is identified by a number.

Three behaviours of the code worth knowing:
- `startListen` may be called while already listening. It then re-creates both observers
  without dropping the old ones; the registration calls themselves are not modelled.
- Nothing ties a non-empty list to an active session. A row handled after `stopListen`
  is processed like any other, and the model follows the code here.
- `getRealScreenSize` never yields "absent": after a failed display query it yields 0 x 0
  (see Findings), which is `RealScreenSizeAsWritten(display)`. Here the model departs from
  the code: the class stores `RealScreenSize(display)`, the query result as given, so a
  `None` stands for the intended "absent" and leads the size test at lines 234-240 to be
  skipped.

## Model

| member | source | states |
|---|---|---|
| `Text.ToLower` | app/src/main/java/com/example/screenshotdemo/ScreenShotListenManager.java:249 | lower-casing keeps the length, folds each character on its own, and leaves no upper-case ASCII letter |
| `Text.ToLowerIdempotent` | app/src/main/java/com/example/screenshotdemo/ScreenShotListenManager.java:249 | lower-casing an already lower-cased path changes nothing |
| `Text.ContainsIff` | app/src/main/java/com/example/screenshotdemo/ScreenShotListenManager.java:252 | `contains` is true exactly when the keyword occurs at some index of the path |
| `Text.NotContainsWithoutFirstChar` | app/src/main/java/com/example/screenshotdemo/ScreenShotListenManager.java:252 | a keyword whose first character is absent from the path is not contained in it |
| `Classifier.CheckScreenShot` | app/src/main/java/com/example/screenshotdemo/ScreenShotListenManager.java:222-258 | the early-return checks and keyword loop answer exactly the three-criterion conjunction; false when taken before the start time, older than 10000 ms, not fitting the screen either way, or with an empty path; once time and size pass, true exactly when a keyword is found |
| `Classifier.RecencyBoundsInclusive` | app/src/main/java/com/example/screenshotdemo/ScreenShotListenManager.java:227 | a row taken exactly at the start time and exactly 10000 ms old passes the time test; 10001 ms old, or 1 ms before the start, fails |
| `Classifier.RotatedFitExample` | app/src/main/java/com/example/screenshotdemo/ScreenShotListenManager.java:234-240 | on a 1080 x 1920 screen a 1920 x 1080 image fits rotated and a 2000 x 1080 image fits neither way |
| `Classifier.HasKeywordIff` | app/src/main/java/com/example/screenshotdemo/ScreenShotListenManager.java:245-257 | the path test holds exactly when the path is non-empty and one of the twelve keywords occurs at some index of its lower-cased form |
| `Classifier.HasKeywordIgnoresCase` | app/src/main/java/com/example/screenshotdemo/ScreenShotListenManager.java:249-253 | a path and its lower-cased form pass or fail the path test together |
| `Classifier.NoLetterSRejected` | app/src/main/java/com/example/screenshotdemo/ScreenShotListenManager.java:51-55 | every keyword starts with "s", so a path without "s" or "S" never passes the path test |
| `Classifier.KeywordInAnyCase` | app/src/main/java/com/example/screenshotdemo/ScreenShotListenManager.java:249-254 | a keyword spelled in any mix of cases at some position of the path makes the path test pass |
| `Dedup.HitUnchanged` | app/src/main/java/com/example/screenshotdemo/ScreenShotListenManager.java:265-267 | checking a listed path leaves the list unchanged |
| `Dedup.MissAppends` | app/src/main/java/com/example/screenshotdemo/ScreenShotListenManager.java:274-275 | on a miss the path becomes the last entry, so checking it again is a hit that changes nothing |
| `Dedup.MissKeepsNewestInOrder` | app/src/main/java/com/example/screenshotdemo/ScreenShotListenManager.java:269-274 | a miss on a list of twenty or more keeps all but the five oldest entries, in order, then appends; on a shorter list it only appends; only those five oldest can disappear |
| `Dedup.FullCacheMissLeavesSixteen` | app/src/main/java/com/example/screenshotdemo/ScreenShotListenManager.java:269-274 | a miss on twenty entries leaves sixteen |
| `Dedup.SizeBounded` | app/src/main/java/com/example/screenshotdemo/ScreenShotListenManager.java:268-274 | a list of at most twenty entries stays at most twenty after any check |
| `Dedup.NoDuplicatesKept` | app/src/main/java/com/example/screenshotdemo/ScreenShotListenManager.java:264-276 | a list without repeated paths stays without repeats |
| `Dedup.RecentPathSuppressed` | app/src/main/java/com/example/screenshotdemo/ScreenShotListenManager.java:260-276 | a path that just missed is still listed after any fifteen further checks, so repeated notifications for it are suppressed |
| `ListenManager.ScreenShotListenManager.constructor` | app/src/main/java/com/example/screenshotdemo/ScreenShotListenManager.java:81-91 | a new manager has the queried screen size, an empty list, no listener, start time 0 and no observers |
| `ListenManager.ScreenShotListenManager.StartListen` | app/src/main/java/com/example/screenshotdemo/ScreenShotListenManager.java:96-116 | the list is emptied, the start time becomes `now`, both observers exist, and nothing else changes |
| `ListenManager.ScreenShotListenManager.StopListen` | app/src/main/java/com/example/screenshotdemo/ScreenShotListenManager.java:121-143 | both observers are dropped, the start time becomes 0 and the list is emptied, and nothing else changes |
| `ListenManager.ScreenShotListenManager.SetListener` | app/src/main/java/com/example/screenshotdemo/ScreenShotListenManager.java:297-299 | the listener is replaced and nothing else changes |
| `ListenManager.ScreenShotListenManager.CheckCallback` | app/src/main/java/com/example/screenshotdemo/ScreenShotListenManager.java:264-276 | answers whether the path was already listed, and the in-place removals and append leave exactly `AfterCheck` of the old list |
| `ListenManager.ScreenShotListenManager.HandleMediaRowData` | app/src/main/java/com/example/screenshotdemo/ScreenShotListenManager.java:211-217 | the listener is called with the path exactly when the row is a screenshot, a listener is set and the path is not listed; the list changes only when a screenshot meets a listener; a listed path is never reported again; the invariant is kept |
| `ListenManager.ScreenShotListenManager.OnQueryResult` | app/src/main/java/com/example/screenshotdemo/ScreenShotListenManager.java:339-362 | a failed query changes nothing; for a delivered row the new list and the new log of listener calls are exactly those of `HandleMediaRowData` |
| `ListenManager.SessionWalkThrough` | app/src/main/java/com/example/screenshotdemo/ScreenShotListenManager.java:211-217 | in one session a fresh screenshot row is reported once, its repeat is not, a keyword-less row is never reported, and a stop then start gives an empty list and the new start time |
| `ListenManager.SampleSession` | app/src/main/java/com/example/screenshotdemo/ScreenShotListenManager.java:211-217 | with "/dcim/Screenshot_2021.png" and "/dcim/IMG_001.jpg" the session logs exactly one listener call, for the screenshot path |
| `ListenManager.SampleShotHasKeyword` | app/src/main/java/com/example/screenshotdemo/ScreenShotListenManager.java:51-55 | "/dcim/Screenshot_2021.png" passes the path test |
| `ListenManager.SamplePhotoHasNoKeyword` | app/src/main/java/com/example/screenshotdemo/ScreenShotListenManager.java:245-257 | "/dcim/IMG_001.jpg" fails the path test |
| `ListenManager.RealScreenSizeAsWritten` | app/src/main/java/com/example/screenshotdemo/ScreenShotListenManager.java:281-292 | the size as written is always present: the queried size when the display query succeeded, and 0 x 0 when it failed |
| `ListenManager.RealScreenSize` | app/src/main/java/com/example/screenshotdemo/ScreenShotListenManager.java:281-292 | after a failed display query the corrected size lets every row pass the size test; otherwise it is the queried size |
| `ListenManager.FailedDisplayQueryRejectsScreenshot` | app/src/main/java/com/example/screenshotdemo/ScreenShotListenManager.java:234-240 | after a failed display query, the size as written rejects a fresh 1080 x 2280 screenshot, while the corrected absent size lets it through |

## Left out

- `handleMediaContentChange` (the cursor query with its two API-level forms, column lookup and cursor closing) is platform I/O. Its outcome is the `Option<ScreenData>` that `OnQueryResult` receives, with None also standing for an exception.
- `handleScreenData` and `MediaContentObserver`: the RxJava scheduling onto the io and main threads and the change callbacks are asynchrony, which is not modelled. Rows are handled one at a time, as the single main thread does.
- The observer registration and unregistration calls in `startListen`/`stopListen` are platform side effects. Only the field updates are modelled; the exception a failed unregistration raises is caught in the code and changes no field.
- The constructor's `IllegalArgumentException` on a null context is not modelled, because there is no context in the model.
- ListenManager.ScreenShotListenManager.constructor: stores `RealScreenSize(display)`, which is None after a failed display query, where the code stores `RealScreenSizeAsWritten(display)`, a 0 x 0 size (see Findings). The model thus follows the evidently intended behaviour here, not the code.
- `getRealScreenSize`'s WindowManager call is platform I/O. Its result is the constructor's `display` argument.
- Text.ToLower: models `String.toLowerCase` as ASCII folding only. The locale-sensitive conversion also differs on ASCII 'I' (a dotless 'ı' in a Turkish or Azeri locale) and can lengthen a string ('İ' becomes 'i' plus a combining dot), so the length clause holds only for the model. No keyword contains 'i', so these cases cannot change the keyword test. Other non-ASCII case mappings are not modelled.
- Classifier.CheckScreenShot: timestamps are mathematical integers, so Java `long` overflow in `now - dateTaken` is not modelled.
- The row path is a string, never null. A null path from the cursor would fail `TextUtils.isEmpty` exactly like an empty one.
- The listener is a number standing for its identity. What `onShot` does (a toast and a log line in the demo activity) is outside the core, and so is the rest of `MainActivity2.java`.

## Findings

| source | as written | input that shows it | evidently intended | confidence | as-written member | corrected member |
|---|---|---|---|---|---|---|
| app/src/main/java/com/example/screenshotdemo/ScreenShotListenManager.java:281-292 | `getRealScreenSize` creates the `Point` before the display query and returns it even when the query throws, so the size is never null; after a failure it is 0 x 0 | the display query throws; then the fresh row ("/dcim/Screenshot_2021.png", 1080 x 2280) fails the size test at lines 234-240 | return null on failure, so that the null test at line 234 skips the size test | not executed; medium | `ListenManager.RealScreenSizeAsWritten`, `ListenManager.FailedDisplayQueryRejectsScreenshot` | `ListenManager.RealScreenSize` |
