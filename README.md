# Countdown engine and slideshow sequencer, modelled in Dafny

This project models two pieces of stateful logic from the gesture image viewer
repository and proves properties about them.

- **The multi-stage countdown** of `windsurf-project/script.js` (module
  `Countdown`). The class `CountdownTimer` has the script's fields: the running
  flag, the 1-based current stage, the remaining milliseconds, the clock anchor,
  the parallel duration and name lists, and the stage count. It also keeps the
  one piece of display state that the logic decides, the warning highlight.
  - Each method is one of the script's operations: add, remove, rename, start,
    pause, reset, tick and stage completion.
  - `Date.now()` becomes a `now` parameter. One tick of the 10 ms interval is a
    call of `UpdateTimer`. The minute and second fields that `start` reads
    become the `inputs` parameter.
  - The pure parts are functions: input clamping, the h:m:s/ms decomposition,
    and zero padding.
- **The slideshow** of `image-viewer.js`.
  - Module `Scanner`: the recursive image scan over a directory-tree datatype,
    `path.extname`, the image-extension test and the count-cache key.
  - Module `Slideshow`: the Fisher-Yates shuffle, and a class `Viewer` holding
    the main process's module-level state. Its methods are the automatic and
    manual "next" steps, "previous", the `get-image-count` and `start-viewer`
    handlers, and the window's `closed` handler. `Math.random()` becomes an
    index oracle `pick` with `pick(i) <= i`.
- **JavaScript built-ins** that both files rely on are in module `JsText`:
  `parseInt`, `Number#toString`, `padStart`, `trim`, `toLowerCase`,
  `Array#sort` on strings, `join`, and `Set` insertion.

The main results:
- a zero-length stage ends the countdown chain, and pausing and resuming keeps
  the remaining time;
- the scan returns exactly the admitted image files, in directory order;
- the shuffle is a permutation;
- the cache key does not depend on the order of the chosen subdirectories;
- a count-limited session shows exactly `count` images, all taken from the scan.

## Model

| member | source | states |
|---|---|---|
| JsText.ParseIntToString | windsurf-project/script.js:234-240 | writing an integer into a field and parsing it back with parseInt gives the same integer |
| JsText.ParseInt | windsurf-project/script.js:232-234 | parseInt on decimal text: skip white space, an optional sign, then the longest run of digits; no digit is NaN. Its partner is ParseIntToString |
| JsText.NatToString | windsurf-project/script.js:475 | `number.toString()` gives at least one digit and no leading zero |
| JsText.IntToString | windsurf-project/script.js:240 | an integer written back into a field as text: a minus sign before the digits of a negative value; ParseIntToString reads it back as the same integer |
| JsText.Max | windsurf-project/script.js:375 | `Math.max` of two integers; RemainingAt's ensures state what the clamp at 0 gives |
| JsText.ParseNatToString | windsurf-project/script.js:475 | the digits of a number read back as that number |
| JsText.SortStrings | image-viewer.js:132 | the sort returns its input sorted and permuted; SortedUnique makes that result unique |
| JsText.JoinWith | image-viewer.js:133 | `join(";")`; it is only observed through CacheKey, whose key is order-free by CacheKeyOrderFree |
| JsText.Trim | windsurf-project/script.js:120 | the trimmed name is a slice of the typed text; everything cut away in front of it and behind it is white space, and its own first and last characters are not |
| JsText.ToLowerAsciiIdempotent | image-viewer.js:110 | lower-casing twice is the same as lower-casing once |
| JsText.ToLowerAscii | image-viewer.js:110 | `toLowerCase()` keeps the length and lower-cases each character in place (ASCII letters; see "Left out"); ToLowerAsciiIdempotent and IsImageNameIgnoresCase build on it |
| JsText.SortedUnique | image-viewer.js:132 | two sorted lists with the same elements are equal, so the sort's result depends only on the elements |
| JsText.SortedSetElements | image-viewer.js:132-133 | two duplicate-free lists with the same elements sort to the same list |
| JsText.SetOf | image-viewer.js:241 | `new Set(xs)` holds exactly the elements of `xs`, each once |
| JsText.SetAdd | image-viewer.js:242 | `set.add(x)` keeps the set duplicate-free and adds exactly `x` |
| JsText.PadStart | windsurf-project/script.js:475 | the result has length max(len, \|s\|), ends with `s` and is filled with the pad character in front |
| Countdown.ValidateInput | windsurf-project/script.js:231-241 | an unparsable value becomes min; a value above max becomes max and one below min becomes min; an in-range value is kept; with min <= max the result lies in [min, max] |
| Countdown.ValidateInputIdempotent | windsurf-project/script.js:231-241 | validating a value that was already validated changes nothing |
| Countdown.Snapshot | windsurf-project/script.js:263-266 | start collects exactly one duration per stage, the n-th being getTimerDuration(n) |
| Countdown.TimerDuration | windsurf-project/script.js:245-246 | minutes*60000 + seconds*1000; EnteredTimeDisplayed shows the display gives those minutes and seconds back |
| Countdown.GetTimerDuration | windsurf-project/script.js:243-256 | the n-th stage's fields converted by TimerDuration, 0 when the page has no such stage; Snapshot collects one per stage |
| Countdown.StageDuration | windsurf-project/script.js:369-371 | the current stage's duration, or 0 when there is no such stage; HandleTimerComplete's ensures ties it to the stage started |
| Countdown.RemainingAt | windsurf-project/script.js:374-375 | the remaining time is 0 exactly when the elapsed time reaches the stage duration, otherwise the duration less the elapsed time, and never more than the duration once the clock has passed the anchor |
| Countdown.NextStage | windsurf-project/script.js:438 | the next stage exists exactly when it is on the list and has positive duration; its consequences are ZeroStageEndsChain and PositiveStagesAllRun |
| Countdown.StagesRun | windsurf-project/script.js:428-454 | the stages a run passes through, one per completion; characterised by ZeroStageEndsChain and PositiveStagesAllRun |
| Countdown.NameOrDefault | windsurf-project/script.js:120 | a saved name is the trimmed text, or "Timer N" when the trimmed text is empty; it is never empty and never starts or ends with white space |
| Countdown.DefaultTimerName | windsurf-project/script.js:149 | the name "Timer N" that addTimer gives and editTimerName falls back to (line 120); AddTimer's and NameOrDefault's ensures use it |
| Countdown.ZeroStageEndsChain | windsurf-project/script.js:438-454 | once a stage of zero duration lies ahead, no stage at or after it is ever reached |
| Countdown.PositiveStagesAllRun | windsurf-project/script.js:438-445 | when every stage up to `last` has positive duration, the run passes through all of them |
| Countdown.Decompose | windsurf-project/script.js:391-397 | hours*3600000 + minutes*60000 + seconds*1000 + ms equals the remaining time, with minutes and seconds below 60 and ms below 1000 |
| Countdown.EnteredTimeDisplayed | windsurf-project/script.js:391-396 | a stage entered as m minutes and s < 60 seconds is displayed as m/60 hours, m%60 minutes, s seconds and 0 ms |
| Countdown.RoundToTen | windsurf-project/script.js:404 | `Math.round(x / 10) * 10` on a whole number: a multiple of 10 within 5 of x, halves rounding up |
| Countdown.DisplayedMillis | windsurf-project/script.js:397-405 | the displayed ms is a multiple of 10 in [0, 1000], is 0 when no time is left, and lies within 5 of the remainder |
| Countdown.Pad | windsurf-project/script.js:474-476 | pad left-fills with '0' to at least `digits` characters, never truncates, and reads back as the same number |
| Countdown.PadWidth | windsurf-project/script.js:474-476 | a value below 10^k takes exactly k characters |
| Countdown.FormatTime | windsurf-project/script.js:466-468 | the text is three digit fields separated by ':', which read back as the hours, minutes and seconds; minutes and seconds take two digits each |
| Countdown.FormatMilliseconds | windsurf-project/script.js:470-472 | the text is '.' followed by digits that read back as the value; it has four characters exactly when the value is below 1000 |
| Countdown.Display | windsurf-project/script.js:390-405 | the two texts updateDisplay writes; MillisFieldOverflow states when the millisecond text is five characters long |
| Countdown.MillisFieldOverflow | windsurf-project/script.js:397-408 | the ms field shows 1000 and has five characters exactly when time is left and the remainder is at least 995 |
| Countdown.CorrectedClock | windsurf-project/script.js:390-405 | rounding the whole remaining time to 10 ms first gives fields in range, whose total is within 5 ms of the remaining time and is 0 at 0 |
| Countdown.CorrectedDisplay | windsurf-project/script.js:397-408 | with the corrected clock the ms field always has exactly three digits |
| Countdown.Splice | windsurf-project/script.js:196-197 | splice(i, 1) removes exactly the element at i and keeps the order of the others |
| Countdown.CountdownTimer.constructor | windsurf-project/script.js:2-9 | one stage named "Timer 1" with duration 0, stage 1, no time, not running |
| Countdown.CountdownTimer.InitialDuration | windsurf-project/script.js:369-371 | getInitialDuration, the current stage's duration by StageDuration; Start and UpdateTimer state the clock in terms of it |
| Countdown.CountdownTimer.AddTimer | windsurf-project/script.js:146-173 | the count goes up to N, and the name "Timer N" and duration 0 are appended; nothing else changes |
| Countdown.CountdownTimer.RemoveTimer | windsurf-project/script.js:187-198 | nothing changes with a single stage; otherwise stage n leaves both lists and the count drops by one; at least one stage always remains |
| Countdown.CountdownTimer.EditTimerName | windsurf-project/script.js:119-121 | exactly the edited stage's name is replaced, by the trimmed text or the default name |
| Countdown.CountdownTimer.Start | windsurf-project/script.js:259-289 | from a fresh state it snapshots one duration per stage and goes to stage 1 with the first duration; it runs exactly when time is left, with the clock anchored so that every later tick continues from the remaining time; when already running it does nothing |
| Countdown.CountdownTimer.Pause | windsurf-project/script.js:291-299 | pause only clears the running flag |
| Countdown.CountdownTimer.Reset | windsurf-project/script.js:301-326 | back to stage 1, no time, not running, no warning; the stage lists are kept |
| Countdown.CountdownTimer.HandleTimerComplete | windsurf-project/script.js:428-464 | the next stage starts, with its full duration and the clock anchored at `now`, exactly when it exists and has a positive duration; otherwise the run stops |
| Countdown.CountdownTimer.UpdateTimer | windsurf-project/script.js:373-388 | remaining = max(0, initial - elapsed); at 0 the stage completes, the next stage anchored at handleTimerComplete's own clock reading; otherwise the warning comes on at 5000 ms or less; the remaining time never exceeds the stage duration once the clock has passed the anchor |
| Countdown.ZeroStageScenario | windsurf-project/script.js:438-454 | with stages of 2 s, 0 s and 3 s the run ends at stage 1 when the first stage completes |
| Countdown.PauseResumeScenario | windsurf-project/script.js:279 | pausing and resuming at any later time keeps the remaining time |
| Scanner.LastDot | image-viewer.js:110 | the index found holds the last '.', or there is no '.' at all |
| Scanner.ExtName | image-viewer.js:110 | the extension is empty exactly when no '.' follows the first character; otherwise it is a proper suffix that starts with '.' and has no other '.' |
| Scanner.JoinPath | image-viewer.js:103 | `path.join(directory, entry.name)` as joining with one '/' (normalisation is under "Left out"); SubdirectoryExample uses it to show that a subdirectory's path is never the root itself |
| Scanner.ExtNameLower | image-viewer.js:110 | the extension of the lower-cased name is the lower-cased extension |
| Scanner.IsImageNameIgnoresCase | image-viewer.js:110-111 | whether a file is an image does not depend on the case of its name |
| Scanner.UpperCaseExtension | image-viewer.js:110-111 | "c.PNG" counts as an image |
| Scanner.IsImageName | image-viewer.js:110-111 | the lower-cased extension is one of the seven IMAGE_EXTENSIONS of line 18 (`Scanner.ImageExtensions`); IsImageNameIgnoresCase states it ignores case |
| Scanner.FindImageFiles | image-viewer.js:97-119 | findImageFiles over the tree; equal to Selected(TreeFiles(..)) by FindImageFilesSelects, with membership by SelectedMembers |
| Scanner.ScanEntries | image-viewer.js:102-113 | the loop over a directory's entries; equal to the selected files of those entries by ScanEntriesSelects |
| Scanner.ScanEntry | image-viewer.js:103-112 | one entry: a subdirectory entered when admitted, a file kept when it is an image, anything else skipped; equal to its selected files by ScanEntrySelects |
| Scanner.SelectedConcat | image-viewer.js:102-113 | the files kept from two consecutive runs of entries are those kept from each, in order |
| Scanner.SelectedBelow | image-viewer.js:104-108 | a subdirectory's files are kept exactly when the subdirectory is admitted |
| Scanner.FindImageFilesSelects | image-viewer.js:97-119 | findImageFiles returns exactly the tree's files that have an image extension and whose every directory below the root is admitted, in readdir order; an unreadable directory gives none |
| Scanner.ScanEntriesSelects | image-viewer.js:102-113 | the same for a run of entries |
| Scanner.ScanEntrySelects | image-viewer.js:103-112 | the same for a single entry |
| Scanner.SelectedMembers | image-viewer.js:97-119 | a path is found exactly when it belongs to an admitted image file of the tree |
| Scanner.HandlerScanMembers | image-viewer.js:240-249 | the handlers' scan finds exactly the image files reached through the directory itself and the chosen subdirectories |
| Scanner.SubdirectoryExample | image-viewer.js:104-108 | without an allow-set, an image one level down is found; with only the root in the set, it is not |
| Scanner.CacheKey | image-viewer.js:130-134 | the key starts with the directory, and is the directory alone exactly when the set is absent or empty |
| Scanner.AllowedSet | image-viewer.js:241-242 | the allow-set holds exactly the directory and the chosen subdirectories, each once |
| Scanner.CacheKeyOrderFree | image-viewer.js:130-134 | two sets with the same elements give the same key, whatever order they were filled in |
| Scanner.HandlerKeyOrderFree | image-viewer.js:240-244 | the handlers' key depends only on which subdirectories were chosen, not on their order or on repeats |
| Slideshow.ShuffledPermutes | image-viewer.js:121-128 | whatever the random draws, the shuffle is a permutation of its input |
| Slideshow.Shuffled | image-viewer.js:123-126 | the Fisher-Yates passes from the last position down to 1; ShuffledPermutes proves them a permutation, and ShuffleArray's loop computes them |
| Slideshow.ShuffleArray | image-viewer.js:121-128 | the swap loop over the copy computes the Fisher-Yates passes, so it returns a permutation of the input of the same length; the input is a value and is left as it was |
| Slideshow.Advance | image-viewer.js:170-177 | the step keeps the list's elements and leaves the cursor in [1, n]; before the end it keeps the list and shows the image at the cursor; at the end it reshuffles and shows the first image |
| Slideshow.PreviousIndex | image-viewer.js:204 | the new cursor lies in [0, n): one back for a cursor in [1, n], and n-1 for cursor 0 |
| Slideshow.PreviousRedisplaysCurrent | image-viewer.js:200-205 | right after a forward step, "previous" shows the image that is already on the screen |
| Slideshow.BackIndex | image-viewer.js:204 | the index of the image before the one on the screen: cursor - 2, wrapping to n - 1 |
| Slideshow.BackShowsEarlierImage | image-viewer.js:200-205 | going back with the corrected index, then forward again, shows the image that was on the screen before |
| Slideshow.DisplayDurationMs | image-viewer.js:281-283 | 1000 ms per unit for "seconds", 60000 for "minutes", and 3600000 for every other unit |
| Slideshow.SessionLengthMs | image-viewer.js:290-292 | 3600000 ms per unit for "hours", 60000 for every other unit |
| Slideshow.HandlerScan | image-viewer.js:241-249 | the scan both handlers run, with the directory added to the chosen subdirectories; HandlerScanMembers characterises what it finds |
| Slideshow.HandlerKey | image-viewer.js:241-244 | the cache key both handlers use; HandlerKeyOrderFree makes it independent of the order of the chosen subdirectories |
| Slideshow.Viewer.constructor | image-viewer.js:9-20 | no images, cursor 0, 60000 ms per image, no session limit, an empty cache |
| Slideshow.Viewer.SessionOver | image-viewer.js:158-168 | the session limit: the count reached in count mode, the end time reached in time mode, never otherwise; DisplayNextImage ends the session exactly when it holds |
| Slideshow.Viewer.DisplayNextImage | image-viewer.js:154-178 | nothing happens on an empty list; the session ends, with cursor and count unchanged, once the count or the time is up; otherwise it takes the `Advance` step, shows that image and counts it; in count mode the count never exceeds the limit |
| Slideshow.Viewer.ShowManualNextImage | image-viewer.js:186-195 | the same step as the automatic one, with no session check; the count is untouched |
| Slideshow.Viewer.ShowPreviousImage | image-viewer.js:200-205 | with a window and images, the cursor moves to PreviousIndex and that image is shown; the list and count are untouched |
| Slideshow.Viewer.CloseViewer | image-viewer.js:79-82 | closing the window marks it gone (`viewerOpen` false); the list, cursor and count stay |
| Slideshow.Viewer.GetImageCount | image-viewer.js:240-252 | a cached count is returned without scanning and the cache is unchanged; on a miss the scan's count is stored under the key and returned |
| Slideshow.Viewer.StartViewer | image-viewer.js:269-327 | it sets the duration, the session, a zero count and the session clock; it overwrites the cache entry with the fresh count; it fails exactly when the scan is empty; otherwise it shuffles the found images and opens the viewer |
| Slideshow.Viewer.ApplySettings | image-viewer.js:281-294 | the duration is converted per unit, the count restarts, and a time-limited session ends start + length later |
| Slideshow.Viewer.LoadImages | image-viewer.js:297-319 | the cache entry is refreshed; an empty scan fails with no images; otherwise the viewer opens on a shuffle of the found images |
| Slideshow.CountSession | image-viewer.js:154-178 | a count-mode session, ticked until it ends, shows exactly `count` images, all of them found by the scan |
| Slideshow.TimeSession | image-viewer.js:164-168 | a time-limited session set up by start-viewer at `start` ends at the first step at `now` exactly when now >= start + the session length, and otherwise shows a scanned image |

## Left out

- DOM work: element lookups, classes other than the warning highlight, text
  content, the renumbering of the timer sections, the name editor's input
  element, disabling inputs, the active-section highlight and key bindings.
  These are presentation only.
- Timers and the event loop:
  - `setInterval`/`setTimeout` scheduling;
  - notifications, sounds and visual effects;
  - `startAutoAdvanceTimer`;
  - `endSession`'s message and delayed close. The model only reports `Ended`.

  A tick is an explicit method call.
- The hourglass and back-display percentages, and the `resize-setup` clamp.
  These are floating-point presentation.
- Electron windows, IPC transport, dialogs, `pathToFileURL`,
  `path.basename`, the settings file and the `select-directory` and
  `list-subdirectories` handlers. These are foreign I/O.
  - `Viewer.viewerOpen` stands for "viewerWindow is set".
- `Date.now()` and `Math.random()` are parameters: `now` and the oracle `pick`.
  - Slideshow.ShuffleArray: the uniformity of the shuffle is not modelled, because the oracle is a fixed function. The same oracle gives the same permutation.
- The error retry in `displayNextImage` (image-viewer.js:180-183) depends on
  the window's `send` throwing. It is not modelled.
- `endSession` sending to a window that is already gone is not modelled.
- `parseInt` is modelled for decimal text: leading white space, an optional
  sign, then the longest run of digits. Hexadecimal prefixes and values
  beyond 2^53 are not modelled. Number fields hold only what the browser
  accepts for them.
- Countdown.StageInput: the minute and second fields are taken as natural numbers. `validateInput` pulls every edit back to the field's minimum of 0, so NaN and negative values never reach `start`.
- Scanner.JoinPath: `path.join` is joining with a single '/'. The normalisation of `..`, repeated separators and trailing separators is not modelled.
- JsText.ToLowerAscii: `toLowerCase` is modelled on ASCII letters only. Unicode case mapping is not.
- JsText.LexLe: `Array#sort` compares UTF-16 code units; the model compares characters. The two orders agree outside the astral planes.
- Slideshow.Session: a session mode other than "count" and "time" behaves as unlimited, as in the source. The model has only the three cases. A count-mode session whose count is missing is not modelled.
- `start-viewer` does not reset `currentImageIndex`. The model keeps this: the
  next step simply reshuffles when the old cursor is past the new list.
- Slideshow.DisplayDurationMs: `duration` is a JavaScript number and may be fractional (1.5 seconds is 1500 ms); the model takes whole numbers only.
- Slideshow.Session: `session.count` and `session.length` are JavaScript numbers and may be fractional; the model takes whole numbers only.
- Slideshow.SessionOver: a time-limited session with no `length` gets a NaN end time in the source and so never ends; the model always has a length.
- Scanner.FindImageFiles: the `try` in findImageFiles covers the whole loop, so an exception while collecting a subdirectory's files (a spread past the engine's argument limit for a very large subtree) drops every file of the directory; `Unreadable` models only a failed readdir.
- A stage with zero duration ends the whole chain, as the code decides. Later
  stages with time set are never reached.
- `remainingTime <= stage duration` is not an invariant of `CountdownTimer`.
  `removeTimer` can shift the stage list under a paused countdown. The bound
  is stated where it holds: after `Start`, and after an `UpdateTimer` whose
  clock has passed the anchor.

## Findings

| source | as written | input that shows it | evidently intended | confidence | as-written member | corrected member |
|---|---|---|---|---|---|---|
| windsurf-project/script.js:397-408 | the remainder below one second is rounded to 10 ms on its own, after the seconds are split off | 1999 ms remaining: the seconds field shows 01 and the ms field ".1000" | rounding carries into the seconds: 00:00:02.000 | not executed | Countdown.MillisFieldOverflow | Countdown.CorrectedDisplay |
| image-viewer.js:200-205 | "previous" moves the cursor back by one, but the cursor already points one past the image on screen | files [x, y] with x then y shown: the left arrow shows y again | the left arrow shows x | not executed | Slideshow.PreviousRedisplaysCurrent | Slideshow.BackShowsEarlierImage |
