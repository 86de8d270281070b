/**
 * The slideshow sequencer of image-viewer.js: the shuffle, the cursor over
 * the shuffled list, the session limits, and the setup and count handlers.
 *
 * The module-level state of the main process is the class Viewer. Date.now()
 * is the `now` parameter; Math.random() is the index oracle `pick`, which for
 * each position i gives the position in [0, i] to swap it with; the file
 * system is the directory tree of module Scanner.
 */
module Slideshow {
  import opened JsText
  import opened Scanner

  // ---------------------------------------------------------------------
  // shuffleArray
  // ---------------------------------------------------------------------

  /** Math.floor(Math.random() * (i + 1)) as a function of i: always in [0, i]. */
  ghost predicate IsIndexSource(pick: nat -> nat)
  {
    forall i: nat :: pick(i) <= i
  }

  /** Swapping the elements at positions i and j. */
  function Swap<T>(s: seq<T>, i: nat, j: nat): (r: seq<T>)
    requires i < |s| && j < |s|
    ensures |r| == |s|
  {
    s[i := s[j]][j := s[i]]
  }

  lemma SwapPermutes<T>(s: seq<T>, i: nat, j: nat)
    requires i < |s| && j < |s|
    ensures multiset(Swap(s, i, j)) == multiset(s)
  {
  }

  /** The Fisher-Yates passes for positions i down to 1, position k swapped with pick(k). */
  function Shuffled<T>(s: seq<T>, pick: nat -> nat, i: int): (r: seq<T>)
    requires IsIndexSource(pick) && i < |s|
    ensures |r| == |s|
    decreases i
  {
    if i <= 0 then s else Shuffled(Swap(s, i, pick(i)), pick, i - 1)
  }

  /** Whatever the random draws, the shuffle is a permutation of its input. */
  lemma {:induction false} ShuffledPermutes<T>(s: seq<T>, pick: nat -> nat, i: int)
    requires IsIndexSource(pick) && i < |s|
    ensures multiset(Shuffled(s, pick, i)) == multiset(s)
    decreases i
  {
    if i > 0 {
      var swapped := Swap(s, i, pick(i));
      SwapPermutes(s, i, pick(i));
      ShuffledPermutes(swapped, pick, i - 1);
      assert Shuffled(s, pick, i) == Shuffled(swapped, pick, i - 1);
    }
  }

  /** shuffleArray: Fisher-Yates on a copy; the caller's list is a value and stays as it was. */
  method ShuffleArray<T>(input: seq<T>, pick: nat -> nat) returns (shuffled: seq<T>)
    requires IsIndexSource(pick)
    ensures shuffled == Shuffled(input, pick, |input| - 1)
    ensures |shuffled| == |input| && multiset(shuffled) == multiset(input)
  {
    var a := new T[|input|](k requires 0 <= k < |input| => input[k]);
    assert a[..] == input;
    var i := a.Length - 1;
    while i > 0
      invariant -1 <= i < a.Length
      invariant Shuffled(a[..], pick, i) == Shuffled(input, pick, |input| - 1)
      decreases i
    {
      var j := pick(i);
      a[i], a[j] := a[j], a[i];
      i := i - 1;
    }
    shuffled := a[..];
    ShuffledPermutes(input, pick, |input| - 1);
  }

  // ---------------------------------------------------------------------
  // The cursor
  // ---------------------------------------------------------------------

  /**
   * The step both "next" operations take: move on, or, once the list is used
   * up, reshuffle it and start over. The image shown is the one before the
   * new cursor.
   */
  function Advance(files: seq<string>, cursor: nat, pick: nat -> nat): (next: (seq<string>, nat))
    requires IsIndexSource(pick) && files != []
    ensures multiset(next.0) == multiset(files)
    ensures 1 <= next.1 <= |next.0| == |files|
    ensures cursor < |files| ==> next.0 == files && next.0[next.1 - 1] == files[cursor]
    ensures cursor >= |files| ==> next.1 == 1
  {
    if cursor >= |files| then
      ShuffledPermutes(files, pick, |files| - 1);
      (Shuffled(files, pick, |files| - 1), 1)
    else
      (files, cursor + 1)
  }

  /** showPreviousImage's new cursor: one back, wrapping from the front to the last image. */
  function PreviousIndex(cursor: nat, n: nat): (r: nat)
    requires n > 0
    ensures r < n
    ensures 1 <= cursor <= n ==> r == cursor - 1
    ensures cursor == 0 ==> r == n - 1
  {
    (cursor - 1 + n) % n
  }

  /**
   * As written, "previous" right after a forward step shows the image that is
   * already on the screen: the forward step left the cursor one past it.
   */
  lemma PreviousRedisplaysCurrent(files: seq<string>, cursor: nat, pick: nat -> nat)
    requires IsIndexSource(pick) && files != []
    ensures var (files', cursor') := Advance(files, cursor, pick);
      files'[PreviousIndex(cursor', |files'|)] == files'[cursor' - 1]
  {
  }

  /** The index of the image before the one on the screen, which is at cursor - 1: two steps back. */
  function BackIndex(cursor: nat, n: nat): (r: nat)
    requires n > 0
    ensures r < n
    ensures 2 <= cursor <= n ==> r == cursor - 2
    ensures cursor == 1 ==> r == n - 1
  {
    PreviousIndex(PreviousIndex(cursor, n), n)
  }

  /**
   * Going back with BackIndex and leaving the cursor just past it shows the
   * image before the one that was on screen, and the next forward step then
   * shows that one again.
   */
  lemma BackShowsEarlierImage(files: seq<string>, cursor: nat, pick: nat -> nat)
    requires IsIndexSource(pick) && 2 <= |files| && 2 <= cursor <= |files|
    ensures var back := BackIndex(cursor, |files|);
      && back == cursor - 2
      && var (files', cursor') := Advance(files, back + 1, pick);
         files'[cursor' - 1] == files[cursor - 1]
  {
  }

  // ---------------------------------------------------------------------
  // Sessions and units
  // ---------------------------------------------------------------------

  /** sessionSettings: no limit, a number of images, or a length of time in a unit. */
  datatype Session = Infinite | Count(count: int) | Time(length: int, unit: string)

  /** What one call of displayNextImage does: nothing, end the session, or show an image. */
  datatype Step = Idle | Ended | Shown(path: string)

  /** displayDuration in start-viewer: seconds, minutes, and any other unit read as hours. */
  function DisplayDurationMs(duration: int, unit: string): (ms: int)
    ensures unit == "seconds" ==> ms == 1000 * duration
    ensures unit == "minutes" ==> ms == 60000 * duration
    ensures unit != "seconds" && unit != "minutes" ==> ms == 3600000 * duration
  {
    if unit == "seconds" then duration * 1000
    else if unit == "minutes" then duration * 60 * 1000
    else duration * 60 * 60 * 1000
  }

  /** The length of a time-limited session: hours, or minutes for any other unit. */
  function SessionLengthMs(length: int, unit: string): (ms: int)
    ensures unit == "hours" ==> ms == 3600000 * length
    ensures unit != "hours" ==> ms == 60000 * length
  {
    if unit == "hours" then length * 60 * 60 * 1000 else length * 60 * 1000
  }

  /** What both IPC handlers scan: the directory, restricted to it and the chosen subdirectories. */
  function HandlerScan(directory: string, includeSubdirs: seq<string>, listing: Listing): seq<string>
  {
    FindImageFiles(directory, listing, Some(AllowedSet(directory, includeSubdirs)))
  }

  /** The cache key both IPC handlers use. */
  function HandlerKey(directory: string, includeSubdirs: seq<string>): string
  {
    CacheKey(directory, Some(AllowedSet(directory, includeSubdirs)))
  }

  // ---------------------------------------------------------------------
  // The main-process state
  // ---------------------------------------------------------------------

  class Viewer {
    var imageFiles: seq<string>
    var currentImageIndex: nat
    var displayDuration: int
    var sessionSettings: Session
    var imagesShown: nat
    var sessionStartTime: int
    var sessionEndTime: int
    var imageCountCache: map<string, nat>
    /** Whether viewerWindow is set. */
    var viewerOpen: bool

    /** In count mode the session never shows more images than it allows. */
    predicate Valid()
      reads this`sessionSettings, this`imagesShown
    {
      sessionSettings.Count? ==> imagesShown <= Max(0, sessionSettings.count)
    }

    /** The session limit displayNextImage checks before showing anything. */
    predicate SessionOver(now: int)
      reads this`sessionSettings, this`imagesShown, this`sessionEndTime
    {
      match sessionSettings
      case Infinite => false
      case Count(count) => imagesShown >= count
      case Time(_, _) => now >= sessionEndTime
    }

    /** The module's initial values: no images, one minute per image, no limit, an empty cache, no viewer. */
    constructor ()
      ensures imageFiles == [] && currentImageIndex == 0 && displayDuration == 60000
      ensures sessionSettings == Infinite && imagesShown == 0
      ensures imageCountCache == map[] && !viewerOpen
      ensures Valid()
    {
      imageFiles := [];
      currentImageIndex := 0;
      displayDuration := 60000;
      sessionSettings := Infinite;
      imagesShown := 0;
      sessionStartTime := 0;
      sessionEndTime := 0;
      imageCountCache := map[];
      viewerOpen := false;
    }

    /**
     * displayNextImage at time `now`: nothing on an empty list; the end of
     * the session once its limit is reached; otherwise the next image, with
     * a reshuffle when the list is used up, counted in imagesShown.
     */
    method DisplayNextImage(now: int, pick: nat -> nat) returns (step: Step)
      requires Valid() && IsIndexSource(pick)
      modifies this`imageFiles, this`currentImageIndex, this`imagesShown
      ensures Valid()
      ensures old(imageFiles) == [] || old(SessionOver(now)) ==>
        && step == (if old(imageFiles) == [] then Idle else Ended)
        && imageFiles == old(imageFiles) && currentImageIndex == old(currentImageIndex)
        && imagesShown == old(imagesShown)
      ensures old(imageFiles) != [] && !old(SessionOver(now)) ==>
        && (imageFiles, currentImageIndex) == Advance(old(imageFiles), old(currentImageIndex), pick)
        && step == Shown(imageFiles[currentImageIndex - 1])
        && imagesShown == old(imagesShown) + 1
    {
      if |imageFiles| == 0 {
        step := Idle;
      } else if sessionSettings.Count? && imagesShown >= sessionSettings.count {
        step := Ended;
      } else if sessionSettings.Time? && now >= sessionEndTime {
        step := Ended;
      } else {
        if currentImageIndex >= |imageFiles| {
          imageFiles := ShuffleArray(imageFiles, pick);
          currentImageIndex := 0;
        }
        step := Shown(imageFiles[currentImageIndex]);
        currentImageIndex := currentImageIndex + 1;
        imagesShown := imagesShown + 1;
      }
    }

    /** showManualNextImage (the right arrow): the same step, with no session check and no count. */
    method ShowManualNextImage(pick: nat -> nat) returns (shown: Option<string>)
      requires IsIndexSource(pick)
      modifies this`imageFiles, this`currentImageIndex
      ensures !viewerOpen || old(imageFiles) == [] ==>
        shown == None && imageFiles == old(imageFiles) && currentImageIndex == old(currentImageIndex)
      ensures viewerOpen && old(imageFiles) != [] ==>
        && (imageFiles, currentImageIndex) == Advance(old(imageFiles), old(currentImageIndex), pick)
        && shown == Some(imageFiles[currentImageIndex - 1])
    {
      if !viewerOpen || |imageFiles| == 0 {
        return None;
      }
      if currentImageIndex >= |imageFiles| {
        imageFiles := ShuffleArray(imageFiles, pick);
        currentImageIndex := 0;
      }
      shown := Some(imageFiles[currentImageIndex]);
      currentImageIndex := currentImageIndex + 1;
    }

    /** showPreviousImage (the left arrow): the cursor moves back one, wrapping, and that image is shown. */
    method ShowPreviousImage() returns (shown: Option<string>)
      modifies this`currentImageIndex
      ensures !viewerOpen || imageFiles == [] ==> shown == None && currentImageIndex == old(currentImageIndex)
      ensures viewerOpen && imageFiles != [] ==>
        && currentImageIndex == PreviousIndex(old(currentImageIndex), |imageFiles|)
        && shown == Some(imageFiles[currentImageIndex])
    {
      if !viewerOpen || |imageFiles| == 0 {
        return None;
      }
      currentImageIndex := (currentImageIndex - 1 + |imageFiles|) % |imageFiles|;
      shown := Some(imageFiles[currentImageIndex]);
    }

    /** The viewer window's 'closed' handler. */
    method CloseViewer()
      modifies this`viewerOpen
      ensures !viewerOpen
    {
      viewerOpen := false;
    }

    /**
     * The get-image-count handler: the key of the chosen subdirectories plus
     * the directory itself; a cached count is returned without scanning,
     * otherwise the scan's count is stored and returned.
     */
    method GetImageCount(directory: string, includeSubdirs: seq<string>, listing: Listing) returns (count: nat)
      modifies this`imageCountCache
      ensures HandlerKey(directory, includeSubdirs) in old(imageCountCache) ==>
        count == old(imageCountCache)[HandlerKey(directory, includeSubdirs)]
        && imageCountCache == old(imageCountCache)
      ensures HandlerKey(directory, includeSubdirs) !in old(imageCountCache) ==>
        count == |HandlerScan(directory, includeSubdirs, listing)|
        && imageCountCache == old(imageCountCache)[HandlerKey(directory, includeSubdirs) := count]
    {
      var key := HandlerKey(directory, includeSubdirs);
      if key in imageCountCache {
        return imageCountCache[key];
      }
      var files := HandlerScan(directory, includeSubdirs, listing);
      imageCountCache := imageCountCache[key := |files|];
      count := |files|;
    }

    /**
     * The start-viewer handler at time `now`: the image duration and the
     * session are set and the count restarts; the scan refreshes the cache;
     * an empty scan fails, otherwise the list is shuffled and the viewer
     * opens. The cursor is left where it was.
     */
    method StartViewer(now: int, directory: string, duration: int, unit: string, session: Session,
                       includeSubdirs: seq<string>, listing: Listing, pick: nat -> nat)
      returns (success: bool)
      requires IsIndexSource(pick)
      modifies this`displayDuration, this`sessionSettings, this`imagesShown, this`sessionStartTime,
               this`sessionEndTime, this`imageFiles, this`imageCountCache, this`viewerOpen
      ensures Valid()
      ensures displayDuration == DisplayDurationMs(duration, unit)
      ensures sessionSettings == session && imagesShown == 0 && sessionStartTime == now
      ensures sessionEndTime
           == if session.Time? then now + SessionLengthMs(session.length, session.unit) else old(sessionEndTime)
      ensures imageCountCache
           == old(imageCountCache)[HandlerKey(directory, includeSubdirs) := |HandlerScan(directory, includeSubdirs, listing)|]
      ensures success <==> HandlerScan(directory, includeSubdirs, listing) != []
      ensures !success ==> imageFiles == [] && viewerOpen == old(viewerOpen)
      ensures success ==> viewerOpen
      ensures success ==> imageFiles == Shuffled(HandlerScan(directory, includeSubdirs, listing), pick, |HandlerScan(directory, includeSubdirs, listing)| - 1)
      ensures multiset(imageFiles) == multiset(HandlerScan(directory, includeSubdirs, listing))
    {
      ApplySettings(now, duration, unit, session);
      success := LoadImages(directory, includeSubdirs, listing, pick);
    }

    /** The settings half of start-viewer: the image duration, the session and its clock, and a fresh count. */
    method ApplySettings(now: int, duration: int, unit: string, session: Session)
      modifies this`displayDuration, this`sessionSettings, this`imagesShown, this`sessionStartTime, this`sessionEndTime
      ensures Valid()
      ensures displayDuration == DisplayDurationMs(duration, unit)
      ensures sessionSettings == session && imagesShown == 0 && sessionStartTime == now
      ensures sessionEndTime
           == if session.Time? then now + SessionLengthMs(session.length, session.unit) else old(sessionEndTime)
    {
      displayDuration := DisplayDurationMs(duration, unit);
      sessionSettings := session;
      imagesShown := 0;
      sessionStartTime := now;
      if session.Time? {
        sessionEndTime := sessionStartTime + SessionLengthMs(session.length, session.unit);
      }
    }

    /** The scan half of start-viewer: refresh the cache entry, then fail on no images or shuffle them and open the viewer. */
    method LoadImages(directory: string, includeSubdirs: seq<string>, listing: Listing, pick: nat -> nat)
      returns (success: bool)
      requires IsIndexSource(pick)
      modifies this`imageFiles, this`imageCountCache, this`viewerOpen
      ensures imageCountCache
           == old(imageCountCache)[HandlerKey(directory, includeSubdirs) := |HandlerScan(directory, includeSubdirs, listing)|]
      ensures success <==> HandlerScan(directory, includeSubdirs, listing) != []
      ensures !success ==> imageFiles == [] && viewerOpen == old(viewerOpen)
      ensures success ==> viewerOpen
      ensures success ==> imageFiles == Shuffled(HandlerScan(directory, includeSubdirs, listing), pick, |HandlerScan(directory, includeSubdirs, listing)| - 1)
      ensures multiset(imageFiles) == multiset(HandlerScan(directory, includeSubdirs, listing))
    {
      var found := HandlerScan(directory, includeSubdirs, listing);
      imageCountCache := imageCountCache[HandlerKey(directory, includeSubdirs) := |found|];
      if found == [] {
        imageFiles := found;
        success := false;
      } else {
        imageFiles := ShuffleArray(found, pick);
        viewerOpen := true;
        success := true;
      }
    }
  }

  // ---------------------------------------------------------------------
  // Sessions from start to end
  // ---------------------------------------------------------------------

  /**
   * A count-mode session over a tree with images, ticked until it ends,
   * shows exactly `count` images, every one of them found by the scan.
   */
  method CountSession(count: nat, now: int, directory: string, listing: Listing, pick: nat -> nat)
    returns (shown: seq<string>, last: Step)
    requires IsIndexSource(pick)
    requires HandlerScan(directory, [], listing) != []
    ensures |shown| == count && last == Ended
    ensures forall p :: p in shown ==> p in HandlerScan(directory, [], listing)
  {
    var found := HandlerScan(directory, [], listing);
    var v := new Viewer();
    var ok := v.StartViewer(now, directory, 1, "minutes", Count(count), [], listing, pick);
    shown := [];
    last := v.DisplayNextImage(now, pick);
    if last.Shown? {
      assert last.path in multiset(v.imageFiles);
    }
    while !last.Ended?
      invariant v.Valid() && v.sessionSettings == Count(count)
      invariant v.imageFiles != [] && multiset(v.imageFiles) == multiset(found)
      invariant last.Shown? || last.Ended?
      invariant last.Shown? ==> last.path in found
      invariant v.imagesShown == |shown| + (if last.Shown? then 1 else 0)
      invariant last.Ended? ==> v.imagesShown >= count
      invariant forall p :: p in shown ==> p in found
      decreases count - |shown|
    {
      shown := shown + [last.path];
      last := v.DisplayNextImage(now, pick);
      if last.Shown? {
        assert last.path in multiset(v.imageFiles);
      }
    }
  }

  /**
   * A time-limited session of `length` in `unit`, started at `start` over a
   * tree with images: the first automatic step at `now` ends the session
   * exactly when the session's length has passed, and otherwise shows one of
   * the scanned images.
   */
  method TimeSession(start: int, now: int, length: int, unit: string, directory: string, listing: Listing,
                     pick: nat -> nat)
    returns (step: Step)
    requires IsIndexSource(pick)
    requires HandlerScan(directory, [], listing) != []
    ensures step == Ended <==> now >= start + SessionLengthMs(length, unit)
    ensures step != Ended ==> step.Shown? && step.path in HandlerScan(directory, [], listing)
  {
    var v := new Viewer();
    var ok := v.StartViewer(start, directory, 1, "seconds", Time(length, unit), [], listing, pick);
    step := v.DisplayNextImage(now, pick);
    if step.Shown? {
      assert step.path in multiset(v.imageFiles);
    }
  }
}
