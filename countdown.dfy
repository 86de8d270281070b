/**
 * The multi-stage countdown engine of windsurf-project/script.js.
 *
 * `CountdownTimer` keeps the fields the page's script keeps (running flag,
 * 1-based current stage, remaining milliseconds, wall-clock anchor, the
 * parallel duration and name lists, the stage count) plus the one piece of
 * display state its logic decides, the warning highlight. The clock reading
 * `Date.now()` is the parameter `now`, one tick of the 10 ms interval is a
 * call of `UpdateTimer`, and the minute and second fields `start` reads from
 * the page are the parameter `inputs`.
 */
module Countdown {
  import opened JsText

  /** At or below this many milliseconds the running display is highlighted. */
  const WarningThresholdMs := 5000

  // ---------------------------------------------------------------------
  // Input fields
  // ---------------------------------------------------------------------

  /**
   * validateInput: the number written back into a number field holding the
   * text `value`, whose `min` and `max` attributes are `min` and `max`.
   */
  function ValidateInput(value: string, min: int, max: int): (r: int)
    ensures min <= max ==> min <= r <= max
    ensures ParseInt(value).None? ==> r == min
    ensures ParseInt(value).Some? && min <= ParseInt(value).value <= max ==> r == ParseInt(value).value
    ensures ParseInt(value).Some? && ParseInt(value).value > max && min <= max ==> r == max
    ensures ParseInt(value).Some? && ParseInt(value).value < min ==> r == min
  {
    var parsed := ParseInt(value);
    var v := if parsed.None? then min else parsed.value;
    var v := if v > max then max else v;
    if v < min then min else v
  }

  /** A field validateInput has already corrected is left as it is by the next validation. */
  lemma ValidateInputIdempotent(value: string, min: int, max: int)
    ensures ValidateInput(IntToString(ValidateInput(value, min, max)), min, max)
         == ValidateInput(value, min, max)
  {
    ParseIntToString(ValidateInput(value, min, max));
  }

  /**
   * The minute and second fields of one stage, as parseInt reads them.
   * validateInput pulls every edit back to the fields' minimum of 0, so both
   * are natural numbers.
   */
  datatype StageInput = StageInput(minutes: nat, seconds: nat)

  /** getTimerDuration's arithmetic. */
  function TimerDuration(minutes: nat, seconds: nat): nat
  {
    minutes * 60 * 1000 + seconds * 1000
  }

  /** getTimerDuration(n): the n-th stage's fields when the page has them, 0 otherwise. */
  function GetTimerDuration(inputs: seq<StageInput>, timerNumber: int): nat
  {
    if 1 <= timerNumber <= |inputs|
    then TimerDuration(inputs[timerNumber - 1].minutes, inputs[timerNumber - 1].seconds)
    else 0
  }

  /** The durations start() collects for stages 1..count. */
  function Snapshot(inputs: seq<StageInput>, count: nat): (ds: seq<nat>)
    ensures |ds| == count
    ensures forall i :: 0 <= i < count ==> ds[i] == GetTimerDuration(inputs, i + 1)
  {
    seq(count, i requires 0 <= i < count => GetTimerDuration(inputs, i + 1))
  }

  // ---------------------------------------------------------------------
  // Stage names
  // ---------------------------------------------------------------------

  /** The name addTimer gives stage n. */
  function DefaultTimerName(n: nat): string
  {
    "Timer " + NatToString(n)
  }

  /** editTimerName's rule on saving: the typed text trimmed, or the default name when that is empty. */
  function NameOrDefault(typed: string, n: nat): (name: string)
    ensures name != [] && !IsJsSpace(name[0]) && !IsJsSpace(name[|name| - 1])
    ensures Trim(typed) == [] ==> name == DefaultTimerName(n)
    ensures Trim(typed) != [] ==> name == Trim(typed)
  {
    var trimmed := Trim(typed);
    if trimmed == [] then
      var name := DefaultTimerName(n);
      assert name[0] == 'T' && IsDigit(name[|name| - 1]);
      name
    else trimmed
  }

  // ---------------------------------------------------------------------
  // Stage clock and stage chaining
  // ---------------------------------------------------------------------

  /** getInitialDuration: the duration of stage `current`, 0 when there is no such stage (`|| 0`). */
  function StageDuration(durations: seq<nat>, current: int): nat
  {
    if 1 <= current <= |durations| then durations[current - 1] else 0
  }

  /** updateTimer's computation: what is left of `initial` ms at `now` on a clock anchored at `anchor`. */
  function RemainingAt(initial: int, anchor: int, now: int): (r: nat)
    ensures r == 0 <==> now - anchor >= initial
    ensures r > 0 ==> r == initial - (now - anchor)
    ensures now >= anchor ==> r <= Max(0, initial)
  {
    Max(0, initial - (now - anchor))
  }

  /**
   * handleTimerComplete's test: the stage after `current`, provided there is
   * one and its duration is positive; `None` ends the run.
   */
  function NextStage(durations: seq<nat>, count: int, current: int): Option<int>
    requires 1 <= current
  {
    if current < count && current < |durations| && durations[current] > 0 then Some(current + 1) else None
  }

  /** The stages a run passes through from `current` on, one per completion. */
  function StagesRun(durations: seq<nat>, current: int): seq<int>
    requires 1 <= current
    decreases |durations| - current
  {
    match NextStage(durations, |durations|, current)
    case None => [current]
    case Some(next) => [current] + StagesRun(durations, next)
  }

  /** A stage of zero duration ends the run: neither it nor any stage after it is reached. */
  lemma {:induction false} ZeroStageEndsChain(durations: seq<nat>, current: int, zero: int)
    requires 1 <= current < zero <= |durations| && durations[zero - 1] == 0
    ensures forall s :: s in StagesRun(durations, current) ==> current <= s < zero
    decreases |durations| - current
  {
    match NextStage(durations, |durations|, current)
    case None =>
    case Some(next) =>
      assert next < zero;
      ZeroStageEndsChain(durations, next, zero);
  }

  /** Every stage up to `last` is reached when all stages after `current` up to `last` have positive duration. */
  lemma {:induction false} PositiveStagesAllRun(durations: seq<nat>, current: int, last: int)
    requires 1 <= current <= last <= |durations|
    requires forall i :: current <= i < last ==> durations[i] > 0
    ensures forall k :: current <= k <= last ==> k in StagesRun(durations, current)
    decreases last - current
  {
    if current < last {
      assert NextStage(durations, |durations|, current) == Some(current + 1);
      PositiveStagesAllRun(durations, current + 1, last);
    }
  }

  // ---------------------------------------------------------------------
  // Display
  // ---------------------------------------------------------------------

  /** A remaining time as the display splits it up. */
  datatype Clock = Clock(hours: nat, minutes: nat, seconds: nat, millis: nat)

  function TotalMs(c: Clock): nat
  {
    c.hours * 3600000 + c.minutes * 60000 + c.seconds * 1000 + c.millis
  }

  /** updateDisplay's decomposition of the remaining milliseconds into h:m:s and a remainder. */
  function Decompose(remaining: nat): (c: Clock)
    ensures c.minutes < 60 && c.seconds < 60 && c.millis < 1000
    ensures TotalMs(c) == remaining
  {
    var totalSeconds := remaining / 1000;
    var minutes := totalSeconds / 60;
    Clock(minutes / 60, minutes % 60, totalSeconds % 60, remaining % 1000)
  }

  /** A stage entered as minutes and seconds is displayed with those minutes and seconds. */
  lemma EnteredTimeDisplayed(minutes: nat, seconds: nat)
    requires seconds < 60
    ensures Decompose(TimerDuration(minutes, seconds)) == Clock(minutes / 60, minutes % 60, seconds, 0)
  {
    var ms := TimerDuration(minutes, seconds);
    var totalSeconds := minutes * 60 + seconds;
    assert ms == totalSeconds * 1000;
    assert ms / 1000 == totalSeconds && ms % 1000 == 0;
    assert totalSeconds / 60 == minutes && totalSeconds % 60 == seconds;
  }

  /** Math.round(x / 10) * 10 for a whole number x >= 0 (halves round up). */
  function RoundToTen(x: nat): (r: nat)
    ensures r % 10 == 0 && x - 5 < r <= x + 5
  {
    (x + 5) / 10 * 10
  }

  /** The millisecond figure updateDisplay shows: 0 for a finished stage, else the remainder to the nearest 10 ms. */
  function DisplayedMillis(remaining: nat): (ms: nat)
    ensures ms % 10 == 0 && ms <= 1000
    ensures remaining == 0 ==> ms == 0
    ensures remaining > 0 ==> remaining % 1000 - 5 < ms <= remaining % 1000 + 5
  {
    if remaining == 0 then 0 else RoundToTen(remaining % 1000)
  }

  /** pad(number, digits): `number` in decimal, left-filled with '0' to `digits` characters, never cut. */
  function Pad(n: nat, digits: nat): (s: string)
    ensures |s| == Max(digits, |NatToString(n)|)
    ensures s[|s| - |NatToString(n)|..] == NatToString(n)
    ensures AllDigits(s) && ParseDigits(s) == n
  {
    PaddedNumeral(n, digits);
    PadStart(NatToString(n), digits, '0')
  }

  lemma PaddedNumeral(n: nat, digits: nat)
    ensures AllDigits(PadStart(NatToString(n), digits, '0'))
    ensures ParseDigits(PadStart(NatToString(n), digits, '0')) == n
  {
    var t := NatToString(n);
    var z := if |t| < digits then digits - |t| else 0;
    assert PadStart(t, digits, '0') == Repeat('0', z) + t;
    ParseNatToString(n);
    LeadingZerosIgnored(z, t);
  }

  /** A value below 10^k fills a field of k digits exactly. */
  lemma PadWidth(n: nat, k: nat)
    requires k >= 1 && n < Pow10(k)
    ensures |Pad(n, k)| == k
  {
    NatToStringLength(n, k);
  }

  /**
   * formatTime: hours, minutes and seconds, each padded to two digits and
   * separated by ':'. Minutes and seconds below 60 take exactly two digits;
   * the hours field grows past two digits when it has to.
   */
  function FormatTime(hours: nat, minutes: nat, seconds: nat): (r: string)
    requires minutes < 60 && seconds < 60
    ensures var h := |r| - 6;
      && h >= 2 && r[h] == ':' && r[h + 3] == ':'
      && AllDigits(r[..h]) && ParseDigits(r[..h]) == hours
      && AllDigits(r[h + 1..h + 3]) && ParseDigits(r[h + 1..h + 3]) == minutes
      && AllDigits(r[h + 4..]) && ParseDigits(r[h + 4..]) == seconds
  {
    var hs, ms, ss := Pad(hours, 2), Pad(minutes, 2), Pad(seconds, 2);
    PadWidth(minutes, 2);
    PadWidth(seconds, 2);
    ThreeFields(hs, ms, ss);
    hs + ":" + ms + ":" + ss
  }

  lemma ThreeFields(hs: string, ms: string, ss: string)
    requires |ms| == 2 && |ss| == 2
    ensures var r := hs + ":" + ms + ":" + ss; var h := |hs|;
      && |r| - 6 == h && r[h] == ':' && r[h + 3] == ':'
      && r[..h] == hs && r[h + 1..h + 3] == ms && r[h + 4..] == ss
  {
  }

  /** formatMilliseconds: '.' and the value padded to three digits; four characters only below 1000. */
  function FormatMilliseconds(ms: nat): (r: string)
    ensures |r| >= 4 && r[0] == '.' && AllDigits(r[1..]) && ParseDigits(r[1..]) == ms
    ensures |r| == 4 <==> ms < 1000
  {
    NatToStringLength(ms, 3);
    var r := "." + Pad(ms, 3);
    assert r[1..] == Pad(ms, 3);
    r
  }

  /** The two texts updateDisplay writes: the h:m:s field and the millisecond field. */
  function Display(remaining: nat): (string, string)
  {
    var c := Decompose(remaining);
    (FormatTime(c.hours, c.minutes, c.seconds), FormatMilliseconds(DisplayedMillis(remaining)))
  }

  /**
   * As written, a remainder of 995 ms or more rounds up to 1000 and the
   * millisecond field shows five characters (".1000") while the seconds are
   * not carried.
   */
  lemma MillisFieldOverflow(remaining: nat)
    ensures DisplayedMillis(remaining) == 1000 <==> remaining > 0 && remaining % 1000 >= 995
    ensures |Display(remaining).1| == 5 <==> remaining > 0 && remaining % 1000 >= 995
  {
    var ms := DisplayedMillis(remaining);
    if remaining > 0 && remaining % 1000 >= 995 {
      assert ms > 990;
    }
    if ms == 1000 {
      NatToStringLength(1000, 4);
      NatToStringLength(1000, 3);
    }
  }

  /** The display clock with rounding done before the split, so the 10 ms rounding carries into the seconds. */
  function CorrectedClock(remaining: nat): (c: Clock)
    ensures c.minutes < 60 && c.seconds < 60 && c.millis < 1000 && c.millis % 10 == 0
    ensures remaining - 5 < TotalMs(c) <= remaining + 5
    ensures remaining == 0 ==> TotalMs(c) == 0
  {
    var rounded := if remaining == 0 then 0 else RoundToTen(remaining);
    var c := Decompose(rounded);
    assert c.millis == rounded % 1000;
    c
  }

  /** The display texts from the corrected clock: the millisecond field always has three digits. */
  function CorrectedDisplay(remaining: nat): (texts: (string, string))
    ensures |texts.1| == 4 && texts.1[0] == '.'
    ensures AllDigits(texts.1[1..]) && ParseDigits(texts.1[1..]) == CorrectedClock(remaining).millis
  {
    var c := CorrectedClock(remaining);
    (FormatTime(c.hours, c.minutes, c.seconds), FormatMilliseconds(c.millis))
  }

  // ---------------------------------------------------------------------
  // The engine
  // ---------------------------------------------------------------------

  /** `s.splice(i, 1)` on a list: drop the element at index i. */
  function Splice<T>(s: seq<T>, i: nat): (r: seq<T>)
    requires i < |s|
    ensures |r| == |s| - 1
    ensures forall k :: 0 <= k < i ==> r[k] == s[k]
    ensures forall k :: i <= k < |r| ==> r[k] == s[k + 1]
  {
    s[..i] + s[i + 1..]
  }

  class CountdownTimer {
    var isRunning: bool
    var currentTimer: int
    var remainingTime: int
    var startTime: int
    var timerDurations: seq<nat>
    var timerCount: int
    var timerNames: seq<string>
    /** Whether the time display carries its 'warning' class. */
    var warning: bool

    /** One duration and one name per stage, at least one stage, a 1-based stage index, no negative time. */
    predicate StagesWellFormed()
      reads this
    {
      && 1 <= timerCount && |timerDurations| == timerCount && |timerNames| == timerCount
      && 1 <= currentTimer && 0 <= remainingTime
    }

    /** The object invariant: also, a running countdown always has time left. */
    predicate Valid()
      reads this
    {
      StagesWellFormed() && (isRunning ==> remainingTime > 0)
    }

    /** getInitialDuration(). */
    function InitialDuration(): nat
      reads this
    {
      StageDuration(timerDurations, currentTimer)
    }

    constructor ()
      ensures Valid()
      ensures !isRunning && currentTimer == 1 && remainingTime == 0 && !warning
      ensures timerDurations == [0] && timerCount == 1 && timerNames == ["Timer 1"]
    {
      isRunning := false;
      currentTimer := 1;
      remainingTime := 0;
      startTime := 0;
      timerDurations := [0];
      timerCount := 1;
      timerNames := ["Timer 1"];
      warning := false;
    }

    /** addTimer: one more stage, named after its number, with duration 0. */
    method AddTimer()
      requires Valid()
      modifies this
      ensures Valid()
      ensures timerCount == old(timerCount) + 1
      ensures timerNames == old(timerNames) + [DefaultTimerName(timerCount)]
      ensures timerDurations == old(timerDurations) + [0]
      ensures isRunning == old(isRunning) && currentTimer == old(currentTimer)
      ensures remainingTime == old(remainingTime) && startTime == old(startTime) && warning == old(warning)
    {
      timerCount := timerCount + 1;
      var timerNumber := timerCount;
      timerNames := timerNames + [DefaultTimerName(timerNumber)];
      timerDurations := timerDurations + [0];
    }

    /** removeTimer: drop stage `timerNumber` from both lists, unless it is the only stage. */
    method RemoveTimer(timerNumber: int)
      requires Valid()
      requires timerCount <= 1 || 1 <= timerNumber <= timerCount
      modifies this
      ensures Valid()
      ensures old(timerCount) <= 1 ==> unchanged(this)
      ensures old(timerCount) > 1 ==>
        && timerCount == old(timerCount) - 1
        && timerDurations == Splice(old(timerDurations), timerNumber - 1)
        && timerNames == Splice(old(timerNames), timerNumber - 1)
      ensures isRunning == old(isRunning) && currentTimer == old(currentTimer)
      ensures remainingTime == old(remainingTime) && startTime == old(startTime) && warning == old(warning)
    {
      if timerCount <= 1 {
        return;
      }
      timerDurations := Splice(timerDurations, timerNumber - 1);
      timerNames := Splice(timerNames, timerNumber - 1);
      timerCount := timerCount - 1;
    }

    /** editTimerName, when the edit is saved with the text `typed`. */
    method EditTimerName(timerNumber: int, typed: string)
      requires Valid() && 1 <= timerNumber <= timerCount
      modifies this
      ensures Valid()
      ensures timerNames == old(timerNames)[timerNumber - 1 := NameOrDefault(typed, timerNumber)]
      ensures timerDurations == old(timerDurations) && timerCount == old(timerCount)
      ensures isRunning == old(isRunning) && currentTimer == old(currentTimer)
      ensures remainingTime == old(remainingTime) && startTime == old(startTime) && warning == old(warning)
    {
      var newName := NameOrDefault(typed, timerNumber);
      timerNames := timerNames[timerNumber - 1 := newName];
    }

    /**
     * start: from idle with no time used, take a fresh snapshot of every
     * stage's duration and go to stage 1; then run if time is left, with the
     * clock anchored so that the countdown continues from `remainingTime`.
     */
    method Start(now: int, inputs: seq<StageInput>)
      requires Valid()
      modifies this
      ensures Valid()
      ensures old(isRunning) ==> unchanged(this)
      ensures !old(isRunning) && old(remainingTime) == 0 ==>
        && timerDurations == Snapshot(inputs, timerCount)
        && currentTimer == 1 && remainingTime == timerDurations[0]
      ensures !old(isRunning) && old(remainingTime) != 0 ==>
        && timerDurations == old(timerDurations)
        && currentTimer == old(currentTimer) && remainingTime == old(remainingTime)
      ensures !old(isRunning) ==> (isRunning <==> remainingTime > 0)
      ensures !old(isRunning) && isRunning ==>
        && startTime == now - (InitialDuration() - remainingTime)
        && forall t :: RemainingAt(InitialDuration(), startTime, t) == Max(0, remainingTime - (t - now))
      ensures !isRunning ==> startTime == old(startTime)
      ensures timerCount == old(timerCount) && timerNames == old(timerNames) && warning == old(warning)
    {
      if !isRunning {
        if remainingTime == 0 {
          timerDurations := [];
          var i := 1;
          while i <= timerCount
            invariant 1 <= i <= timerCount + 1
            invariant timerDurations == Snapshot(inputs, i - 1)
            invariant timerCount == old(timerCount) && timerNames == old(timerNames) && warning == old(warning)
            invariant !isRunning && startTime == old(startTime) && remainingTime == 0
          {
            timerDurations := timerDurations + [GetTimerDuration(inputs, i)];
            i := i + 1;
          }
          remainingTime := timerDurations[0];
          currentTimer := 1;
        }
        if remainingTime > 0 {
          startTime := now - (InitialDuration() - remainingTime);
          isRunning := true;
        }
      }
    }

    /** pause: stop the countdown; the remaining time is kept as it is. */
    method Pause()
      requires Valid()
      modifies this
      ensures Valid()
      ensures !isRunning
      ensures remainingTime == old(remainingTime) && currentTimer == old(currentTimer) && startTime == old(startTime)
      ensures timerDurations == old(timerDurations) && timerNames == old(timerNames) && timerCount == old(timerCount)
      ensures warning == old(warning)
    {
      if isRunning {
        isRunning := false;
      }
    }

    /** reset: back to idle at stage 1 with no time; the stage lists stay as they are. */
    method Reset()
      requires Valid()
      modifies this
      ensures Valid()
      ensures !isRunning && remainingTime == 0 && currentTimer == 1 && !warning
      ensures timerDurations == old(timerDurations) && timerNames == old(timerNames) && timerCount == old(timerCount)
      ensures startTime == old(startTime)
    {
      isRunning := false;
      remainingTime := 0;
      currentTimer := 1;
      warning := false;
    }

    /**
     * handleTimerComplete: move on to the next stage when it exists and has
     * a positive duration, restarting the clock at `now`; otherwise the
     * whole run is over.
     */
    method HandleTimerComplete(now: int)
      requires StagesWellFormed() && isRunning && remainingTime == 0
      modifies this
      ensures Valid()
      ensures !warning
      ensures timerDurations == old(timerDurations) && timerNames == old(timerNames) && timerCount == old(timerCount)
      ensures match NextStage(timerDurations, timerCount, old(currentTimer))
        case Some(next) =>
          && currentTimer == next && remainingTime == InitialDuration() && remainingTime > 0
          && isRunning && startTime == now
        case None =>
          && currentTimer == old(currentTimer) && remainingTime == 0 && !isRunning
          && startTime == old(startTime)
    {
      warning := false;
      if currentTimer < timerCount && timerDurations[currentTimer] > 0 {
        currentTimer := currentTimer + 1;
        remainingTime := timerDurations[currentTimer - 1];
        startTime := now;
      } else {
        isRunning := false;
      }
    }

    /**
     * updateTimer, one tick at clock reading `now`: the remaining time is the
     * stage duration less the time since the anchor, never below 0; at 0 the
     * stage is complete, and at 5000 ms or less the warning comes on.
     * handleTimerComplete reads the clock again; that second reading is
     * `completedAt`.
     */
    method UpdateTimer(now: int, completedAt: int)
      requires Valid() && isRunning
      modifies this
      ensures Valid()
      ensures timerDurations == old(timerDurations) && timerNames == old(timerNames) && timerCount == old(timerCount)
      ensures var computed := RemainingAt(old(InitialDuration()), old(startTime), now);
        && (computed > 0 ==>
              && remainingTime == computed && isRunning
              && currentTimer == old(currentTimer) && startTime == old(startTime)
              && warning == (old(warning) || computed <= WarningThresholdMs))
        && (computed == 0 ==> !warning && match NextStage(timerDurations, timerCount, old(currentTimer))
              case Some(next) =>
                currentTimer == next && remainingTime == InitialDuration() && isRunning && startTime == completedAt
              case None =>
                currentTimer == old(currentTimer) && remainingTime == 0 && !isRunning)
      ensures now >= old(startTime) ==> remainingTime <= InitialDuration()
    {
      var elapsed := now - startTime;
      remainingTime := Max(0, InitialDuration() - elapsed);
      if remainingTime == 0 {
        HandleTimerComplete(completedAt);
      } else if remainingTime <= WarningThresholdMs {
        warning := true;
      }
    }
  }

  /**
   * Stages of 2 s, 0 s and 3 s: when the first completes, the zero-length
   * second stage ends the run, and the third never starts.
   */
  method ZeroStageScenario() returns (running: bool, stage: int, remaining: int)
    ensures !running && stage == 1 && remaining == 0
  {
    var timer := new CountdownTimer();
    timer.AddTimer();
    timer.AddTimer();
    timer.Start(0, [StageInput(0, 2), StageInput(0, 0), StageInput(0, 3)]);
    assert timer.timerDurations == [2000, 0, 3000];
    timer.UpdateTimer(2000, 2000);
    running, stage, remaining := timer.isRunning, timer.currentTimer, timer.remainingTime;
  }

  /**
   * Pause at `pausedAt`, resume at any later (or earlier) clock reading: the
   * first tick after resuming finds the remaining time the pause froze, and
   * the fields are not read again.
   */
  method PauseResumeScenario(minutes: nat, seconds: nat, startedAt: int, pausedAt: int, resumedAt: int)
    returns (atPause: int, afterResume: int)
    requires startedAt <= pausedAt < startedAt + TimerDuration(minutes, seconds)
    ensures atPause == TimerDuration(minutes, seconds) - (pausedAt - startedAt)
    ensures afterResume == atPause
  {
    var duration := TimerDuration(minutes, seconds);
    var timer := new CountdownTimer();
    timer.Start(startedAt, [StageInput(minutes, seconds)]);
    assert timer.timerDurations == [duration];
    assert timer.isRunning && timer.startTime == startedAt && timer.InitialDuration() == duration;
    timer.UpdateTimer(pausedAt, pausedAt);
    assert timer.remainingTime == duration - (pausedAt - startedAt);
    timer.Pause();
    atPause := timer.remainingTime;
    timer.Start(resumedAt, [StageInput(0, 0)]);
    assert timer.isRunning && timer.remainingTime == atPause && timer.InitialDuration() == duration;
    timer.UpdateTimer(resumedAt, resumedAt);
    afterResume := timer.remainingTime;
  }
}
