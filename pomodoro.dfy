/**
 * The Pomodoro timer (chromedriver-python/pomodoro-timer/script.js): a
 * countdown in integer milliseconds through work sessions and short and
 * long breaks, with a session counter that schedules every fourth break
 * as a long one.
 *
 * The clock is a parameter (`now`, in milliseconds); the one-second
 * interval is the explicit `Tick` step and the two-second auto-start
 * timeout is a pending counter fired by `FireAutoStart`.
 */
module Pomodoro {
  import opened Common
  import opened Decimal
  import opened JsString

  const WorkTime := 25 * 60 * 1000
  const ShortBreakTime := 5 * 60 * 1000
  const LongBreakTime := 15 * 60 * 1000

  /** The length `setMode` and `reset` give a mode; None for any other name, whose time they leave alone. */
  function Duration(mode: string): (length: Option<nat>)
    ensures length.Some? <==> mode == "work" || mode == "shortBreak" || mode == "longBreak"
    ensures length.Some? ==> 0 < length.value <= WorkTime && length.value % 60000 == 0
    ensures mode == "shortBreak" || mode == "longBreak" ==> length.value < WorkTime
  {
    if mode == "work" then Some(WorkTime)
    else if mode == "shortBreak" then Some(ShortBreakTime)
    else if mode == "longBreak" then Some(LongBreakTime)
    else None
  }

  /** The mode and counter of the timer, as far as the schedule goes. */
  datatype Phase = Phase(mode: string, count: nat)

  /**
   * The phase after the current one completes: a work session is counted;
   * after work comes a long break when the new count is a multiple of four
   * and a short break otherwise; after anything else comes work.
   */
  function Completed(p: Phase): (q: Phase)
    ensures q.count == p.count + (if p.mode == "work" then 1 else 0)
    ensures p.mode == "work" ==> q.mode == (if q.count % 4 == 0 then "longBreak" else "shortBreak")
    ensures p.mode != "work" ==> q.mode == "work"
    ensures Duration(q.mode).Some?
  {
    var count := if p.mode == "work" then p.count + 1 else p.count;
    var next := if p.mode == "work" then (if count % 4 == 0 then "longBreak" else "shortBreak") else "work";
    Phase(next, count)
  }

  /** The phase after `n` completions from a fresh timer. */
  function AfterCompletions(n: nat): Phase
  {
    if n == 0 then Phase("work", 0) else Completed(AfterCompletions(n - 1))
  }

  /**
   * Left to run, the timer alternates work and breaks: after `2k`
   * completions it is in work with `k` sessions counted, and the break after
   * the `k`-th work session is long exactly when `k` is a multiple of four.
   */
  lemma {:induction false} Schedule(k: nat)
    ensures AfterCompletions(2 * k) == Phase("work", k)
    ensures k >= 1 ==> AfterCompletions(2 * k - 1) == Phase(if k % 4 == 0 then "longBreak" else "shortBreak", k)
  {
    if k >= 1 {
      Schedule(k - 1);
      assert 2 * k - 1 == 2 * (k - 1) + 1;
    }
  }

  /** The notification body for the mode that just ended. */
  function NotificationMessage(mode: string): (m: string)
    ensures mode == "work" ==> m == "专注时间结束！该休息了。"
    ensures mode == "shortBreak" ==> m == "短休息结束！该开始新的专注时间了。"
    ensures mode == "longBreak" ==> m == "长休息结束！该开始新的专注时间了。"
    ensures Duration(mode).None? ==> m == "番茄钟时间结束！"
  {
    match mode
    case "work" => "专注时间结束！该休息了。"
    case "shortBreak" => "短休息结束！该开始新的专注时间了。"
    case "longBreak" => "长休息结束！该开始新的专注时间了。"
    case _ => "番茄钟时间结束！"
  }

  /** A multiple of `b` leaves no remainder. */
  lemma MultipleMod(q: int, b: int)
    requires b > 0
    ensures (q * b) % b == 0
  {
    var d, m := (q * b) / b, (q * b) % b;
    assert q * b == d * b + m;
    assert (q - d) * b == q * b - d * b;
    assert q - d >= 1 ==> (q - d) * b >= 1 * b;
    assert q - d <= -1 ==> (q - d) * b <= -1 * b;
  }

  /** Taking away the remainder of `a`, or adding that of `-a`, leaves a multiple of `b`. */
  lemma RemainderMultiples(a: int, b: int)
    requires b > 0
    ensures (a - a % b) % b == 0
    ensures (a + (-a) % b) % b == 0
  {
    MultipleMod(a / b, b);
    MultipleMod(-((-a) / b), b);
    assert a - a % b == (a / b) * b;
    assert a + (-a) % b == (-((-a) / b)) * b;
  }

  /**
   * JavaScript's `a % b` for a positive divisor: the remainder takes the
   * sign of `a`, is smaller than `b` in size, and differs from `a` by a
   * multiple of `b`, which together fix it.
   */
  function JsRem(a: int, b: int): (r: int)
    requires b > 0
    ensures a >= 0 ==> r == a % b
    ensures a < 0 ==> -b < r <= 0
    ensures (a - r) % b == 0
  {
    RemainderMultiples(a, b);
    if a >= 0 then a % b else -((-a) % b)
  }

  /**
   * `updateDisplay`: whole minutes and the seconds left over, each padded
   * to two digits, as `MM:SS`. `Math.floor(x / 60000)` is Dafny's `/`,
   * which rounds down for a positive divisor.
   */
  function Display(t: int): (shown: string)
    ensures |shown| >= 5
  {
    var minutes := t / 60000;
    var seconds := JsRem(t, 60000) / 1000;
    var mm := PadStart(IntText(minutes), 2, '0');
    var ss := PadStart(IntText(seconds), 2, '0');
    mm + ":" + ss
  }

  /** The first position of `c` in `s`, or `|s|`. */
  function IndexOf(s: string, c: char): (i: nat)
    ensures i <= |s|
    ensures forall k :: 0 <= k < i ==> s[k] != c
    ensures i < |s| ==> s[i] == c
  {
    if |s| == 0 || s[0] == c then 0 else 1 + IndexOf(s[1..], c)
  }

  /** Reading `MM:SS` back into minutes and seconds. */
  function ParseClock(s: string): Option<(nat, nat)>
  {
    var i := IndexOf(s, ':');
    if i == |s| then None
    else match (ParseDigits(s[..i]), ParseDigits(s[i + 1..]))
      case (Some(m), Some(sec)) => Some((m, sec))
      case _ => None
  }

  lemma PaddedDigits(n: nat)
    ensures var p := PadStart(Digits(n), 2, '0');
            |p| >= 2 && (forall k :: 0 <= k < |p| ==> IsDigit(p[k])) && ParseDigits(p) == Some(n)
  {
    var d := Digits(n);
    ParseDigitsOfDigits(n);
    if |d| < 2 {
      assert PadStart(d, 2, '0') == "0" + d;
      ParseDigitsLeadingZero(d);
    }
  }

  lemma ClockParts(a: string, b: string)
    requires forall k :: 0 <= k < |a| ==> IsDigit(a[k])
    ensures IndexOf(a + ":" + b, ':') == |a|
    ensures (a + ":" + b)[..|a|] == a && (a + ":" + b)[|a| + 1..] == b
  {
    var s := a + ":" + b;
    var i := IndexOf(s, ':');
    assert s[|a|] == ':';
    assert forall k :: 0 <= k < |a| ==> s[k] == a[k];
  }

  /** For a non-negative time the display reads back as the whole minutes and the whole seconds left over. */
  lemma DisplayReadsBack(t: nat)
    ensures ParseClock(Display(t)) == Some((t / 60000, t % 60000 / 1000))
  {
    var m, s := t / 60000, t % 60000 / 1000;
    var mm, ss := PadStart(Digits(m), 2, '0'), PadStart(Digits(s), 2, '0');
    assert Display(t) == mm + ":" + ss;
    PaddedDigits(m);
    PaddedDigits(s);
    ClockParts(mm, ss);
  }

  /** The seconds shown are below 60, and minutes and seconds together fall short of the time by less than a second. */
  lemma DisplayTruncates(t: nat)
    ensures t % 60000 / 1000 < 60
    ensures 0 <= t - ((t / 60000) * 60000 + (t % 60000 / 1000) * 1000) < 1000
  {
    var r := t % 60000;
    assert t == (t / 60000) * 60000 + r;
    assert r == (r / 1000) * 1000 + r % 1000;
  }

  lemma ShortDigits(n: nat)
    requires n < 100
    ensures |Digits(n)| <= 2
  {
    if n >= 10 {
      assert Digits(n) == Digits(n / 10) + [DigitChar(n % 10)];
    }
  }

  /** Up to 99 minutes the display is exactly five characters, `MM:SS`. */
  lemma DisplayWidth(t: nat)
    requires t < 100 * 60000
    ensures |Display(t)| == 5 && Display(t)[2] == ':'
  {
    var m, s := t / 60000, t % 60000 / 1000;
    ShortDigits(m);
    DisplayTruncates(t);
    ShortDigits(s);
    var mm, ss := PadStart(Digits(m), 2, '0'), PadStart(Digits(s), 2, '0');
    assert Display(t) == mm + ":" + ss;
  }

  /** A fresh timer shows `25:00`. */
  lemma DisplayOfWorkTime()
    ensures Display(WorkTime) == "25:00"
  {
    assert WorkTime / 60000 == 25 && JsRem(WorkTime, 60000) / 1000 == 0;
    assert Digits(25) == "25";
    assert PadStart("0", 2, '0') == "00";
  }

  class Timer {
    var currentTime: int
    var isRunning: bool
    var currentMode: string
    var sessionCount: nat
    /** The `startTime` the running interval measures from. */
    var startTime: int
    /** Auto-start callbacks that `switchToNextMode` scheduled and that have not fired yet. */
    var pendingStarts: nat
    /** When the running interval began, and the time left then. */
    ghost var startedAt: int
    ghost var remainingAtStart: int

    /** While running, `startTime` is back-dated by the time already used, measured against the work length. */
    ghost predicate Valid()
      reads this
    {
      isRunning ==> startTime == startedAt - (WorkTime - remainingAtStart)
    }

    ghost function Progress(): Phase
      reads this
    {
      Phase(currentMode, sessionCount)
    }

    constructor ()
      ensures Valid() && !isRunning && pendingStarts == 0
      ensures currentTime == WorkTime && currentMode == "work" && sessionCount == 0
    {
      currentTime := WorkTime;
      isRunning := false;
      currentMode := "work";
      sessionCount := 0;
      startTime := 0;
      pendingStarts := 0;
    }

    /** `start`: nothing while running; otherwise runs from `now`, keeping the time left. */
    method Start(now: int)
      requires Valid()
      modifies this`isRunning, this`startTime, this`startedAt, this`remainingAtStart
      ensures Valid()
      ensures old(isRunning) ==> unchanged(this)
      ensures !old(isRunning) ==>
                isRunning && startedAt == now && remainingAtStart == currentTime
                && currentTime == old(currentTime) && currentMode == old(currentMode)
                && sessionCount == old(sessionCount) && pendingStarts == old(pendingStarts)
    {
      if isRunning {
        return;
      }
      isRunning := true;
      startTime := now - (WorkTime - currentTime);
      startedAt := now;
      remainingAtStart := currentTime;
    }

    /** `pause`: stops the interval; nothing else changes. */
    method Pause()
      requires Valid()
      modifies this`isRunning
      ensures Valid() && !isRunning
    {
      if !isRunning {
        return;
      }
      isRunning := false;
    }

    /** `reset`: paused, with the full length of the current mode; mode and counter untouched. */
    method Reset()
      requires Valid()
      modifies this`isRunning, this`currentTime
      ensures Valid() && !isRunning
      ensures currentTime == if Duration(currentMode).Some? then Duration(currentMode).value else old(currentTime)
    {
      Pause();
      match currentMode
      case "work" => currentTime := WorkTime;
      case "shortBreak" => currentTime := ShortBreakTime;
      case "longBreak" => currentTime := LongBreakTime;
      case _ =>
    }

    /** `setMode`: paused in `mode`, with that mode's full length; the counter is untouched. */
    method SetMode(mode: string)
      requires Valid()
      modifies this`isRunning, this`currentTime, this`currentMode
      ensures Valid() && !isRunning && currentMode == mode
      ensures currentTime == if Duration(mode).Some? then Duration(mode).value else old(currentTime)
    {
      Pause();
      currentMode := mode;
      match mode
      case "work" => currentTime := WorkTime;
      case "shortBreak" => currentTime := ShortBreakTime;
      case "longBreak" => currentTime := LongBreakTime;
      case _ =>
    }

    /** `switchToNextMode`: the next mode of the schedule, paused at full length, and an auto-start scheduled. */
    method SwitchToNextMode()
      requires Valid()
      modifies this`isRunning, this`currentTime, this`currentMode, this`pendingStarts
      ensures Valid() && !isRunning
      ensures currentMode == (if old(currentMode) == "work" then (if sessionCount % 4 == 0 then "longBreak" else "shortBreak") else "work")
      ensures currentTime == Duration(currentMode).value
      ensures pendingStarts == old(pendingStarts) + 1
    {
      if currentMode == "work" {
        if sessionCount % 4 == 0 {
          SetMode("longBreak");
        } else {
          SetMode("shortBreak");
        }
      } else {
        SetMode("work");
      }
      pendingStarts := pendingStarts + 1;
    }

    /**
     * `completeSession`: paused, the work session counted, the next phase
     * of the schedule set at full length, an auto-start scheduled; answers
     * the notification for the mode that ended.
     */
    method CompleteSession() returns (message: string)
      requires Valid()
      modifies this`isRunning, this`currentTime, this`currentMode, this`sessionCount, this`pendingStarts
      ensures Valid() && !isRunning
      ensures Progress() == Completed(old(Progress()))
      ensures currentTime == Duration(currentMode).value
      ensures pendingStarts == old(pendingStarts) + 1
      ensures message == NotificationMessage(old(currentMode))
    {
      Pause();
      if currentMode == "work" {
        sessionCount := sessionCount + 1;
      }
      message := NotificationMessage(currentMode);
      SwitchToNextMode();
    }

    /**
     * One firing of the one-second interval at `now`. The time left is the
     * time left at start less the time elapsed since; once it reaches zero
     * the session completes. No interval runs while paused.
     */
    method Tick(now: int) returns (notification: Option<string>)
      requires Valid()
      modifies this`currentTime, this`isRunning, this`currentMode, this`sessionCount, this`pendingStarts
      ensures Valid()
      ensures startTime == old(startTime) && startedAt == old(startedAt) && remainingAtStart == old(remainingAtStart)
      ensures !old(isRunning) ==> unchanged(this) && notification == None
      ensures old(isRunning) && old(remainingAtStart) - (now - old(startedAt)) > 0 ==>
                currentTime == old(remainingAtStart) - (now - old(startedAt))
                && isRunning && Progress() == old(Progress()) && notification == None
                && pendingStarts == old(pendingStarts)
      ensures old(isRunning) && old(remainingAtStart) - (now - old(startedAt)) <= 0 ==>
                !isRunning && Progress() == Completed(old(Progress()))
                && currentTime == Duration(currentMode).value
                && pendingStarts == old(pendingStarts) + 1
                && notification == Some(NotificationMessage(old(currentMode)))
    {
      if !isRunning {
        return None;
      }
      currentTime := WorkTime - (now - startTime);
      if currentTime <= 0 {
        var message := CompleteSession();
        notification := Some(message);
      } else {
        notification := None;
      }
    }

    /** The auto-start timeout firing: one pending start is used up and `start` runs. */
    method FireAutoStart(now: int)
      requires Valid() && pendingStarts > 0
      modifies this`pendingStarts, this`isRunning, this`startTime, this`startedAt, this`remainingAtStart
      ensures Valid() && isRunning
      ensures pendingStarts == old(pendingStarts) - 1
      ensures Progress() == old(Progress()) && currentTime == old(currentTime)
      ensures !old(isRunning) ==> startedAt == now && remainingAtStart == currentTime
      ensures old(isRunning) ==>
                startTime == old(startTime) && startedAt == old(startedAt) && remainingAtStart == old(remainingAtStart)
    {
      pendingStarts := pendingStarts - 1;
      Start(now);
    }
  }
}
