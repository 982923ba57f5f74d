/** The Pomodoro timer: a countdown that cycles between a focus interval and
    short or long breaks, counting the focus intervals that run out.

    The timer's state is four fields (mode, seconds left, running or not, and
    completed focus sessions). Each operation of the timer is first given as a
    function from the old state to the new one (`After...`); the class
    `PomodoroTimer` holds the four fields and its methods are proved to update
    them exactly as those functions say. What the timer promises is proved
    about the functions: the bounds it keeps, the one-step session counter,
    the every-fourth-session long break, and whole focus/break rounds.

    The once-a-second tick and the deferred switch that follows a completion
    are explicit calls here: `Tick` is one firing of the interval, and the
    deferred continuation is a call of `SwitchMode` with the mode that
    `HandleComplete` returns. */
module Pomodoro {
  import opened Strings

  datatype Option<T> = None | Some(value: T)

  datatype Mode = Focus | ShortBreak | LongBreak

  /** The duration table, in seconds: 25, 5 and 15 minutes. */
  function Duration(m: Mode): (d: nat)
    ensures d > 0 && d % 60 == 0
  {
    match m
    case Focus => 25 * 60
    case ShortBreak => 5 * 60
    case LongBreak => 15 * 60
  }

  // ---------------------------------------------------------------------
  // The clock face

  /** `Math.floor(seconds / 60)`; Dafny's division by a positive divisor
      already rounds down. */
  function WholeMinutes(seconds: int): (m: int)
    ensures m * 60 <= seconds < m * 60 + 60
  {
    seconds / 60
  }

  /** `seconds % 60` as JavaScript computes it: the remainder takes the sign
      of the dividend. */
  function SecondsPart(seconds: int): (r: int)
    ensures -60 < r < 60
    ensures seconds >= 0 ==> r >= 0 && WholeMinutes(seconds) * 60 + r == seconds
    ensures seconds < 0 ==> r <= 0 && (seconds - r) % 60 == 0
  {
    if seconds < 0 && seconds % 60 != 0 then seconds % 60 - 60 else seconds % 60
  }

  /** `formatTime`: minutes and seconds, each zero-padded to two characters,
      joined by a colon. Below 100 minutes the face is exactly `MM:SS`;
      from 100 minutes on the minutes take more digits, with no leading
      zero. */
  function FormatTime(seconds: int): (r: string)
    ensures seconds >= 0 ==> |r| >= 5 && r[|r| - 3] == ':'
    ensures seconds >= 0 ==> (|r| == 5 <==> seconds < 6000)
    ensures seconds >= 0 && |r| > 5 ==> r[0] != '0'
  {
    var mins := PadStart(IntToString(WholeMinutes(seconds)), 2, '0');
    var secs := PadStart(IntToString(SecondsPart(seconds)), 2, '0');
    assert seconds >= 0 ==> |PadStart(IntToString(SecondsPart(seconds)), 2, '0')| == 2 by {
      if seconds >= 0 {
        NatToStringShort(SecondsPart(seconds));
      }
    }
    assert seconds >= 0 ==> (|mins| == 2 <==> seconds < 6000) && (|mins| > 2 ==> mins[0] != '0') by {
      if seconds >= 0 {
        var m := WholeMinutes(seconds);
        if m < 100 {
          NatToStringShort(m);
        } else {
          NatToStringLong(m);
        }
      }
    }
    mins + [':'] + secs
  }

  /** Reads a clock face back: decimal minutes, a colon, then exactly two
      digits below 60. */
  function ParseClock(t: string): Option<int> {
    if |t| < 4 || t[|t| - 3] != ':' then None
    else
      var mins, secs := t[..|t| - 3], t[|t| - 2..];
      if AllDigits(mins) && AllDigits(secs) && DecimalValue(secs) < 60
      then Some(DecimalValue(mins) * 60 + DecimalValue(secs))
      else None
  }

  /** A face made of two-or-more minute digits, a colon and two second
      digits below 60 reads back as minutes * 60 + seconds. */
  lemma ParseClockFace(a: string, b: string)
    requires AllDigits(a) && |a| >= 2 && AllDigits(b) && |b| == 2 && DecimalValue(b) < 60
    ensures ParseClock(a + [':'] + b) == Some(DecimalValue(a) * 60 + DecimalValue(b))
  {
    ColonSplit(a, b);
    ParseClockSplit(a + [':'] + b, a, b);
  }

  /** Where the pieces of `a + [':'] + b` sit, for a two-character `b`. */
  lemma ColonSplit(a: string, b: string)
    requires |b| == 2
    ensures var t := a + [':'] + b;
      |t| == |a| + 3 && t[|t| - 3] == ':' && t[..|t| - 3] == a && t[|t| - 2..] == b
  {
    var t := a + [':'] + b;
    assert t[..|t| - 3] == a;
    assert t[|t| - 2..] == b;
  }

  /** A face whose last three characters are a colon and two digits below
      60, after minute digits, reads back as minutes * 60 + seconds. */
  lemma ParseClockSplit(t: string, a: string, b: string)
    requires |t| >= 4 && t[|t| - 3] == ':' && t[..|t| - 3] == a && t[|t| - 2..] == b
    requires AllDigits(a) && AllDigits(b) && DecimalValue(b) < 60
    ensures ParseClock(t) == Some(DecimalValue(a) * 60 + DecimalValue(b))
  {
  }

  /** For every count the timer can show, the clock face names exactly that
      count: whole minutes, then seconds below 60, with minutes * 60 +
      seconds equal to the count. */
  lemma FormatTimeRoundTrip(seconds: int)
    requires seconds >= 0
    ensures ParseClock(FormatTime(seconds)) == Some(seconds)
  {
    var m, sec := WholeMinutes(seconds), SecondsPart(seconds);
    var a := PadStart(NatToString(m), 2, '0');
    var b := PadStart(NatToString(sec), 2, '0');
    assert ParseClock(FormatTime(seconds)) == Some(m * 60 + sec) by {
      FormatTimeParts(seconds);
      PaddedDigits(m);
      PaddedDigits(sec);
      ParseClockFace(a, b);
    }
  }

  /** For a non-negative count the face is the padded minutes, a colon and
      the padded seconds. */
  lemma FormatTimeParts(seconds: int)
    requires seconds >= 0
    ensures FormatTime(seconds) ==
      PadStart(NatToString(WholeMinutes(seconds)), 2, '0') + [':'] + PadStart(NatToString(SecondsPart(seconds)), 2, '0')
  {
  }


  // ---------------------------------------------------------------------
  // The state machine, as functions of the state

  datatype TimerState = TimerState(mode: Mode, timeLeft: int, isActive: bool, completedSessions: nat)

  /** What `onModeChange` is called with. */
  datatype ModeNotice = ModeNotice(mode: Mode, isActive: bool)

  /** The bound the timer keeps: the seconds left lie between zero and the
      full duration of the current mode. */
  predicate Valid(s: TimerState) {
    0 <= s.timeLeft <= Duration(s.mode)
  }

  /** A fresh timer: focus mode, 25 minutes left, stopped, no sessions yet. */
  function Initial(): (s: TimerState)
    ensures s.mode == Focus && s.completedSessions == 0
    ensures Valid(s) && s.timeLeft == Duration(s.mode) && !s.isActive
  {
    TimerState(Focus, 25 * 60, false, 0)
  }

  /** How far the current interval has run, in percent. */
  function Progress(s: TimerState): (p: real)
    ensures Valid(s) ==> 0.0 <= p <= 100.0
    ensures s.timeLeft == 0 ==> p == 100.0
    ensures s.timeLeft == Duration(s.mode) ==> p == 0.0
  {
    var d := Duration(s.mode) as real;
    assert Valid(s) ==> 0.0 <= (d - s.timeLeft as real) / d <= 1.0 by {
      if Valid(s) {
        FractionBounds(d - s.timeLeft as real, d);
      }
    }
    (d - s.timeLeft as real) / d * 100.0
  }

  lemma FractionBounds(x: real, d: real)
    requires 0.0 < d && 0.0 <= x <= d
    ensures 0.0 <= x / d <= 1.0
  {
  }

  /** `switchMode(m)`: the new mode at its full duration, stopped, with the
      session count kept. */
  function AfterSwitch(s: TimerState, m: Mode): (r: TimerState)
    ensures Valid(r) && r.timeLeft == Duration(r.mode) && Progress(r) == 0.0
    ensures r.mode == m && !r.isActive && r.completedSessions == s.completedSessions
  {
    TimerState(m, Duration(m), false, s.completedSessions)
  }

  /** `toggleTimer`: flips whether the countdown runs, with no check on the
      seconds left, so a finished timer can be set running again. */
  function AfterToggle(s: TimerState): (r: TimerState)
    ensures r.isActive != s.isActive
    ensures r.(isActive := s.isActive) == s
    ensures Valid(r) == Valid(s)
  {
    s.(isActive := !s.isActive)
  }

  /** `resetTimer`: the current mode back at its full duration, stopped. */
  function AfterReset(s: TimerState): (r: TimerState)
    ensures Valid(r) && r.timeLeft == Duration(r.mode) && Progress(r) == 0.0
    ensures r.mode == s.mode && !r.isActive && r.completedSessions == s.completedSessions
  {
    s.(isActive := false, timeLeft := Duration(s.mode))
  }

  /** The interval is only set up while the timer runs with time left. */
  predicate TickRuns(s: TimerState) {
    s.isActive && s.timeLeft > 0
  }

  /** One firing of the one-second interval. */
  function AfterTick(s: TimerState): (r: TimerState)
    ensures r.timeLeft == if TickRuns(s) then s.timeLeft - 1 else s.timeLeft
    ensures s.timeLeft >= 0 ==> r.timeLeft >= 0
    ensures Valid(s) ==> Valid(r)
    ensures r.mode == s.mode && r.isActive == s.isActive && r.completedSessions == s.completedSessions
  {
    if TickRuns(s) then s.(timeLeft := s.timeLeft - 1) else s
  }

  /** The interval's guard is exactly the condition under which a tick
      changes the state, and then it takes one second off. */
  lemma TickMovesIffRuns(s: TimerState)
    ensures AfterTick(s) != s <==> TickRuns(s)
    ensures TickRuns(s) ==> AfterTick(s).timeLeft == s.timeLeft - 1 && s.timeLeft > 0
  {
  }

  /** The completion step runs when the effect finds no interval to set up
      and no time left: that is whenever no time is left, running or not,
      and a tick then changes nothing. */
  predicate CompletionDue(s: TimerState)
    ensures CompletionDue(s) <==> s.timeLeft == 0
    ensures CompletionDue(s) ==> AfterTick(s) == s
  {
    !TickRuns(s) && s.timeLeft == 0
  }

  /** The synchronous part of `handleComplete`: the timer stops, and a focus
      interval adds one to the session count. */
  function AfterComplete(s: TimerState): (r: TimerState)
    ensures !r.isActive && r.mode == s.mode && r.timeLeft == s.timeLeft
    ensures r.completedSessions == if s.mode == Focus then s.completedSessions + 1 else s.completedSessions
    ensures Valid(s) ==> Valid(r)
  {
    s.(isActive := false,
       completedSessions := if s.mode == Focus then s.completedSessions + 1 else s.completedSessions)
  }

  /** What `onSessionComplete` receives from a completion: the new total, and
      only when a focus interval completed. */
  function SessionReport(s: TimerState): (r: Option<nat>)
    ensures r.Some? <==> s.mode == Focus
    ensures r.Some? ==> r.value == AfterComplete(s).completedSessions
  {
    if s.mode == Focus then Some(s.completedSessions + 1) else None
  }

  /** The mode the deferred switch after a completion goes to: a long break
      after every fourth focus session, a short break after the others, and
      focus after any break. */
  function NextMode(s: TimerState): (m: Mode)
    ensures s.mode != Focus ==> m == Focus
    ensures s.mode == Focus ==> m != Focus
    ensures s.mode == Focus ==> (m == LongBreak <==> AfterComplete(s).completedSessions % 4 == 0)
  {
    if s.mode == Focus then
      if (s.completedSessions + 1) % 4 == 0 then LongBreak else ShortBreak
    else
      Focus
  }

  lemma ToggleTwice(s: TimerState)
    ensures AfterToggle(AfterToggle(s)) == s
  {
  }

  /** A tick while stopped changes nothing. */
  lemma PausedTickIsNoop(s: TimerState)
    requires !s.isActive
    ensures AfterTick(s) == s
  {
  }

  /** Because `toggleTimer` has no guard, starting a timer that has run out
      neither ticks nor clears the completion condition: the completion step
      is due again. */
  lemma ToggleAtZeroLeavesCompletionDue(s: TimerState)
    requires s.timeLeft == 0
    ensures CompletionDue(AfterToggle(s)) && AfterTick(AfterToggle(s)) == AfterToggle(s)
  {
  }

  // ---------------------------------------------------------------------
  // Runs of ticks

  /** `n` firings of the interval. */
  function Ticks(s: TimerState, n: nat): TimerState
    decreases n
  {
    if n == 0 then s else Ticks(AfterTick(s), n - 1)
  }

  /** While the timer runs, each tick takes exactly one second off and
      changes nothing else. */
  lemma {:induction false} CountDown(s: TimerState, n: nat)
    requires s.isActive && n <= s.timeLeft
    ensures Ticks(s, n) == s.(timeLeft := s.timeLeft - n)
    decreases n
  {
    if n > 0 {
      CountDown(AfterTick(s), n - 1);
    }
  }

  /** Ticking never takes the timer below zero: once at zero, ticks do nothing. */
  lemma {:induction false} TicksStopAtZero(s: TimerState, n: nat)
    requires Valid(s)
    ensures Valid(Ticks(s, n))
    ensures s.isActive && n >= s.timeLeft ==> Ticks(s, n) == s.(timeLeft := 0)
    decreases n
  {
    if n > 0 {
      TicksStopAtZero(AfterTick(s), n - 1);
    }
  }

  // ---------------------------------------------------------------------
  // Arbitrary sequences of operations

  datatype Event = SwitchEvent(m: Mode) | ToggleEvent | ResetEvent | TickEvent | CompleteEvent

  function Apply(s: TimerState, e: Event): (r: TimerState)
    ensures r.completedSessions ==
      if e == CompleteEvent && s.mode == Focus then s.completedSessions + 1 else s.completedSessions
  {
    match e
    case SwitchEvent(m) => AfterSwitch(s, m)
    case ToggleEvent => AfterToggle(s)
    case ResetEvent => AfterReset(s)
    case TickEvent => AfterTick(s)
    case CompleteEvent => AfterComplete(s)
  }

  function Run(s: TimerState, es: seq<Event>): TimerState
    decreases |es|
  {
    if es == [] then s else Run(Apply(s, es[0]), es[1..])
  }

  /** Whatever the user and the scheduler do, the seconds left stay within
      the current mode's duration. */
  lemma {:induction false} RunKeepsValid(s: TimerState, es: seq<Event>)
    requires Valid(s)
    ensures Valid(Run(s, es))
    decreases |es|
  {
    if es != [] {
      RunKeepsValid(Apply(s, es[0]), es[1..]);
    }
  }

  /** How many completion steps in `es` find the timer in focus mode. */
  function FocusCompletions(s: TimerState, es: seq<Event>): nat
    decreases |es|
  {
    if es == [] then 0
    else (if es[0] == CompleteEvent && s.mode == Focus then 1 else 0)
         + FocusCompletions(Apply(s, es[0]), es[1..])
  }

  /** The session counter never goes down and grows by exactly the number
      of focus completions, at most one per operation. */
  lemma {:induction false} RunCountsSessions(s: TimerState, es: seq<Event>)
    ensures Run(s, es).completedSessions == s.completedSessions + FocusCompletions(s, es)
    ensures FocusCompletions(s, es) <= |es|
    decreases |es|
  {
    if es != [] {
      RunCountsSessions(Apply(s, es[0]), es[1..]);
    }
  }

  // ---------------------------------------------------------------------
  // Whole intervals and rounds

  /** Where a started interval ends: still marked running, with no time
      left. `Interval` proves that the ticks of a started timer lead here. */
  function RunOut(s: TimerState): TimerState
    requires s.timeLeft >= 0
  {
    s.(isActive := true, timeLeft := 0)
  }

  /** The completion step followed by its deferred switch. */
  function Finish(s: TimerState): (r: TimerState)
    ensures Valid(r) && !r.isActive
    ensures r.mode == NextMode(s) && r.timeLeft == Duration(r.mode)
    ensures r.completedSessions == s.completedSessions + (if s.mode == Focus then 1 else 0)
  {
    AfterSwitch(AfterComplete(s), NextMode(s))
  }

  /** One whole interval: a stopped timer is started, runs out, completes and
      is switched to the next mode, stopped at that mode's full duration
      (the timer does not start itself). */
  lemma Interval(s: TimerState)
    requires !s.isActive && s.timeLeft >= 0
    ensures Ticks(AfterToggle(s), s.timeLeft) == RunOut(s)
    ensures CompletionDue(RunOut(s))
    ensures Finish(RunOut(s)) ==
      TimerState(NextMode(s), Duration(NextMode(s)), false, AfterComplete(s).completedSessions)
  {
    CountDown(AfterToggle(s), s.timeLeft);
  }

  /** Focus at full duration with `k` sessions done, stopped. */
  function FocusReady(k: nat): (s: TimerState)
    ensures Valid(s)
  {
    TimerState(Focus, Duration(Focus), false, k)
  }

  /** A round: a focus interval and the break that follows it. */
  function Round(s: TimerState): (r: TimerState)
    requires s.timeLeft >= 0
    ensures Valid(r)
  {
    var b := Finish(RunOut(s));
    Finish(RunOut(b))
  }

  /** A round from focus takes the long break after every fourth session,
      and ends back in focus, stopped, with one more session counted. */
  lemma RoundFromFocus(k: nat)
    ensures Finish(RunOut(FocusReady(k))).mode == if (k + 1) % 4 == 0 then LongBreak else ShortBreak
    ensures Round(FocusReady(k)) == FocusReady(k + 1)
  {
    var s := FocusReady(k);
    Interval(s);
    Interval(Finish(RunOut(s)));
  }

  function Rounds(s: TimerState, n: nat): (r: TimerState)
    requires s.timeLeft >= 0
    ensures r.timeLeft >= 0
    decreases n
  {
    if n == 0 then s else Rounds(Round(s), n - 1)
  }

  /** One round taken off the front of `n` rounds from focus. */
  lemma RoundsStep(k: nat, n: nat)
    requires n > 0
    ensures Rounds(FocusReady(k), n) == Rounds(FocusReady(k + 1), n - 1)
  {
    RoundFromFocus(k);
  }

  /** From a fresh timer, `n` rounds leave `n` sessions counted and the timer
      in focus, stopped, at full duration. */
  lemma {:induction false} RoundsFromStart(n: nat)
    ensures Rounds(Initial(), n) == FocusReady(n)
  {
    RoundsFromFocus(0, n);
  }

  lemma {:induction false} RoundsFromFocus(k: nat, n: nat)
    ensures Rounds(FocusReady(k), n) == FocusReady(k + n)
    decreases n
  {
    if n > 0 {
      RoundsStep(k, n);
      RoundsFromFocus(k + 1, n - 1);
    }
  }

  /** The first focus session of a fresh timer: 1500 ticks after the start
      the timer has run out, the count is 1, and the deferred switch goes to
      a stopped five-minute short break. */
  lemma FirstSession()
    ensures Ticks(AfterToggle(Initial()), 1500).timeLeft == 0
    ensures SessionReport(RunOut(Initial())) == Some(1)
    ensures Finish(RunOut(Initial())) == TimerState(ShortBreak, 300, false, 1)
  {
    Interval(Initial());
  }

  /** From a fresh timer, the focus session that follows `k` whole rounds is
      session `k + 1`; its deferred switch goes to a stopped long break
      exactly when `k + 1` is a multiple of four, and to a stopped short
      break otherwise. */
  lemma BreakAfterRounds(k: nat)
    ensures var b := Finish(RunOut(Rounds(Initial(), k)));
      && b.completedSessions == k + 1 && !b.isActive && b.timeLeft == Duration(b.mode)
      && (b.mode == LongBreak <==> (k + 1) % 4 == 0)
      && (b.mode == ShortBreak <==> (k + 1) % 4 != 0)
  {
    RoundsFromStart(k);
    Interval(FocusReady(k));
  }

  // ---------------------------------------------------------------------
  // The timer component

  class PomodoroTimer {
    var mode: Mode
    var timeLeft: int
    var isActive: bool
    var completedSessions: nat

    function State(): TimerState
      reads this
    {
      TimerState(mode, timeLeft, isActive, completedSessions)
    }

    constructor ()
      ensures State() == Initial()
    {
      mode := Focus;
      timeLeft := 25 * 60;
      isActive := false;
      completedSessions := 0;
    }

    method SwitchMode(newMode: Mode) returns (notice: ModeNotice)
      modifies this
      ensures State() == AfterSwitch(old(State()), newMode)
      ensures notice == ModeNotice(newMode, false)
    {
      mode := newMode;
      timeLeft := Duration(newMode);
      isActive := false;
      notice := ModeNotice(newMode, false);
    }

    /** Returns the mode the deferred switch is to go to and what is passed
        to `onSessionComplete`, if anything. */
    method HandleComplete() returns (next: Mode, report: Option<nat>)
      modifies this
      ensures State() == AfterComplete(old(State()))
      ensures next == NextMode(old(State()))
      ensures report == SessionReport(old(State()))
    {
      isActive := false;
      if mode == Focus {
        var newCompletedSessions := completedSessions + 1;
        completedSessions := newCompletedSessions;
        report := Some(newCompletedSessions);
        next := if newCompletedSessions % 4 == 0 then LongBreak else ShortBreak;
      } else {
        report := None;
        next := Focus;
      }
    }

    /** Returns whether the interval was running, that is whether a second
        was taken off. */
    method Tick() returns (ticked: bool)
      modifies this
      ensures ticked == TickRuns(old(State()))
      ensures State() == AfterTick(old(State()))
    {
      ticked := isActive && timeLeft > 0;
      if ticked {
        timeLeft := timeLeft - 1;
      }
    }

    method ToggleTimer()
      modifies this
      ensures State() == AfterToggle(old(State()))
    {
      isActive := !isActive;
    }

    method ResetTimer()
      modifies this
      ensures State() == AfterReset(old(State()))
    {
      isActive := false;
      timeLeft := Duration(mode);
    }
  }
}
