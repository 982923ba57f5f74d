# CosmicTime focus timer: a Dafny model

This project models the parts of the CosmicTime productivity page that carry
real logic:

- **The Pomodoro timer** (`src/components/PomodoroTimer.tsx`). It is a
  countdown with four pieces of state: the mode (focus, short break or long
  break), the seconds left, whether it is running, and the number of
  completed focus sessions. Its operations are switching mode, start/pause
  (one toggle), reset, the one-second tick and the completion step. The
  completion step counts focus sessions and picks the next mode: a long break
  after every fourth focus session, a short break after the others, and focus
  after any break. It also has a `MM:SS` clock face and a progress
  percentage.
- **The daily goals widget** (`src/components/DailyProgress.tsx`). It keeps a
  list of goals, and goal 1 follows the session count. Goals can be added
  (blank input is ignored) and ticked off. It shows an overall completion
  percentage and a greeting chosen by the hour.
- **The task list** (`src/components/TaskList.tsx`). Tasks are added, ticked
  off and deleted by id.

There is one module per source file (`Pomodoro`, `Goals`, `Tasks`), plus
`Strings`. `Strings` gives the JavaScript string operations the widgets use
(`trim`, integer `toString`, `padStart`) with JavaScript's meaning.

Each module has a class that holds the component's state fields
(`PomodoroTimer`, `DailyProgress`, `TaskList`). Most state updates are also
written as pure functions of the old state, for example `Pomodoro.AfterTick`,
`Goals.SyncGoals` and `Tasks.DeleteTasks`, and each such method is proved to
leave exactly the state its function describes. The others (adding a goal or
a task, and the input setters) state the new state directly in their
`ensures`.

The component's promises are proved as lemmas about the functions. For the
timer these are:

- the seconds left stay within the mode's duration under any sequence of
  operations;
- the session counter grows by exactly one per focus completion;
- the break policy;
- whole focus/break rounds from a fresh timer.

The model takes these things as explicit inputs:

- **Tick.** The one-second interval is an explicit call (`Tick`).
- **Deferred switch.** After a completion the source waits 500 ms and then
  switches mode. Here that is an explicit call of `SwitchMode` with the mode
  that `HandleComplete` returns.
- **Notifications.** The `onModeChange` arguments come back from
  `SwitchMode`. The `onSessionComplete` argument comes back from
  `HandleComplete`.
- **Clock.** `Date.now()` ids and the current hour are parameters.

Three points of the timer's behaviour shape what the model claims:

- **Start has no guard.** Start/pause is a single toggle with no check on the
  seconds left (`PomodoroTimer.tsx:116-118`). A finished timer can therefore
  be set running again, and the completion step is then due again
  (`Pomodoro.ToggleAtZeroLeavesCompletionDue`).
- **A tick does not complete the interval.** A tick only takes a second off.
  Completion is a separate step that runs when no time is left
  (`PomodoroTimer.tsx:103-105`). Between the tick that reaches zero and the
  completion step, the timer is still marked running. So "not running
  whenever no time is left" does not hold in the code, and the model does
  not claim it. Its invariant is `Pomodoro.Valid`: the seconds left stay
  between zero and the mode's duration.
- **Completion can run more than once.** Nothing in the code limits the
  completion step to one run per interval (see "Left out"). So the model
  makes completion a step of its own and claims nothing about how often it
  runs.

## Model

| member | source | states |
|---|---|---|
| `Pomodoro.Duration` | src/components/PomodoroTimer.tsx:24-28 | every mode's duration is a positive whole number of minutes, given in seconds (25, 5 and 15 minutes) |
| `Pomodoro.WholeMinutes` | src/components/PomodoroTimer.tsx:43 | `Math.floor(seconds / 60)`: the largest `m` with `m * 60 <= seconds` |
| `Pomodoro.SecondsPart` | src/components/PomodoroTimer.tsx:44 | JavaScript's `seconds % 60`: strictly between -60 and 60; for a non-negative count it is below 60 and `minutes * 60 + seconds` gives the count back; for a negative count it is not positive |
| `Strings.IntToString` | src/components/PomodoroTimer.tsx:45 | `toString` on an integer: its decimal digits, after a minus sign when negative |
| `Strings.PadStart` | src/components/PomodoroTimer.tsx:45 | `padStart(2, "0")`: the text ends with the original, is at least two long, and only fill characters come before it |
| `Pomodoro.FormatTime` | src/components/PomodoroTimer.tsx:42-46 | for a non-negative count the face has a colon third from the end; it is exactly five characters (`MM:SS`, minutes padded to two digits) exactly when the count is below 100 minutes, and a longer face has no leading zero |
| `Pomodoro.FormatTimeRoundTrip` | src/components/PomodoroTimer.tsx:42-46 | for every non-negative count, reading the face back as minutes, colon and two second digits below 60 gives exactly that count |
| `Pomodoro.Initial` | src/components/PomodoroTimer.tsx:15-18 | a fresh timer is in focus mode with no sessions counted, stopped, at that mode's full duration, inside the bound |
| `Pomodoro.Progress` | src/components/PomodoroTimer.tsx:133 | the progress lies in [0, 100] whenever the seconds left are within the bound; it is 100 with no time left and 0 at full duration |
| `Pomodoro.AfterSwitch` | src/components/PomodoroTimer.tsx:48-53 | switching mode gives the new mode at its full duration, stopped, with progress 0 and the session count kept |
| `Pomodoro.AfterToggle` | src/components/PomodoroTimer.tsx:116-118 | toggling flips whether the timer runs, with no guard on the seconds left; every other field (mode, seconds left, session count) is unchanged, so the bound holds afterwards exactly when it held before |
| `Pomodoro.ToggleTwice` | src/components/PomodoroTimer.tsx:116-118 | toggling twice restores the state |
| `Pomodoro.AfterReset` | src/components/PomodoroTimer.tsx:125-128 | reset stops the timer at its mode's full duration, with progress 0; mode and session count are unchanged |
| `Pomodoro.TickRuns` | src/components/PomodoroTimer.tsx:93 | the interval is set up exactly while the timer runs with time left |
| `Pomodoro.TickMovesIffRuns` | src/components/PomodoroTimer.tsx:93-95 | a tick changes the state exactly when the interval's guard holds, and then takes one second off a positive count |
| `Pomodoro.AfterTick` | src/components/PomodoroTimer.tsx:93-95 | a tick takes exactly one second off when the timer runs with time left, and changes nothing otherwise; it never takes the time below zero and keeps the bound |
| `Pomodoro.CompletionDue` | src/components/PomodoroTimer.tsx:93-105 | the effect reaches the completion step exactly when no time is left, running or not, and a tick then changes nothing |
| `Pomodoro.PausedTickIsNoop` | src/components/PomodoroTimer.tsx:93 | a tick while the timer is stopped changes nothing |
| `Pomodoro.ToggleAtZeroLeavesCompletionDue` | src/components/PomodoroTimer.tsx:103-105 | starting a timer with no time left neither ticks nor clears the completion condition |
| `Pomodoro.AfterComplete` | src/components/PomodoroTimer.tsx:55-60 | completion stops the timer; a focus completion adds exactly one to the session count and a break completion adds nothing; mode and time are untouched |
| `Pomodoro.SessionReport` | src/components/PomodoroTimer.tsx:59-61 | `onSessionComplete` is called exactly on focus completions, with the new total |
| `Pomodoro.NextMode` | src/components/PomodoroTimer.tsx:68-85 | after focus the deferred switch goes to a break, long exactly when the new total is a multiple of 4; after a break it goes to focus |
| `Pomodoro.CountDown` | src/components/PomodoroTimer.tsx:90-102 | while running, `n` ticks take exactly `n` seconds off and change nothing else |
| `Pomodoro.TicksStopAtZero` | src/components/PomodoroTimer.tsx:93-95 | any number of ticks keeps the bound, and a running timer given enough ticks rests at zero |
| `Pomodoro.Apply` | src/components/PomodoroTimer.tsx:48-128 | of all operations, only completing in focus mode changes the session count, and it adds one |
| `Pomodoro.RunKeepsValid` | src/components/PomodoroTimer.tsx:48-128 | under any sequence of switches, toggles, resets, ticks and completions the seconds left stay within the current mode's duration |
| `Pomodoro.RunCountsSessions` | src/components/PomodoroTimer.tsx:55-61 | over any sequence of operations the session count grows by exactly the number of focus completions, at most one per operation, and never drops |
| `Pomodoro.Finish` | src/components/PomodoroTimer.tsx:55-88 | completion followed by its deferred switch: stopped in the next mode at its full duration, with one more session exactly after focus |
| `Pomodoro.Interval` | src/components/PomodoroTimer.tsx:55-88 | the ticks of a started interval take it to no time left, still marked running, with the completion due; its deferred switch leaves the next mode stopped at full duration: nothing starts by itself |
| `Pomodoro.RoundFromFocus` | src/components/PomodoroTimer.tsx:68 | a focus interval followed by its break takes the long break exactly after every fourth session and ends in focus with one more session |
| `Pomodoro.RoundsFromFocus` | src/components/PomodoroTimer.tsx:55-88 | `n` whole rounds from focus with `k` sessions end in focus, stopped, at full duration, with `k + n` sessions |
| `Pomodoro.RoundsFromStart` | src/components/PomodoroTimer.tsx:15-18 | `n` whole rounds from a fresh timer leave exactly `n` sessions |
| `Pomodoro.FirstSession` | src/components/PomodoroTimer.tsx:55-75 | 1500 ticks after starting a fresh timer no time is left, session 1 is reported, and the switch goes to a stopped 300-second short break |
| `Pomodoro.BreakAfterRounds` | src/components/PomodoroTimer.tsx:68 | after `k` rounds from a fresh timer, the next focus session is number `k + 1`; its break is long exactly when `k + 1` is a multiple of 4, short otherwise, and stopped at full duration |
| `Pomodoro.PomodoroTimer.constructor` | src/components/PomodoroTimer.tsx:15-18 | the fields start as the fresh timer |
| `Pomodoro.PomodoroTimer.SwitchMode` | src/components/PomodoroTimer.tsx:48-53 | the fields become the switched state, and `onModeChange` gets the new mode and "not running" |
| `Pomodoro.PomodoroTimer.HandleComplete` | src/components/PomodoroTimer.tsx:55-88 | the fields become the completed state; it returns the deferred switch's target and what `onSessionComplete` receives |
| `Pomodoro.PomodoroTimer.Tick` | src/components/PomodoroTimer.tsx:93-95 | the fields become the ticked state, and it reports whether a second was taken off |
| `Pomodoro.PomodoroTimer.ToggleTimer` | src/components/PomodoroTimer.tsx:116-118 | the fields become the toggled state |
| `Pomodoro.PomodoroTimer.ResetTimer` | src/components/PomodoroTimer.tsx:125-128 | the fields become the reset state |
| `Strings.Trim` | src/components/DailyProgress.tsx:80 | `trim()` is a contiguous piece of the text with only whitespace before and after it; it is empty exactly when the text is all whitespace, and otherwise neither starts nor ends with whitespace |
| `Goals.InitialGoals` | src/components/DailyProgress.tsx:17-21 | the day starts with goals 1, 2 and 3, none completed; goal 1 targets 4 and starts at the session count, goals 2 and 3 target 1 |
| `Goals.SyncGoals` | src/components/DailyProgress.tsx:35-43 | goal 1 takes the session count and is completed exactly when the count reaches its target; other goals, the length and the order are unchanged |
| `Goals.SyncGoalsIdempotent` | src/components/DailyProgress.tsx:35-43 | running the sync again with the same count changes nothing |
| `Goals.ToggleGoals` | src/components/DailyProgress.tsx:95-101 | exactly the goals with the id flip their completed flag; every other field, the length and the order are unchanged |
| `Goals.ToggleGoalsTwice` | src/components/DailyProgress.tsx:95-101 | toggling the same id twice restores the list |
| `Goals.CompletedGoals` | src/components/DailyProgress.tsx:48 | the filter keeps exactly the completed goals and is no longer than the list |
| `Goals.CompletedGoalsSplit` | src/components/DailyProgress.tsx:48 | the completed goals of `a + b` are those of `a` followed by those of `b` |
| `Goals.CompletedGoalsOne` | src/components/DailyProgress.tsx:48 | a single goal is kept exactly when it is completed; with the split this fixes the filter's order and count |
| `Goals.AllKeptIffAllCompleted` | src/components/DailyProgress.tsx:48 | the filter keeps every goal exactly when every goal is completed |
| `Goals.TodayProgress` | src/components/DailyProgress.tsx:46-50 | the percentage lies in [0, 100] and is 0 for an empty list |
| `Goals.FullProgressIffAllCompleted` | src/components/DailyProgress.tsx:46-50 | a non-empty list is at 100 percent exactly when all its goals are completed |
| `Goals.ZeroProgressIffNoneCompleted` | src/components/DailyProgress.tsx:46-50 | a list is at 0 percent exactly when none of its goals is completed |
| `Goals.SessionGoalProgress` | src/components/DailyProgress.tsx:17-50 | the starting list is at 0 percent; once goal 1 has followed four or more sessions it is completed and the day is at one third |
| `Goals.Greeting` | src/components/DailyProgress.tsx:103-108 | "Good morning" exactly before 12, "Good afternoon" exactly from 12 to before 17, "Good evening" exactly from 17 on |
| `Goals.DailyProgress.constructor` | src/components/DailyProgress.tsx:17-23 | the widget starts with the initial goals, an empty input and the input hidden |
| `Goals.DailyProgress.Progress` | src/components/DailyProgress.tsx:46-50 | the `todayProgress` value lies in [0, 100]; it is 0 for no goals and exactly when none is completed, and 100 for a non-empty list exactly when all are completed |
| `Goals.DailyProgress.SyncSessions` | src/components/DailyProgress.tsx:35-43 | the goal list becomes the synced list; the input is untouched |
| `Goals.DailyProgress.SetNewGoal` | src/components/DailyProgress.tsx:185 | typing sets the input and changes nothing else |
| `Goals.DailyProgress.ToggleAddGoal` | src/components/DailyProgress.tsx:173 | the plus button flips whether the input is shown and changes nothing else |
| `Goals.DailyProgress.AddGoal` | src/components/DailyProgress.tsx:79-93 | all-whitespace input changes nothing; otherwise exactly one goal is appended after the untouched old goals, with the trimmed (non-empty) text, not completed, target 1, current 0; the input is then cleared and hidden |
| `Goals.DailyProgress.ToggleGoal` | src/components/DailyProgress.tsx:95-101 | the goal list becomes the toggled list; the input is untouched |
| `Tasks.ToggleTasks` | src/components/TaskList.tsx:25-31 | exactly the tasks with the id flip their completed flag; ids, texts, the length and the order are unchanged |
| `Tasks.ToggleTasksTwice` | src/components/TaskList.tsx:25-31 | toggling the same id twice restores the list |
| `Tasks.ToggleAbsentId` | src/components/TaskList.tsx:25-31 | toggling an id no task has changes nothing |
| `Tasks.DeleteTasks` | src/components/TaskList.tsx:33-35 | no task with the id is left, every other task is kept, and nothing is added |
| `Tasks.DeleteKeepsOrder` | src/components/TaskList.tsx:33-35 | deleting from `a + b` gives what is left of `a` followed by what is left of `b`, so kept tasks stay in their original order |
| `Tasks.DeleteChangesNothingIffAbsent` | src/components/TaskList.tsx:33-35 | deleting leaves the list as it was exactly when no task has the id |
| `Tasks.DeleteIdempotent` | src/components/TaskList.tsx:33-35 | deleting the same id twice equals deleting it once |
| `Tasks.TaskList.constructor` | src/components/TaskList.tsx:11-12 | the list and the input start empty |
| `Tasks.TaskList.SetInputValue` | src/components/TaskList.tsx:44 | typing sets the input and leaves the tasks alone |
| `Tasks.TaskList.AddTask` | src/components/TaskList.tsx:14-23 | all-whitespace input leaves tasks and input unchanged; otherwise exactly one task is appended after the untouched old tasks, with the input text untrimmed and not completed, and the input is cleared |
| `Tasks.TaskList.ToggleTask` | src/components/TaskList.tsx:25-31 | the task list becomes the toggled list; the input is untouched |
| `Tasks.TaskList.DeleteTask` | src/components/TaskList.tsx:33-35 | the task list becomes the list without the id; the input is untouched |

## Left out

- Timers and scheduling are not modelled: `setInterval`, `setTimeout`, the 500 ms settle delay and effect re-runs. The tick and the deferred switch are explicit calls.
- Single completion is not claimed. The completion effect (`PomodoroTimer.tsx:103-105`) runs on every render while no time is left. `durations` is rebuilt on every render (`PomodoroTimer.tsx:24-28`), so `switchMode` and `handleComplete` change each time and the effect re-runs. The source therefore does not ensure one completion per interval, and the model claims none.
- A deferred switch can overwrite a manual change made during the settle delay. Nothing in the model queues pending switches: the caller decides when to call `SwitchMode(next)`.
- The mode tabs are disabled while the timer runs (`PomodoroTimer.tsx:230`). This is a guard in the rendered buttons, not in `switchMode`. `SwitchMode` has no guard, because the deferred switch calls it regardless.
- The effect that calls `onModeChange(mode, isActive)` whenever either changes (`PomodoroTimer.tsx:112-114`) is not modelled. Only the direct call inside `switchMode` is (`ModeNotice`).
- `Pomodoro.PomodoroTimer.Tick`: the interval callback itself subtracts one without a check (`PomodoroTimer.tsx:95`). The model applies the guard under which the interval exists (`isActive && timeLeft > 0`, line 93). A stale interval firing after that guard fails is not modelled.
- Cosmetic state is left out: confetti (uses `Math.random`), the pulse flag, `isTransitioning`, `console.log` messages, and SVG dash offsets (use π).
- `Pomodoro.Progress` and `Goals.TodayProgress` are exact rationals. The source computes them as IEEE doubles; floating-point rounding is not modelled. `todayProgress` is also shown rounded with `Math.round` (`DailyProgress.tsx:142` and `:244`), and that display rounding is not modelled either. The timer's progress is not rounded: it feeds the SVG dash offset (`PomodoroTimer.tsx:195`).
- `Strings.IsWhitespace` covers JavaScript's whitespace and line-terminator characters. JavaScript strings are UTF-16 code units, and Dafny characters are Unicode scalar values. All characters that `trim` removes are single code units, so the two agree on them.
- The clock in `src/components/DailyProgress.tsx` is not modelled: the one-second `currentTime` update, the 12/24-hour toggle, and `toLocaleTimeString`/`toLocaleDateString`. The hour is a parameter of `Goals.Greeting`, and `Date.now()` ids are parameters of `AddGoal` and `AddTask`.
- Id uniqueness is not modelled. New goals and tasks take a clock reading as their id, and nothing stops two items from sharing one. Toggle and delete act on every item with the given id, as the source's `map` and `filter` do.
- The session count that `src/pages/Index.tsx` passes from the timer to the goals widget is not modelled as wiring. `SyncSessions` takes it as a parameter.
- Not part of this model: `src/components/AmbientAudioMixer.tsx` (Web Audio wiring with floating-point gains), `src/components/ParticleBackground.tsx` (floating-point animation and canvas drawing), `src/components/SpotifyIntergration.tsx`, `src/components/SettingsPanel.tsx` and `src/contexts/ThemeContext.tsx` (browser, clipboard and storage wrappers), and the presentation-only files `src/pages/Index.tsx`, `src/App.tsx`, `src/components/TaskItem.tsx`, `src/hooks/use-mobile.ts` and `src/components/ui/*`.
