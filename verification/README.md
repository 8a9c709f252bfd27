# FocusTimer: a verified model of the Pomodoro timer

The repository's focus timer (`app.js`) is a Pomodoro clock. It counts down a
focus session, then a short break, and after every few sessions a long break.
It also keeps a session counter and some statistics. This project models its
`FocusTimer` class in Dafny without the page, the browser timers, audio or
storage. What remains is the state machine:

- the current mode (`focus`, `short-break`, `long-break`);
- the running and paused flags;
- the countdown `timeLeft` and its starting value `totalTime`;
- the session counter and the statistics counters;
- the browser intervals that drive the countdown;
- the delayed auto-starts that are scheduled and have not yet run.

The texts the page shows are modelled too: the countdown as `MM:SS` and the
total focus time as `Hh Mm`.

Files:

- `js_runtime.dfy` (module `JsRuntime`) holds the JavaScript behaviour the
  timer relies on: the truncating `%`, `toString()` of an integer and
  `padStart`. It also has `DigitsValue`, which reads digits back as a number,
  with the lemma that `toString` followed by reading back gives the number
  again.
- `timer_display.dfy` (module `TimerDisplay`) splits a count with floor
  division and `%`, formats it, and parses it back. The round trips are
  proved.
- `timer_spec.dfy` (module `FocusTimerSpec`) holds the state as a `Timer`
  value and one function per transition. It also holds the invariant
  `Valid`, the lemmas for what each transition promises, and lemmas over
  arbitrary sequences of events (`Run`).
- `focus_timer.dfy` (module `FocusTimerApp`) holds the class `FocusTimer`.
  Its fields and methods follow the JavaScript class. Each transition
  method (`SetMode`, `StartTimer`, `ResumeTimer`, `PauseTimer`,
  `ResetTimer`, `Tick`, `CompleteSession`, `AutoAdvanceMode`,
  `FireAutoStart`, `SaveSettings`, and the constructor) is proved to produce
  exactly the state the matching `FocusTimerSpec` function gives and to keep
  `Valid`, so the lemmas about those functions hold of the class.
  `LoadSettings`, `LoadStats` and `StartInterval` state their new fields and
  that nothing else changes; the display methods change nothing and state
  what their texts read back as.

Real time is replaced by explicit calls:
- `Tick` is one run of the `setInterval` callback. It may only be called
  while an interval is live.
- `FireAutoStart` is the delayed `startTimer` that `autoAdvanceMode`
  schedules with `setTimeout`. The model counts these in `pendingStarts`.
- Each `setInterval` and `clearInterval` updates `Intervals`. Its `held`
  field says whether the handle stored in `timerInterval` is still live.
  Its `orphans` field counts live intervals whose handle was overwritten.

## Model

| member | source | states |
|---|---|---|
| `FocusTimerApp.FocusTimer.constructor` | app.js:4-43 | The new timer is the `Init` state for the given saved settings, saved statistics and new-day flag, and it satisfies the invariant. |
| `FocusTimerApp.FocusTimer.LoadSettings` | app.js:356-360 | Every key present in the saved settings overrides the current value. No saved object means the settings stay as they are. No other field changes. |
| `FocusTimerApp.FocusTimer.LoadStats` | app.js:375-388 | Saved statistics keys override the current ones. On a new day, today's session count becomes 0. No other field changes. |
| `FocusTimerSpec.InitSpec` | app.js:4-31 | A fresh timer is valid, idle, in focus mode, with 0 sessions, and counts down 1500 seconds whatever focus length was loaded. Today's count is 0 on a new day. A saved focus length is taken over. Without saved settings the defaults apply. |
| `FocusTimerApp.FocusTimer.SetMode` | app.js:124-154 | The new state is `SetMode` of the old one, and the invariant is kept. |
| `FocusTimerSpec.SetModeSpec` | app.js:124-152 | While running, nothing changes. Otherwise the mode becomes the requested one and `totalTime` becomes that mode's minutes × 60. `timeLeft` becomes `totalTime`, and no other field changes. |
| `FocusTimerApp.FocusTimer.StartInterval` | app.js:170-178 | Corrected: it clears the held interval first (app.js:171 does not), then a new interval becomes the held one. Orphaned intervals are untouched, and no other field changes. |
| `FocusTimerApp.FocusTimer.StartTimer` | app.js:156-179 | The new state is `Start` of the old one (a paused timer is resumed), and the invariant is kept. |
| `FocusTimerApp.FocusTimer.ResumeTimer` | app.js:193-211 | The new state is `Resume` of the old one, and the invariant is kept. |
| `FocusTimerSpec.StartSpec` | app.js:156-163 | After a start the timer is running, not paused, and has exactly one live interval. The countdown, its starting value and the mode are unchanged. |
| `FocusTimerApp.FocusTimer.PauseTimer` | app.js:181-191 | The new state is `Pause` of the old one, and the invariant is kept. |
| `FocusTimerSpec.PauseSpec` | app.js:181-185 | After a pause the timer is not running, is paused and has no live interval. The countdown, mode, session count and statistics are unchanged. |
| `FocusTimerSpec.PauseThenStartRestores` | app.js:156-195 | Pausing a running timer and then starting it gives back exactly the state it had. It is running and not paused, with the same countdown, mode and interval. |
| `FocusTimerApp.FocusTimer.ResetTimer` | app.js:213-227 | The new state is `Reset` of the old one, and the invariant is kept. |
| `FocusTimerSpec.ResetSpec` | app.js:213-219 | After a reset the timer is neither running nor paused and has no live interval. `timeLeft == totalTime`, and the mode, settings, session count and statistics are unchanged. |
| `FocusTimerApp.FocusTimer.Tick` | app.js:171-178 | Callable only while an interval is live. The new state is `Tick` of the old one, and the invariant is kept. |
| `FocusTimerSpec.TickCountsDown` | app.js:172-177 | With more than one second left, a tick lowers `timeLeft` by exactly 1 and changes nothing else. |
| `FocusTimerSpec.TickCompletes` | app.js:172-177 | A tick that brings `timeLeft` to 0 or below is exactly the decrement followed by `completeSession`. The timer stops, the next mode is loaded, and `timeLeft == totalTime ==` that mode's minutes × 60. |
| `FocusTimerApp.FocusTimer.CompleteSession` | app.js:229-268 | The new state is `CompleteSession` of the old one, and the invariant is kept. |
| `FocusTimerSpec.CompletionAdvances` | app.js:229-231 | Completion clears the running flag before switching, so the switch is never blocked. The result is stopped and in `NextMode` of the old mode and the updated session count, with that mode's full duration loaded and the settings unchanged. |
| `FocusTimerSpec.CompletionCounters` | app.js:254-260 | A finished focus session adds 1 to `sessionCount`, `totalSessions`, `todaySessions` and `streak`, and the focus length to `totalFocusTime`. A finished break changes none of them. |
| `FocusTimerSpec.CompletionSchedulesAutoStart` | app.js:283-286 | A delayed start is scheduled exactly when breaks start automatically and the finished session was a focus session. Equivalently, the setting is on and the new mode is a break. |
| `FocusTimerApp.FocusTimer.AutoAdvanceMode` | app.js:270-287 | The new state is `AutoAdvance` of the old one, and the invariant is kept. |
| `FocusTimerSpec.NextModeRule` | app.js:270-281 | After a break comes focus, and after focus comes a break. The break is long exactly when the setting `n` is not 0 and `sessionCount % abs(n) == 0`. A setting of 0, where JavaScript's `%` gives NaN, never gives a long break. |
| `FocusTimerSpec.LongBreakEveryNth` | app.js:273-277 | Of the first `k` focus sessions, exactly `k / abs(n)` are followed by a long break (every `abs(n)`-th one). With a setting of 0, none is. |
| `FocusTimerApp.FocusTimer.FireAutoStart` | app.js:285 | Callable only while a delayed start is pending. It consumes that start and calls `startTimer`, and the invariant is kept. |
| `FocusTimerApp.FocusTimer.SaveSettings` | app.js:338-354 | The new state is `SaveSettings` of the old one, and the invariant is kept. |
| `FocusTimerSpec.SaveSettingsSpec` | app.js:348-351 | While running, only the settings change. Otherwise the current mode's new duration is loaded, and the mode and flags are kept. |
| `FocusTimerSpec.StepPreservesValid` | app.js:124-287 | Every event keeps the invariant. |
| `FocusTimerSpec.RunPreservesValid` | app.js:124-287 | After any sequence of events the invariant still holds. `timeLeft <= totalTime`, and a timer that is not running has no live interval. |
| `FocusTimerSpec.RunCountersLockstep` | app.js:254-260 | Over any sequence of events the session count never decreases. `totalSessions`, `todaySessions` and `streak` grow by exactly as much as it does. |
| `FocusTimerApp.FocusTimer.UpdateDisplay` | app.js:289-295 | A non-negative countdown is shown as text that parses back to `timeLeft`. Below 100 minutes that text is exactly five characters (`MM:SS`). A negative countdown is shown with a leading minus sign. The session count is shown as its decimal digits. |
| `FocusTimerApp.FocusTimer.UpdateStats` | app.js:390-398 | A non-negative total focus time is shown as `Hh Mm` text that parses back to it. The three session counters are shown as their decimal digits. |
| `TimerDisplay.SplitSixty` | app.js:290-291 | For `n >= 0` the split gives `0 <= low < 60`, `high >= 0` and `high * 60 + low == n`: seconds into minutes and seconds here, minutes into hours and minutes at app.js:393-394. For `n < 0`, `high` is negative and `low` is in (-60, 0]. |
| `TimerDisplay.FormatClock` | app.js:292 | Below 100 minutes the countdown text is five characters with the colon at index 2. A negative countdown's text starts with a minus sign. |
| `TimerDisplay.FormatFocusTime` | app.js:395 | The focus-time text is at least four characters and ends in `m`. A negative total's text starts with a minus sign. |
| `TimerDisplay.ClockRoundTrip` | app.js:290-292 | For `t >= 0` the `MM:SS` text parses back to `t`. The seconds part is exactly two digits below 60, and the whole text is five characters when `t < 6000`. |
| `TimerDisplay.FocusTimeRoundTrip` | app.js:393-395 | For `total >= 0` the `Hh Mm` text parses back to `total`. |
| `JsRuntime.JsRem` | app.js:291 | JavaScript's `%`: the result differs from the dividend by a multiple of `abs(b)`. It lies in [0, abs(b)) for a non-negative dividend and in (-abs(b), 0] for a negative one, so it takes the dividend's sign. |
| `JsRuntime.DecimalDigits` | app.js:292 | `toString()` of a non-negative integer is a non-empty run of digits with no leading zero. It has one digit below 10 and two digits from 10 to 99. |
| `JsRuntime.DecimalRoundTrip` | app.js:292 | Reading back the digits `toString()` wrote gives the number again. |
| `JsRuntime.NumberToString` | app.js:292 | `toString()` of a non-negative integer is its decimal digits. A negative integer gives a minus sign followed by the digits of its magnitude. The same conversion shows the counters at app.js:295 and app.js:391-398. |
| `JsRuntime.NumberReadBack` | app.js:292 | What `toString()` writes reads back as the number: all of it for a non-negative integer, and the part after the minus sign as the magnitude for a negative one. |
| `JsRuntime.PadStart` | app.js:292 | `padStart(w, c)` has length `max(len, w)`, ends with the original string, and is filled with `c` before it. |
| `JsRuntime.ZeroPadValue` | app.js:292 | Zero-padding a digit string keeps its value. |
| `FocusTimerSpec.AsWrittenStartLeaksInterval` | app.js:171 | As written, Pause (or Reset) and then Start, pressed after a completed session and before its delayed auto-start fires, leave an orphaned interval once the auto-start runs. After a further pause that interval still fires, and each tick lowers the paused countdown. |
| `FocusTimerSpec.StartTwiceKeepsOneInterval` | app.js:171 | With the corrected start, the same sequences keep exactly one live interval while running and none once paused. |

## Left out

- DOM updates are not modelled: button visibility, status text, CSS classes, page navigation, the mobile menu, notifications, the completion animation and the settings form. They only affect the page.
- `setInterval`, `setTimeout` and `clearInterval` scheduling is not modelled. The tick and the delayed auto-start are explicit calls (`Tick`, `FireAutoStart`). The notification's auto-hide and the animation's timeouts are left out because they only affect the page.
- The Web Audio beep is left out; it is a foreign floating-point API. `soundEnabled` is kept as a setting that nothing reads.
- `localStorage` and JSON are not modelled: `saveSettings`'s and `saveStats`'s writes, and the stored last-reset date. Loaded objects are given as patches of optional fields, and the new-day test is a boolean input. Malformed JSON and keys of the wrong type are left out.
- `parseInt` of the form fields is not modelled. Settings are plain integers and booleans, so a NaN from an empty field is not represented. Only the setting 0 for sessions before a long break, where `%` gives NaN, is modelled.
- Mode names arrive from the page as strings. The model has only the three modes the mode buttons offer.
- The progress circle is left out; it uses floating-point division.
- The weekly chart is left out (it uses `Math.random` for mock data and builds HTML), and so is the `weeklyData` statistics field, which nothing changes.
- Service-worker registration is left out.
- The field `sessionsBeforeLongBreak` set in the constructor (app.js:11) is never read; the long-break rule uses the setting. It is not modelled.
- Numbers are unbounded integers. The loss of precision of JavaScript numbers above 2^53 is not modelled.
- TimerDisplay.ClockRoundTrip: proved only for a non-negative countdown. A negative countdown prints as, e.g., `-1:-1`; `FormatClock` and `SplitSixty` state only its signs. It occurs when a mode's duration is negative (`setMode` loads it into `timeLeft`, and it stays on display while the timer is idle), and for one tick after a start with a duration of 0.
- FocusTimerApp.FocusTimer.StartTimer: follows the corrected start described under Findings, not the code as written.
- FocusTimerApp.FocusTimer.StartInterval: clears the held interval before starting a new one; app.js:171 does not (see Findings, and `FocusTimerSpec.SetIntervalAsWritten` for the code as written).
- The repository's other widgets (dictionary, calendar/todo, task list) are not part of this model.

## Findings

| source | as written | input that shows it | evidently intended | confidence | as-written member | corrected member |
|---|---|---|---|---|---|---|
| app.js:171 | `startTimer` assigns a new `setInterval` handle to `timerInterval` without clearing the one already held. | Enable auto-start breaks and let a focus session finish, which schedules `startTimer` one second later. The Start button stays hidden (app.js:166) and Pause stays shown, so within that second press Pause (app.js:188 shows Start again) and then Start; Reset (app.js:222) then Start works too. The delayed call then runs `startTimer` on the running timer, which starts a second interval and orphans the first. After Pause, the orphan still ticks: the paused countdown keeps falling, and at 0 it completes the session. | At most one interval is live, and none while the timer is paused or stopped (clear the held interval first, or ignore start while running). | not executed; high | `FocusTimerSpec.AsWrittenStartLeaksInterval` (with `StartAsWritten`) | `FocusTimerSpec.StartTwiceKeepsOneInterval` (with `Start`, used by the class and `RunPreservesValid`) |
