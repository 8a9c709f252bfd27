/**
 * The `FocusTimer` class of app.js with the page, the browser timers,
 * audio and storage taken out. Each method updates the fields as the
 * JavaScript method does. Each transition method is proved to produce
 * exactly the state the matching function of `FocusTimerSpec` gives and to
 * keep `Valid`, so every lemma proved there holds of the class. The two
 * display methods change nothing and return the texts that `updateDisplay`
 * and `updateStats` write into the page.
 */
module FocusTimerApp {
  import opened JsRuntime
  import opened TimerDisplay
  import opened FocusTimerSpec

  /** A non-negative counter is shown as its decimal digits. */
  predicate ShowsCount(text: string, n: int) {
    n >= 0 ==> IsDigits(text) && DigitsValue(text) == n
  }

  class FocusTimer {
    var currentMode: Mode
    var isRunning: bool
    var isPaused: bool
    var timeLeft: int
    var totalTime: int
    var sessionCount: nat
    var settings: Settings
    var stats: Stats
    /** The live intervals behind `timerInterval`. */
    var intervals: Intervals
    /** Delayed `startTimer` calls scheduled and not yet run. */
    var pendingStarts: nat

    function State(): Timer
      reads this
    {
      Timer(currentMode, isRunning, isPaused, timeLeft, totalTime, sessionCount,
            settings, stats, intervals, pendingStarts)
    }

    predicate Valid()
      reads this
    {
      FocusTimerSpec.Valid(State())
    }

    /** The constructor and `init`: defaults, then the saved settings and
        statistics. */
    constructor (savedSettings: Option<SettingsPatch>, savedStats: Option<StatsPatch>, newDay: bool)
      ensures State() == Init(savedSettings, savedStats, newDay)
      ensures Valid()
    {
      currentMode := Focus;
      isRunning := false;
      isPaused := false;
      timeLeft := 25 * 60;
      totalTime := 25 * 60;
      sessionCount := 0;
      settings := DefaultSettings;
      stats := InitialStats;
      intervals := Intervals(false, 0);
      pendingStarts := 0;
      new;
      LoadSettings(savedSettings);
      LoadStats(savedStats, newDay);
    }

    /** `loadSettings`: saved keys override the current settings. */
    method LoadSettings(saved: Option<SettingsPatch>)
      modifies this
      ensures settings == if saved.Some? then MergeSettings(old(settings), saved.value) else old(settings)
      ensures State() == old(State()).(settings := settings)
    {
      if saved.Some? {
        settings := MergeSettings(settings, saved.value);
      }
    }

    /** `loadStats`: saved keys override the current statistics, and today's
        count is cleared on a new day. */
    method LoadStats(saved: Option<StatsPatch>, newDay: bool)
      modifies this
      ensures var loaded := if saved.Some? then MergeStats(old(stats), saved.value) else old(stats);
        stats == if newDay then loaded.(todaySessions := 0) else loaded
      ensures State() == old(State()).(stats := stats)
    {
      if saved.Some? {
        stats := MergeStats(stats, saved.value);
      }
      if newDay {
        stats := stats.(todaySessions := 0);
      }
    }

    method SetMode(mode: Mode)
      requires Valid()
      modifies this
      ensures State() == FocusTimerSpec.SetMode(old(State()), mode)
      ensures Valid()
    {
      if isRunning {
        return;
      }
      currentMode := mode;
      match mode {
        case Focus => totalTime := settings.focusTime * 60;
        case ShortBreak => totalTime := settings.shortBreakTime * 60;
        case LongBreak => totalTime := settings.longBreakTime * 60;
      }
      timeLeft := totalTime;
    }

    /** `this.timerInterval = setInterval(tick, 1000)`, corrected: it clears
        the held interval first, which app.js:171 does not (see
        `FocusTimerSpec.SetIntervalAsWritten`). */
    method StartInterval()
      modifies this
      ensures State() == old(State()).(intervals := SetInterval(old(intervals)))
    {
      intervals := ClearInterval(intervals);
      intervals := intervals.(held := true);
    }

    method StartTimer()
      requires Valid()
      modifies this
      ensures State() == Start(old(State()))
      ensures Valid()
    {
      if isPaused {
        ResumeTimer();
        return;
      }
      isRunning := true;
      isPaused := false;
      StartInterval();
    }

    method ResumeTimer()
      requires Valid()
      modifies this
      ensures State() == Resume(old(State()))
      ensures Valid()
    {
      isRunning := true;
      isPaused := false;
      StartInterval();
    }

    method PauseTimer()
      requires Valid()
      modifies this
      ensures State() == Pause(old(State()))
      ensures Valid()
    {
      isRunning := false;
      isPaused := true;
      intervals := ClearInterval(intervals);
    }

    method ResetTimer()
      requires Valid()
      modifies this
      ensures State() == Reset(old(State()))
      ensures Valid()
    {
      isRunning := false;
      isPaused := false;
      intervals := ClearInterval(intervals);
      timeLeft := totalTime;
    }

    /** One run of the interval callback; only a live interval runs it. */
    method Tick()
      requires Valid() && LiveIntervals(intervals) > 0
      modifies this
      ensures State() == FocusTimerSpec.Tick(old(State()))
      ensures Valid()
    {
      timeLeft := timeLeft - 1;
      if timeLeft <= 0 {
        CompleteSession();
      }
    }

    method CompleteSession()
      requires Valid()
      modifies this
      ensures State() == FocusTimerSpec.CompleteSession(old(State()))
      ensures Valid()
    {
      isRunning := false;
      isPaused := false;
      intervals := ClearInterval(intervals);
      if currentMode == Focus {
        sessionCount := sessionCount + 1;
        stats := stats.(
          totalSessions := stats.totalSessions + 1,
          totalFocusTime := stats.totalFocusTime + settings.focusTime,
          todaySessions := stats.todaySessions + 1,
          streak := stats.streak + 1);
      }
      AutoAdvanceMode();
    }

    method AutoAdvanceMode()
      requires Valid()
      modifies this
      ensures State() == AutoAdvance(old(State()))
      ensures Valid()
    {
      if currentMode == Focus {
        if LongBreakDue(sessionCount, settings.sessionsBeforeLongBreak) {
          SetMode(LongBreak);
        } else {
          SetMode(ShortBreak);
        }
      } else {
        SetMode(Focus);
      }
      if settings.autoStartBreaks && currentMode != Focus {
        pendingStarts := pendingStarts + 1;
      }
    }

    /** The delayed `startTimer` call scheduled by `AutoAdvanceMode` runs. */
    method FireAutoStart()
      requires Valid() && pendingStarts > 0
      modifies this
      ensures State() == FocusTimerSpec.FireAutoStart(old(State()))
      ensures Valid()
    {
      pendingStarts := pendingStarts - 1;
      StartTimer();
    }

    /** `saveSettings`, given the values read from the form. */
    method SaveSettings(s: Settings)
      requires Valid()
      modifies this
      ensures State() == FocusTimerSpec.SaveSettings(old(State()), s)
      ensures Valid()
    {
      settings := s;
      if !isRunning {
        SetMode(currentMode);
      }
    }

    /** The countdown and session-count texts of `updateDisplay`. */
    method UpdateDisplay() returns (timerText: string, sessionText: string)
      ensures timeLeft >= 0 ==> ParseClock(timerText) == Some(timeLeft)
      ensures 0 <= timeLeft < 6000 ==> |timerText| == 5
      ensures timeLeft < 0 ==> |timerText| >= 1 && timerText[0] == '-'
      ensures ShowsCount(sessionText, sessionCount)
    {
      timerText := FormatClock(timeLeft);
      sessionText := NumberToString(sessionCount);
      if timeLeft >= 0 {
        ClockRoundTrip(timeLeft);
      }
      NumberReadBack(sessionCount);
    }

    /** The four statistics texts of `updateStats`. */
    method UpdateStats() returns (totalSessionsText: string, focusTimeText: string, todayText: string, streakText: string)
      ensures ShowsCount(totalSessionsText, stats.totalSessions)
      ensures stats.totalFocusTime >= 0 ==> ParseFocusTime(focusTimeText) == Some(stats.totalFocusTime)
      ensures ShowsCount(todayText, stats.todaySessions)
      ensures ShowsCount(streakText, stats.streak)
    {
      totalSessionsText := NumberToString(stats.totalSessions);
      focusTimeText := FormatFocusTime(stats.totalFocusTime);
      todayText := NumberToString(stats.todaySessions);
      streakText := NumberToString(stats.streak);
      if stats.totalFocusTime >= 0 {
        FocusTimeRoundTrip(stats.totalFocusTime);
      }
      NumberReadBack(stats.totalSessions);
      NumberReadBack(stats.todaySessions);
      NumberReadBack(stats.streak);
    }
  }
}
