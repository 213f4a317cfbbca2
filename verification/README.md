# Pomodoro session engine, modelled in Dafny

This project models the core of a single-user Pomodoro timer: the server-side session engine
(`pomodoro/services.py`) with its duration guard (`pomodoro/validators.py`) and its two tables
(`pomodoro/models.py`), and the integer part of the browser timer (`static/js/timer.js`).

- `wrappers.dfy` — `Option`, `Result` and `Outcome`. They stand for None, a raised error and a
  guard that returns or raises.
- `validators.dfy` (module `Validators`) — `validate_duration` over a model of the Python value it
  receives. That value is an int, a bool (an int in Python), a float (finite, ±inf or NaN) or
  anything else.
- `models.dfy` (module `Models`) — the `pomodoro_sessions` and `daily_stats` rows, the `type`,
  `status` and `mode` enumerations, the defaults, and the `to_dict` projections with their inverses.
- `services.dfy` (module `Services`) — the engine itself:
  - The store is a sequence of session rows plus a map from UTC day number to that day's stat row.
  - `Start`, `Stop`, `Complete`, `StateOf` and `EntryFor` say, as functions on a store value, what
    each service does.
  - The class `SessionStore` keeps the two tables as fields. Its methods update them in place and
    are proved to agree with those functions and to keep the store invariant (`DbValid`): at most
    one active session, ids equal to row numbers, well-formed rows, one stat row per date.
  - The clock is an explicit parameter `now`, in whole seconds since the epoch. "Today" is
    `now / 86400`.
- `decimal.dfy` (module `Decimal`) — the decimal text of a non-negative integer, as JavaScript
  renders integers below 2^53, and reading it back.
- `timer.dfy` (module `TimerUI`) — the page script:
  - the `m:ss` timer text;
  - the `{h}時間{m}分` total-time text;
  - the button rule;
  - the countdown (`startCountdown`, its interval callback, `stopCountdown`);
  - `updateUI`, in the class `TimerPage`, whose fields are the script's globals and the DOM state
    it writes.

The properties proved include:
- every service keeps "at most one active session", and so does any sequence of service calls
  (`RunKeepsValid`);
- validation precedes the conflict check;
- stop is idempotent;
- completion accumulates into today's row and counters never decrease;
- `get_state` reports the remaining time or completes an expired session;
- the weekly and monthly windows have the right length, order and contents;
- the timer and total-time texts read back to the numbers they show;
- the countdown goes down by one per tick and stops at zero.

The repository's tests (tests/test_tags.py, tests/test_long_break.py, tests/test_auth.py,
tests/test_logging.py, tests/test_socketio.py) exercise tags, long breaks with a cycle counter,
per-user ownership, structured logging and change broadcasts. The code modelled here has none of
these, so the model follows the code.

## Model

| member | source | states |
|---|---|---|
| Validators.ValidateDuration | pomodoro/validators.py:12-29 | A non-number is refused as "not a number" before any range check. A number below 1 (or -inf) is too short; one above 240 (or +inf) is too long. It passes exactly when it is a finite number in [1, 240], or NaN. |
| Validators.NaNPassesValidation | pomodoro/validators.py:25-29 | NaN is no number in [1, 240], yet it passes both range guards. |
| Validators.CheckDuration | pomodoro/validators.py:12-29 | Corrected guard: passes exactly the finite numbers in [1, 240]. Refuses NaN as not a number. Agrees with validate_duration on every other input. |
| Validators.ValidationExamples | tests/test_validators.py:6-61 | 1, 240, 25 and 25.5 pass. 0 and -1 are too short; 241 and 1000 too long; a non-number is refused as such. True passes as 1; False is too short. |
| Models.ParseType | pomodoro/models.py:10 | Only "focus" and "break" are session types, and each reads back to its own name. |
| Models.ParseStatus | pomodoro/models.py:15 | Only "active", "completed" and "aborted" are statuses, and each reads back to its own name. |
| Models.NamesRoundTrip | pomodoro/models.py:10-15 | Every type and status name reads back to the value it names. |
| Models.NewSession | pomodoro/services.py:21-27 | The row the start services build: status active (the column default at models.py:15) and no end_at (nullable at models.py:14). Its planned end is start plus duration. |
| Models.NewDailyStat | pomodoro/models.py:32-34 | A new stat row has both counters at their default 0. |
| Models.SessionToDict | pomodoro/models.py:17-26 | The dictionary has exactly the seven keys. `end_at` is null exactly when the session has no end. id, type and status are carried over. |
| Models.SessionDictRoundTrip | pomodoro/models.py:17-26 | Every field of a session is recovered from its dictionary. |
| Models.StatToDict | pomodoro/models.py:36-41 | The dictionary has exactly date, total_focus_seconds and completed_focus_count. |
| Models.StatDictRoundTrip | pomodoro/models.py:36-41 | Every field of a stat row is recovered from its dictionary. |
| Services.RouteStatusSeparatesErrors | pomodoro/routes.py:12-18 | The start routes' test for 'Duration' or 'minute' in the error message answers every validation error with 400 and the conflict with 409. |
| Services.FirstActive | pomodoro/services.py:87 | Finds the first session with status active, or reports that none is active. |
| Services.FindById | pomodoro/services.py:65 | Finds the row with the given id, or reports that no row has it. |
| Services.ValidationBeforeConflict | pomodoro/services.py:10-17 | An out-of-range duration fails with its validation error, even while a session is active. The store is unchanged. |
| Services.StartConflict | pomodoro/services.py:15-17 | With a valid duration and a session of either type active, a start fails with the conflict. The store, including the active session, is untouched. |
| Services.StartAppends | pomodoro/services.py:19-30 | A successful start appends exactly one session: the requested type, status active, no end, duration minutes*60, start now, planned end now + duration. Earlier rows and stats are unchanged. |
| Services.StartKeepsValid | pomodoro/services.py:14-30 | A start, successful or not, keeps at most one session active. It also keeps ids, well-formed rows and one stat row per day. |
| Services.StopAbortsActive | pomodoro/services.py:56-61 | Stop turns the active session, if any, into aborted with end = now. Every other row and the stats stay as they were. |
| Services.StopLeavesNoneActive | pomodoro/services.py:56-61 | After a stop no session is active. |
| Services.StopIdempotent | pomodoro/services.py:56-61 | A second stop, at any time, changes nothing. |
| Services.StopKeepsValid | pomodoro/services.py:56-61 | Stop keeps the store invariant. |
| Services.CompleteNoOp | pomodoro/services.py:64-67 | Completing an unknown id, or a session that is not active, changes nothing. |
| Services.CompleteActive | pomodoro/services.py:69-82 | The active session becomes completed with end = now. A focus session adds 1 to today's count and its planned duration to today's total; a missing row starts at 0/0 and other days are untouched. A break leaves the stats unchanged. |
| Services.CompleteCountersNeverDecrease | pomodoro/services.py:72-82 | Completion never removes a day's row and never lowers either counter. |
| Services.CompleteKeepsValid | pomodoro/services.py:64-82 | Completion keeps the store invariant. |
| Services.StateWhileRunning | pomodoro/services.py:85-98 | While the active session has time left, the state shows its type and planned_end_at - now seconds, which is positive. If the clock is not behind the session's start, it is also at most the planned duration. Nothing changes. |
| Services.StateCompletesExpired | pomodoro/services.py:89-96 | Once the planned end is reached, the state completes the session exactly as complete_session does. It then reports idle with 0 seconds. |
| Services.StateWhenIdle | pomodoro/services.py:99-101 | With no active session the state is idle with 0 seconds, and nothing changes. |
| Services.StateCountsAreToday | pomodoro/services.py:103-112 | The counts come from today's row after the query, or are 0 when there is none. |
| Services.StateIdleIffNoTime | pomodoro/services.py:93-101 | The state is idle exactly when it reports 0 seconds left. |
| Services.StateKeepsValid | pomodoro/services.py:85-112 | The state query, including its implicit completion, keeps the store invariant. |
| Services.EntryForMeaning | pomodoro/services.py:132-149 | A window entry copies that day's row or is all zeros. Its completion rate is 1.0 exactly when focus_count > 0, and 0.0 exactly when it is 0. |
| Services.RunKeepsValid | pomodoro/services.py:10-112 | Any sequence of starts, stops, completions and state queries keeps at most one session active, and keeps the rest of the store invariant. |
| Services.TwoFocusSessionsAccumulate | pomodoro/services.py:72-82 | Two focus sessions of 25 and 30 minutes completed on one day leave that day at count 2 and 3300 seconds. |
| Services.SessionStore.StartFocus | pomodoro/services.py:10-30 | Updates the tables exactly as Start does for a focus session (default 25 minutes) and returns its result. Keeps the invariant. |
| Services.SessionStore.StartBreak | pomodoro/services.py:33-53 | Updates the tables exactly as Start does for a break (default 5 minutes) and returns its result. Keeps the invariant. |
| Services.SessionStore.StartSession | pomodoro/services.py:12-30 | The shared start body: validate, check for conflict, append. Agrees with Start and keeps the invariant. |
| Services.SessionStore.StopActiveSession | pomodoro/services.py:56-61 | Updates the tables exactly as Stop does. Never fails and keeps the invariant. |
| Services.SessionStore.CompleteSession | pomodoro/services.py:64-82 | Updates the tables exactly as Complete does and keeps the invariant. |
| Services.SessionStore.GetState | pomodoro/services.py:85-112 | Returns the snapshot and leaves the tables as StateOf says, including the implicit completion. Keeps the invariant. |
| Services.SessionStore.WindowStats | pomodoro/services.py:128-151 | Returns one entry per day of the trailing window ending today, oldest first. Each entry is that day's entry. |
| Services.SessionStore.GetWeeklyStats | pomodoro/services.py:115-151 | Exactly 7 entries with dates today-6 … today, strictly ascending. Each is that day's row or zeros, with the binary rate. |
| Services.SessionStore.GetMonthlyStats | pomodoro/services.py:154-190 | Exactly 30 entries with dates today-29 … today, strictly ascending. Each is that day's row or zeros, with the binary rate. |
| Decimal.DecimalRoundTrip | static/js/timer.js:117-120 | The decimal text of a number reads back to that number. |
| TimerUI.PadStart2 | static/js/timer.js:156 | Strings of two or more characters are kept. Shorter ones are left-filled with '0' to exactly two characters. |
| TimerUI.TimerTextMeaning | static/js/timer.js:153-157 | The timer text is the whole minutes, a colon, and exactly two digits. The two digits hold the seconds within the minute. |
| TimerUI.HoursMinutes | static/js/timer.js:118-119 | Minutes are below 60, and hours*60 + minutes is the total in whole minutes. |
| TimerUI.TotalTimeRoundTrip | static/js/timer.js:118-120 | The total-time text reads back to the total in whole minutes. It names hours exactly when the total is at least one hour. |
| TimerUI.ButtonsFor | static/js/timer.js:105-114 | Start and break are enabled exactly when idle. Stop is disabled exactly when idle. |
| TimerUI.TicksWhenStopped | static/js/timer.js:146-151 | Once the interval is cleared, no further tick changes anything. |
| TimerUI.CountdownRunsDown | static/js/timer.js:135-143 | From r seconds, each tick lowers the count by exactly 1. At 0 the countdown is still running, the next tick stops it, and the count never goes negative. |
| TimerUI.TimerPage.constructor | static/js/timer.js:2-4 | The globals start as idle, 0 seconds and no interval. |
| TimerUI.TimerPage.UpdateTimerDisplay | static/js/timer.js:153-157 | The timer text becomes the m:ss text of the given seconds. |
| TimerUI.TimerPage.StartCountdown | static/js/timer.js:132-135 | Afterwards an interval is registered. An existing one is kept, and nothing else changes. |
| TimerUI.TimerPage.StopCountdown | static/js/timer.js:146-151 | Afterwards no interval is registered, whatever the state before, so it is idempotent. Nothing else changes. |
| TimerUI.TimerPage.OnTick | static/js/timer.js:135-143 | One callback firing. With seconds left, it counts down by one and redraws. At 0 it clears the interval. The count never becomes negative. |
| TimerUI.TimerPage.UpdateUI | static/js/timer.js:86-129 | Adopts mode and seconds from the state and sets status, buttons, count and total-time text. Keeps a countdown running exactly when the mode is not idle and time remains. Otherwise it stops the countdown and shows the remaining seconds. |

## Findings

| source | as written | input that shows it | evidently intended | confidence | as-written member | corrected member |
|---|---|---|---|---|---|---|
| pomodoro/validators.py:25-29 | The range guards use `<` and `>`, and both are false for NaN, so NaN passes validation. | `validate_duration(float('nan'))`. A JSON body `{"duration_minutes": NaN}` is accepted by Python's JSON reader and reaches it. | NaN is refused like every other non-number. | high for the validator (Python comparison semantics); not executed | Validators.NaNPassesValidation | Validators.CheckDuration |

The services use the corrected guard. On the integer minutes they take, it decides exactly as
`validate_duration` does.

## Left out

- Wall-clock time and time zones: `now` is an integer number of UTC seconds passed to every
  operation. The naive-datetime fix in get_state is not needed.
- Sub-second time: the source truncates the remaining time with `int(...)`, so it completes a
  session with less than one second left. With whole-second timestamps, that truncation is exact
  subtraction.
- Float minutes in the services: `Start` takes integer minutes. A float such as 25.5 is modelled
  only by the validator; in the source it would give a float `planned_duration_sec`.
- ISO-8601 rendering: `isoformat()` is represented by the `JTime`/`JDate` JSON variants. Weekly and
  monthly entries carry the day number rather than its text; ascending day numbers are ascending
  ISO dates.
- Database mechanics: sessions, commits and transactions are not modelled. The check-then-insert
  is modelled sequentially, so the race between two concurrent starts is out of scope.
- Weekly/monthly query: the range query and the lookup dictionary built from it are folded into a
  direct lookup in the day map. Their result is the same.
- HTTP layer: the routes in pomodoro/routes.py are not modelled beyond their choice of 400 or 409
  by substring, which `RouteStatus` states over the `StartError` variants; JSON parsing and the
  response bodies are left out. The request defaults are the constants
  `FOCUS_DEFAULT_MINUTES` and `BREAK_DEFAULT_MINUTES`. app.py is not part of this model.
- Tags, long breaks, cycle counts, per-user ownership, structured logging and change broadcasts:
  the modelled code has none of them.
- The page script's `fetch` calls and their error alerts are not modelled. This includes
  `fetchState` after the countdown ends and the one-minute resynchronisation.
- Page behaviour left out: the aria labels, the stroke colours, keyboard handling and the
  progress ring's floating-point arithmetic.
- TimerUI.TimerPage.StartCountdown: the interval handle is modelled as a boolean "registered";
  the handle's number has no effect on behaviour.
- TimerUI.TimerPage.OnTick: it requires a registered interval, because the browser fires the
  callback only until `clearInterval`.
- TimerUI.TimerPage.constructor: the texts and buttons before the first update come from the
  page markup, which is not part of this model.
- JavaScript number width: `Decimal.DecimalText` writes plain digits for every natural number,
  whereas JavaScript switches to exponent form from 1e21 and loses exactness above 2^53. The timer
  values of this core stay far below both limits.
- static/js/stats.js, static/js/theme.js and config.py are not part of this model. They are
  chart and theme DOM code and a table of constants.
