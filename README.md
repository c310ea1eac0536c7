# Daily tasks tracker: the checklist, cooldown lock and progress engine

This project models the non-presentational logic of the `ProgressTracker`
React component. It is a daily checklist of three tasks. Once every task is
checked and the 12-hour cooldown since the last completion has passed, the
Done button raises a progress percentage by 5, capped at 100. It also stamps
the completion time, counts the day and resets the checklist. A lock check,
run on mount and every second, decides whether the tracker is locked and how
long remains. The remaining time is shown as `HHh MMm SSs`.

Modules:

- `Options`: `Option<T>`, which stands in for JavaScript's `null`.
- `Tasks`: the `Task` record, the three-entry `InitialTasks` template,
  `AllTasksCompleted` (`tasks.every`) and `ToggleTask` (the `map` in the
  toggle handler).
- `Lock`: the 12-hour `HALF_DAY_IN_MS` constant and `TimeUntilUnlock`
  (`getTimeUntilUnlock`). It also holds `LockAt`, the decision of
  `checkLockStatus`, and `InCooldown`, an independent reference definition of
  the cooldown.
- `Progress`: `NextProgress` (`Math.min(100, p + 5)`) and `MaxDays`
  (`Math.ceil(100 / 5)`). It also holds the streak pills and the "next day"
  placeholder.
- `Countdown`: `FormatTime` with JavaScript's truncating `%`, `toString` and
  `padStart`. `ParseCountdown` reads the text back, and the round trip is
  proved.
- `Tracker`: the component's state and its operations as transitions
  (`CheckLock`, `Toggle`, `Done`, `Step`). It also holds the class
  `ProgressTracker`, whose methods update the fields in place, and lemmas
  about whole runs of events: progress bounds, the day count, and the
  cooldown being enforced.

The wall clock (`Date.now()`) is a `now` parameter. Saved values are
constructor parameters. The one-second timer is the `TickEvent` event, or a
call to `CheckLockStatus`.

Three points where the code's behaviour is easy to misread; the model follows the code:

- A `lastDoneTime` of 0 counts as "never done", because the test is
  `!lastDoneTime`. A completion stamped at time 0 would therefore not lock,
  and no cooldown follows it.
- `handleDone` tests the `isLocked` flag stored by the most recent lock
  check. It does not recompute the lock from the clock. The model keeps that
  flag as state. `LockInvariant` shows that the stored flag can only err on
  the locked side, so the cooldown is still enforced.
- Progress grows monotonically only when it starts at or below 100. A larger
  saved value is brought down to 100 by the next completion.

## Model

| member | source | states |
|---|---|---|
| Tasks.AllTasksCompleted | src/pages/ProgressTracker.jsx:87 | true exactly when every task in the list is checked, including the empty list |
| Tasks.ToggleTask | src/pages/ProgressTracker.jsx:100-106 | keeps length, order, id, text and color of every entry; an entry's checked flag changes exactly when its id matches |
| Tasks.InitialTasksUnchecked | src/pages/ProgressTracker.jsx:8-14 | the template has three entries, all unchecked, so it is never all completed |
| Tasks.ToggleUnknownId | src/pages/ProgressTracker.jsx:102-104 | toggling an id that no entry carries returns the list unchanged |
| Tasks.ToggleTwice | src/pages/ProgressTracker.jsx:100-106 | toggling the same id twice restores the original list |
| Tasks.ToggleCommutes | src/pages/ProgressTracker.jsx:100-106 | toggles of two ids give the same list in either order |
| Lock.NeverDone | src/pages/ProgressTracker.jsx:18 | the falsy test `!lastDoneTime` holds exactly for no stamp or a stamp of 0 |
| Lock.TimeUntilUnlock | src/pages/ProgressTracker.jsx:17-21 | 0 when never done (no stamp or stamp 0); otherwise now plus the result is the stamp plus 12 hours; positive exactly in the cooldown; at most 12 hours once the clock has reached the stamp |
| Lock.LockAt | src/pages/ProgressTracker.jsx:65-75 | locked exactly in the cooldown, then with a positive timer that reaches the unlock time; unlocked with a timer of 0 otherwise |
| Lock.LockWindow | src/pages/ProgressTracker.jsx:64-75 | for a stamp t other than 0: locked with 0 < timer <= 12h on [t, t+12h), unlocked with timer 0 from t+12h on |
| Lock.CountsDown | src/pages/ProgressTracker.jsx:65-75 | while locked, the timer at an earlier time exceeds the later one by exactly the elapsed time |
| Progress.NextProgress | src/pages/ProgressTracker.jsx:113 | the result is at most 100; exactly the start plus 5 when that stays within 100; never below a start of at most 100; strictly above a start below 100; either 100 or the start plus 5 |
| Progress.ProgressAfterClosedForm | src/pages/ProgressTracker.jsx:6 | n completions from 0 give min(100, 5n) |
| Progress.CeilDiv | src/pages/ProgressTracker.jsx:188 | the least integer r with a <= r*b (`Math.ceil(a / b)` for b > 0) |
| Progress.MaxDays | src/pages/ProgressTracker.jsx:188 | the fewest completions whose increments reach 100 |
| Progress.MaxDaysIsTwenty | src/pages/ProgressTracker.jsx:188 | maxDays is 20 |
| Progress.MaxDaysReachesGoal | src/pages/ProgressTracker.jsx:6 | maxDays completions from 0 reach 100 exactly, one fewer does not |
| Progress.DayPills | src/pages/ProgressTracker.jsx:199-206 | pills 1..dayCount are completed (none for a negative count), followed by an open pill for day dayCount+1 exactly when dayCount < maxDays |
| Progress.PlaceholderUntilGoal | src/pages/ProgressTracker.jsx:204 | the placeholder is shown exactly while dayCount completions from 0 leave progress below 100 |
| Countdown.JsRem | src/pages/ProgressTracker.jsx:94-95 | JavaScript's remainder: the dividend minus a multiple of b, within [0, b) for a non-negative dividend and within (-b, 0] for a negative one (so the truncated remainder exactly), equal to Dafny's `%` on non-negatives |
| Countdown.SplitTime | src/pages/ProgressTracker.jsx:92-95 | for ms >= 0: minutes and seconds in 0..59, hours >= 0, and hours*3600 + minutes*60 + seconds == floor(ms/1000) |
| Countdown.NatToString | src/pages/ProgressTracker.jsx:96 | a non-empty digit string that denotes n with no leading zero; one digit below 10, two from 10 to 99 |
| Countdown.IntToString | src/pages/ProgressTracker.jsx:96 | a non-negative number renders as digits denoting it with no leading zero, one or two wide below 100; a negative one as a minus sign followed by digits denoting its magnitude |
| Countdown.PadStart | src/pages/ProgressTracker.jsx:96 | the result is max(width, length) long, ends with the input and is fill characters before it |
| Countdown.TwoDigits | src/pages/ProgressTracker.jsx:96 | every field is at least two wide; a non-negative field renders as digits denoting it, exactly two wide below 100, with no leading zero from 10 on |
| Countdown.JoinFields | src/pages/ProgressTracker.jsx:96 | the text is the hour field, "h ", the minute field, "m ", the second field and "s", each at its own position |
| Countdown.ClockRoundTrip | src/pages/ProgressTracker.jsx:96 | three fields with minutes and seconds below 60 render as text that reads back as their total seconds |
| Countdown.FormatTime | src/pages/ProgressTracker.jsx:91-97 | the text is at least 11 characters, exactly 11 below 100 hours; for ms >= 0 it reads back, through the independent parser, as floor(ms/1000) seconds |
| Tracker.DoneButtonEnabled | src/pages/ProgressTracker.jsx:87-88 | enabled exactly when every task is checked and the stored lock flag is down |
| Tracker.CheckLock | src/pages/ProgressTracker.jsx:65-75 | the four persisted fields are unchanged; locked exactly in the cooldown; a positive timer reaching the unlock time when locked, 0 otherwise |
| Tracker.Toggle | src/pages/ProgressTracker.jsx:100-106 | the checklist becomes the toggled list and nothing else changes |
| Tracker.Done | src/pages/ProgressTracker.jsx:109-122 | no change unless enabled; otherwise progress becomes min(100, progress + 5) (at most 100 and not lower), stamp is now, day count +1, checklist reset to the all-unchecked template, lock fields kept, and the button is no longer enabled |
| Tracker.Step | src/pages/ProgressTracker.jsx:78-122 | a toggle keeps the lock and stamp; a lock check keeps tasks and stamp and sets the flag exactly in the cooldown; an event that does not fire keeps progress and day count, and an unfired Done click changes nothing; the stamp changes only when a completion fires, to the click's time, and the lock is then re-evaluated at that time |
| Tracker.StepCounts | src/pages/ProgressTracker.jsx:109-122 | an event that fires raises progress by NextProgress and the day count by one; any other event leaves both alone |
| Tracker.RunCounts | src/pages/ProgressTracker.jsx:113-117 | over any run from any start, day count grows by the number of completions; when the start progress is <= 100, progress is min(100, start + 5 * completions) |
| Tracker.ProgressMonotone | src/pages/ProgressTracker.jsx:113 | along any run from a start <= 100, progress never decreases and never exceeds 100 |
| Tracker.CheckLockEstablishes | src/pages/ProgressTracker.jsx:77-81 | after a lock check at time now, the flag is up whenever now is within the cooldown |
| Tracker.StepPreservesLock | src/pages/ProgressTracker.jsx:64-122 | every event that keeps to a non-decreasing clock preserves that lock invariant |
| Tracker.CooldownEnforced | src/pages/ProgressTracker.jsx:87-110 | in every chronological run from a state meeting the invariant, each completion comes at least 12 hours after the previous stamp |
| Tracker.CompletionLocks | src/pages/ProgressTracker.jsx:109-122 | a completion at any time other than 0, with an up-to-date flag, locks for exactly 12 hours, stamps now and disables the button |
| Tracker.CountdownAtMostTwelveHours | src/pages/ProgressTracker.jsx:215 | once the clock has reached the stamp, the countdown shows between 0 and 12 hours |
| Tracker.ProgressTracker.constructor | src/pages/ProgressTracker.jsx:24-45 | each saved value, when present, replaces its default (initial tasks, 0, null, 0); the initial lock check sets the flag exactly in the cooldown and the timer to the remaining time or 0, establishing the lock invariant |
| Tracker.ProgressTracker.CheckLockStatus | src/pages/ProgressTracker.jsx:65-75 | the new state is CheckLock of the old one |
| Tracker.ProgressTracker.HandleTaskToggle | src/pages/ProgressTracker.jsx:100-106 | the new state is Toggle of the old one |
| Tracker.ProgressTracker.HandleDone | src/pages/ProgressTracker.jsx:109-122 | the new state is Done of the old one |
| Tracker.ProgressTracker.ClickDone | src/pages/ProgressTracker.jsx:78-84 | a Done click, plus the lock check re-run when lastDoneTime changed, is the Done event's Step |

## Left out

- Persistence is left out: the `localStorage` reads and writes, `JSON.parse`, `JSON.stringify`, `parseFloat`, `parseInt` and `toFixed(2)`. These are calls into browser storage and number formatting. Loading is modelled as constructor parameters that are either absent or already parsed. Unparseable values (NaN) are not modelled, so the save/reload round trip is not modelled either.
- Progress is a JavaScript float in the component. Here it is an integer, because it only moves by 5 and is capped at 100. The `toFixed` rendering of the progress bar is left out.
- The `setInterval`/`clearInterval` scheduling and React's effect ordering are left out. The timer is modelled as explicit `TickEvent`s. The effect on `lastDoneTime` is modelled as a lock check at the same clock reading, right after a Done click that changed the stamp.
- React's asynchronous, batched `setState` is modelled as one atomic update per handler.
- Before the first lock check, `unlockTimer` is `null`. The constructor runs that check at once, so the model never shows the `null`.
- JSX rendering, styling, icons and the button labels are presentation only and left out. That covers `TaskItem`, `ProgressBar`, `LockMessage` and the streak heading. Of `StatusDisplay`, only the pill list and the placeholder rule are modelled.
- The reset handler and its button are commented out in the source and never run.
- Countdown.SplitTime: its contract covers non-negative durations only. For a negative input the fields do not add back up, but the component only formats a positive `unlockTimer`.
- Countdown.FormatTime: its round trip is stated for non-negative durations only, for the same reason.
- Tracker.CooldownEnforced: assumes a clock that never goes backwards. A stamp of 0 reads as "never done", so it does not lock and no cooldown follows it.
