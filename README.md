# LockIn store, Pomodoro timer and task board in Dafny

This project models the core of LockIn, a single-user to-do and focus-timer web app that keeps all of its state in one browser-stored document.

- **The document store** (`src/lib/storage.ts`). Loading defaults a missing or corrupt document. The task commands are add, update, delete and clear-completed. The session commands are add, update and delete. There is a single slot for the work session in progress (set, heartbeat, clear). Four aggregators sum session durations per day of a month or per month of a year, and average them over the calendar days.
- **The Pomodoro phase machine** (`src/pages/TimerPage.tsx`). It has two presets (25/5 and 50/10 minutes), a one-second tick, and expiry transitions between work and break. Each work phase is recorded as a session. A work phase left open by a previous run is recovered at mount. The clock is shown as `MM:SS`.
- **The task board** (`src/pages/TasksPage.tsx`). It covers:
  - the trim rule of the add/edit dialog;
  - routing save and toggle to the task commands;
  - the split of the list into active and completed tasks;
  - the three-item preview of completed tasks and its hidden count;
  - the confirmed clear-all.

Modules, one file each:

| file | module | contents |
|---|---|---|
| `wrappers.dfy` | `Wrappers` | `Option` |
| `sequences.dfy` | `Sequences` | `filter`, `findIndex`, the `splice` + `unshift` move-to-front, distinct keys, subsequences |
| `calendar.dfy` | `Calendar` | Gregorian month lengths, and the `Date` constructor rules the store uses to compute its divisors |
| `document.dfy` | `Document` | the entities, the stored value, `loadData`/`saveData`, the duration clamp |
| `aggregates.dfy` | `Aggregates` | per-bucket totals, `Object.values(...).reduce` over them, and the facts that relate them |
| `storage.dfy` | `Storage` | the class `Store`, which holds the decoded document and carries every repository command and aggregator as a method |
| `timer_page.dfy` | `TimerPage` | presets, `formatTime`, and the class `Timer` |
| `tasks_page.dfy` | `TasksPage` | `trim`, the submit guard, the derived lists, and the class `TaskBoard` |

## How the document store is modelled

In the source, every command re-reads the document with `loadData`. A command that changes it writes it back with `saveData`. A command that finds nothing to change writes nothing: an `updateTask` that changes no field, a `deleteTask` or `deleteSession` that finds no record with the id, and `updateLastActive` or `clearUnfinishedSession` on an empty slot. `Store` instead keeps the decoded document in its fields, `tasks`, `sessions` and `unfinished`. The two views agree because of `Document.LoadSaveRoundTrip`: loading what was just saved gives back the same document and does not reset it. So the load at the start of each command returns exactly the state the previous command left, whether or not that command wrote.

`Store.Open` is the first load of a stored value. A stored value is either missing, unparseable, or a parsed record whose fields may each be absent.

Other modelling conventions:

- **Times** are integer milliseconds.
- **Calendar placement** of a start time is a `dayOf` parameter, a function from a timestamp to a (year, month, day) triple.
- **Averages** are `real`.
- **New ids.** A method that creates a record takes the new id as a parameter. The store's invariant `Store.Valid()` says ids are distinct and durations are not negative. Each such method keeps that invariant whenever the new id is not already in use.
- **React page state** becomes the fields of `Timer` and `TaskBoard`. State setters are assignments made in program order.

Places where the code behaves differently from what one might expect of it. The model follows the code:

- One might expect a document with absent fields to be repaired in storage. The code defaults the absent fields in memory only, and does **not** write the result back (`src/lib/storage.ts:87`). Only a missing value, or one whose decoding throws, is reset and persisted (`src/lib/storage.ts:89-94`). `Loaded.reset` records which case happened.
- One might expect a single bad record to be dropped or defaulted on its own. The code resets the whole document instead. This happens when an element of `tasks` or `study.sessions` is `null`: reading `.id` of it throws inside the `try` (`src/lib/storage.ts:56-62`, `69-74`), and the `catch` replaces the whole document with the empty default. The model counts such a value as `Stored.Unparseable`.
- One might expect loading to repair or reject bad records. Loading enforces neither unique ids nor non-negative durations: the task and session lists are mapped field by field without checks (`src/lib/storage.ts:56-62`, `69-74`). So `Store.Open` does not promise `Store.Valid()`. The invariant holds from a reset or from a stored document that already satisfies it, and every command then keeps it.
- One might expect a pure Gregorian rule for the divisors. The divisors use JavaScript's `Date` constructor instead. `new Date(y, m, 0)` and `new Date(y, 1, 29)` read years 0 to 99 as 1900 to 1999. `Calendar.DaysInMonthOf` and `Calendar.DaysInYearOf` model that. Their contracts prove that they equal the Gregorian values for every other year.

## Model

| member | source | states |
|---|---|---|
| Calendar.DaysIn | src/lib/storage.ts:288 | a Gregorian month has 28 to 31 days; February has 29 days in leap years and 28 otherwise; April, June, September and November have 30; the other seven months have 31 |
| Calendar.DaysInMonthOf | src/lib/storage.ts:288 | `new Date(year, month, 0).getDate()` is between 28 and 31, and for months 1 to 12 outside years 0 to 99 it is the Gregorian length of that month |
| Calendar.DaysInYearOf | src/lib/storage.ts:312-313 | the year divisor is the sum of the twelve month lengths of the year `Date` uses; outside years 0 to 99 it is 366 exactly in leap years and 365 otherwise |
| Calendar.DivisorExamples | src/lib/storage.ts:288 | February 2024 has 29 days and February 2023 has 28; month 13 rolls over to January; 2023 and 1900 have 365 days and 2024 has 366 |
| Document.DefaultData | src/lib/storage.ts:35-43 | defines the empty document: no tasks, no sessions, an empty slot; `ResetIsStable` states that saving and reloading it gives it back |
| Document.DurationSec | src/lib/storage.ts:179-182 | a duration is never negative; for end at or after start it is the whole seconds elapsed, rounded down; for end before start it is 0 |
| Document.LoadData | src/lib/storage.ts:46-95 | a missing or unparseable value resets to the empty document; a parsed one keeps its task and session lists, each defaulting to empty when absent; the unfinished slot survives exactly when both its start and its last-active time are present |
| Document.SaveData | src/lib/storage.ts:97-103 | defines the stored value written for a document: both lists, and a slot with both timestamps present; `LoadSaveRoundTrip` states that loading it gives the document back |
| Document.LoadSaveRoundTrip | src/lib/storage.ts:97-103 | loading a saved document gives back that document, without a reset |
| Document.ResetIsStable | src/lib/storage.ts:89-94 | after a reset, the saved default document loads back as the default document |
| Sequences.Filter | src/lib/storage.ts:155 | the result is no longer than the input, holds only elements that pass, and holds every input element that passes |
| Sequences.FilterSubsequence | src/lib/storage.ts:166 | filtering keeps the survivors in their original relative order |
| Sequences.FirstIndex | src/lib/storage.ts:131 | `findIndex` finds nothing exactly when no element has the key; otherwise it finds the first element with the key |
| Sequences.MoveToFront | src/lib/storage.ts:146-147 | after `splice(i, 1)` and `unshift(x)` the list has the same length, `x` at the head, the elements before `i` shifted by one and those after `i` in place |
| Aggregates.Totals | src/lib/storage.ts:274-280 | defines the record built by the `forEach` loop, adding each session's duration to its bucket; `TotalsKeys`, `TotalsValue` and `TotalsSum` state its contract |
| Aggregates.SumValues | src/lib/storage.ts:289 | defines `Object.values(totals).reduce((a, b) => a + b, 0)`, visiting the keys in ascending order; `SumValuesRemove` states that the sum does not depend on the visiting order |
| Aggregates.TotalsKeys | src/lib/storage.ts:274-280 | a bucket appears in the totals exactly when some session falls into it |
| Aggregates.TotalsValue | src/lib/storage.ts:278 | a bucket's total is the sum of the durations of the sessions in that bucket |
| Aggregates.SumValuesAddTo | src/lib/storage.ts:278 | adding an amount to one bucket adds exactly that amount to the sum of all buckets |
| Aggregates.TotalsSum | src/lib/storage.ts:289 | the values of the totals sum to the total duration of the sessions that fall in any bucket |
| Aggregates.MonthlyAgreesWithDaily | src/lib/storage.ts:294-305 | a month's entry in the yearly totals equals the sum of that month's daily totals |
| Storage.UpdateTaskSpec | src/lib/storage.ts:126-151 | an unknown id gives null and no change. A known id merges the given text and done over the task, keeping its id and creation time. If nothing differs, the task, its update time and the list order stay as they were. Otherwise the update time becomes now and the task moves to the head, the rest keeping their order |
| Storage.UpdateTaskKeepsIds | src/lib/storage.ts:143-147 | an update keeps the list's length and keeps task ids distinct |
| Storage.UpdateSessionSpec | src/lib/storage.ts:195-221 | an unknown id gives null and no change. A known id merges the given start and end over the session, keeping its id, and recomputes the clamped duration. The session then moves to the head even when nothing changed |
| Storage.UpdateSessionKeepsInvariants | src/lib/storage.ts:200-218 | an update keeps the count, distinct session ids and non-negative durations |
| Storage.Store.Open | src/lib/storage.ts:46-95 | the store holds the document that loading the stored value produces |
| Storage.Store.AddTask | src/lib/storage.ts:111-124 | the new task is not done, has equal creation and update times, and is put at the head in front of the unchanged old list; sessions and the slot are untouched; the invariant is kept when the id is fresh |
| Storage.Store.UpdateTask | src/lib/storage.ts:126-151 | the result and the new list are those of `UpdateTaskSpec`; sessions and the slot are untouched; the invariant is kept |
| Storage.Store.DeleteTask | src/lib/storage.ts:153-162 | returns true exactly when a task had the id; the new list is the old one without the tasks with that id |
| Storage.Store.ClearCompletedTasks | src/lib/storage.ts:164-168 | exactly the tasks that are not done remain, in their order |
| Storage.Store.AddSession | src/lib/storage.ts:176-193 | the new session carries the clamped duration and is put at the head in front of the unchanged old sessions; the invariant is kept when the id is fresh |
| Storage.Store.UpdateSession | src/lib/storage.ts:195-221 | the result and the new list are those of `UpdateSessionSpec`; the invariant is kept |
| Storage.Store.DeleteSession | src/lib/storage.ts:223-232 | returns true exactly when a session had the id; the new list is the old one without the sessions with that id |
| Storage.Store.SetUnfinishedSession | src/lib/storage.ts:239-246 | the slot is overwritten with the given start and a last-active time of now; tasks and sessions are untouched |
| Storage.Store.UpdateLastActive | src/lib/storage.ts:248-254 | only the last-active time of a filled slot changes; an empty slot stays empty; tasks and sessions are untouched |
| Storage.Store.ClearUnfinishedSession | src/lib/storage.ts:256-262 | the slot is empty afterwards; tasks and sessions are untouched |
| Storage.Store.DailyTotalsForMonth | src/lib/storage.ts:267-282 | a day is a key exactly when some session starts on that day of the month; the values sum to the total duration of the sessions starting in that month |
| Storage.Average | src/lib/storage.ts:290 | the exact quotient: the average times the divisor gives back the sum |
| Storage.Store.AverageDailyForMonth | src/lib/storage.ts:285-291 | the average is the month's total duration divided by all calendar days of the month, days without sessions included |
| Storage.Store.MonthlyTotalsForYear | src/lib/storage.ts:294-305 | a month is a key exactly when some session starts in that month of the year; the values sum to the year's total duration |
| Storage.Store.AverageDailyForYear | src/lib/storage.ts:308-315 | the average is the year's total duration divided by the days of the year, 366 or 365 |
| TimerPage.PresetTimes | src/pages/TimerPage.tsx:84-87 | there are exactly two presets, `25/5` (1500 s of work, 300 s of break) and `50/10` (3000 s, 600 s); each break is a fifth of its work phase, in whole minutes |
| TimerPage.Decimal | src/pages/TimerPage.tsx:102-103 | `toString` of a natural number is a non-empty digit string denoting that number, without leading zeros, and at most two digits long exactly below 100 |
| TimerPage.LeadingZeros | src/pages/TimerPage.tsx:104 | zeros padded in front do not change the number a digit string denotes |
| TimerPage.PadStart2 | src/pages/TimerPage.tsx:103-104 | padding makes a string at least two characters long by putting zeros in front of it |
| TimerPage.PaddedDecimal | src/pages/TimerPage.tsx:102-107 | a padded number is at least two digits long, still denotes that number, and is exactly two digits long below 100 |
| TimerPage.ClockParts | src/pages/TimerPage.tsx:108 | with a two-character seconds part, `${m}:${s}` splits back into `m` and `s` at the colon third from the end |
| TimerPage.FormatTime | src/pages/TimerPage.tsx:101-109 | defines `formatTime(sec)` as the padded minutes, a colon and the padded seconds; `FormatTimeReadsBack` and `FormatTimeParts` state its contract |
| TimerPage.ParseClockParts | src/pages/TimerPage.tsx:108 | reading a clock text back gives minutes times 60 plus seconds of the parts it was built from |
| TimerPage.FormatTimeReadsBack | src/pages/TimerPage.tsx:101-109 | reading the clock text back gives the input again; the text is at least five characters long, and exactly five below 100 minutes |
| TimerPage.FormatTimeParts | src/pages/TimerPage.tsx:101-109 | the clock text is the padded minutes, a colon third from the end, and the padded seconds; the seconds part is exactly two digits and denotes `sec % 60`, which is below 60 |
| TimerPage.FormatTimeZero | src/pages/TimerPage.tsx:101-109 | zero seconds show as `00:00` |
| TimerPage.DisplayTime | src/pages/TimerPage.tsx:280 | a negative or zero time shows `00:00`; any other time shows the formatted time |
| TimerPage.StatusLine | src/pages/TimerPage.tsx:283-289 | each of the four status texts is shown in exactly one combination of running, phase and preset choice |
| TimerPage.Timer.Mount | src/pages/TimerPage.tsx:112-123 | a stored open work session becomes exactly one session that ends at its last heartbeat, and the slot is cleared; with no stored session nothing changes; the timer starts stopped with no preset |
| TimerPage.Timer.Tick | src/pages/TimerPage.tsx:142-147 | a tick takes exactly one second off; in the work phase it moves the slot's last-active time to now; in a break it leaves the store untouched |
| TimerPage.Timer.CheckExpiry | src/pages/TimerPage.tsx:152-197 | nothing happens unless a running phase has run out. With no preset the timer stops. A work phase is recorded as a session ending now, the slot is cleared and the break starts with the preset's rest time. A break starts a new work phase with a fresh slot and the preset's work time. The timer invariant is kept |
| TimerPage.Timer.HandleStop | src/pages/TimerPage.tsx:215-231 | only a running work phase is recorded and its slot cleared; the timer always ends stopped in the work phase with its preset kept |
| TimerPage.Timer.HandlePresetClick | src/pages/TimerPage.tsx:200-212 | an open work session is recorded before the switch; then the chosen preset's work phase runs with a fresh slot started now |
| TimerPage.Timer.Start | src/pages/TimerPage.tsx:297-304 | with a preset kept, a work phase of that preset runs with a fresh slot started now; without one nothing changes |
| TimerPage.RunWorkPhase | src/pages/TimerPage.tsx:139-184 | a work phase run to its end, one tick and one expiry check per second, records exactly one session, from its start to its last second and lasting the preset's whole work time; then the break starts with the preset's rest time and an empty slot |
| TimerPage.RunBreak | src/pages/TimerPage.tsx:139-197 | a break run to its end records no session and leaves the store as it was until its last second; then work starts again with the preset's work time and a fresh slot opened at that second |
| TimerPage.RunCycle | src/pages/TimerPage.tsx:200-212 | from a stopped timer, choosing a preset and letting a work phase and a break run out leaves exactly one new session, lasting the preset's work time (1500 s for `25/5`), and a running work phase with the full work time again |
| TasksPage.TrimStart | src/pages/TasksPage.tsx:45 | the result is a suffix of the input, only whitespace was removed, and it does not start with whitespace |
| TasksPage.TrimEnd | src/pages/TasksPage.tsx:45 | the result is a prefix of the input, only whitespace was removed, and it does not end with whitespace |
| TasksPage.Trim | src/pages/TasksPage.tsx:45 | defines `s.trim()` as removing the leading and then the trailing whitespace; `TrimSpec` and `TrimIdempotent` state its contract |
| TasksPage.TrimSpec | src/pages/TasksPage.tsx:45 | the trimmed text is empty exactly when the input is all whitespace; otherwise it neither starts nor ends with whitespace; it is the slice of the input after the leading whitespace, with only whitespace after it |
| TasksPage.TrimIdempotent | src/pages/TasksPage.tsx:45-47 | trimming a trimmed text changes nothing |
| TasksPage.HandleSubmit | src/pages/TasksPage.tsx:43-50 | text is saved exactly when it is not all whitespace; it is saved trimmed and non-empty, and the input is emptied; otherwise nothing is saved and the input keeps its text |
| TasksPage.ActiveTasks | src/pages/TasksPage.tsx:183 | defines `tasks.filter((t) => !t.done)`; `PartitionTasks` states its contract |
| TasksPage.CompletedTasks | src/pages/TasksPage.tsx:184 | defines `tasks.filter((t) => t.done)`; `PartitionTasks` states its contract |
| TasksPage.PartitionTasks | src/pages/TasksPage.tsx:183-184 | every task is in exactly one of the active and completed lists, as often as in the list; each list holds only its own kind, and both keep the list's order |
| TasksPage.CompletedToShow | src/pages/TasksPage.tsx:185-187 | expanded, all completed tasks are shown; collapsed, the first `min(3, n)` of them are shown |
| TasksPage.HiddenCount | src/pages/TasksPage.tsx:188 | the hidden count is never negative, is 0 when expanded, is `max(0, n - 3)` when collapsed, and adds up with the shown count to all completed tasks |
| TasksPage.ToggleButtonAsWritten | src/pages/TasksPage.tsx:263-271 | as written, the button is shown exactly when the list is collapsed and holds more than 3 completed tasks, and then its label is always `Load more` with the count past the preview |
| TasksPage.ShowLessNeverRendered | src/pages/TasksPage.tsx:263-271 | with the render condition as written, the expanded label `Show Less` is never shown |
| TasksPage.ToggleButton | src/pages/TasksPage.tsx:263-271 | the intended expand/collapse button appears exactly when there are more completed tasks than the preview holds; expanded it reads `Show Less`, and collapsed it reads `Load more` with the number of tasks past the preview |
| TasksPage.ToggleButtonRoundTrip | src/pages/TasksPage.tsx:263-271 | with the intended button, both expanding and collapsing are reachable, and collapsed it hides exactly the tasks past the preview |
| TasksPage.ClearedHasNoCompleted | src/pages/TasksPage.tsx:197-199 | after clearing, no completed task is left and the active tasks are exactly those before |
| TasksPage.TaskBoard.Mount | src/pages/TasksPage.tsx:128-130 | the page shows the store's tasks, with both dialogs closed, no task being edited and the preview collapsed |
| TasksPage.TaskBoard.HandleSave | src/pages/TasksPage.tsx:154-163 | while editing a task, the text goes to that task through the update command and nothing else about it changes; otherwise a new task is added at the head; then the page reloads and the dialog closes with no task being edited |
| TasksPage.TaskBoard.HandleToggle | src/pages/TasksPage.tsx:165-168 | exactly the done flag of the task is updated through the update command, and the page reloads |
| TasksPage.TaskBoard.HandleDelete | src/pages/TasksPage.tsx:175-181 | a confirmed delete removes the task and reloads; an unconfirmed one changes nothing |
| TasksPage.TaskBoard.OnConfirmClearAll | src/pages/TasksPage.tsx:197-202 | the completed tasks are removed, the active ones are kept in order, the preview collapses and the dialog closes |

## Left out

- Browser storage and JSON. `localStorage` reads and writes, `JSON.parse` and `JSON.stringify` are not modelled. The stored value is given as missing, unparseable or a parsed record, and a write always succeeds, as the swallowed save errors make it look.
- Field coercion. The per-field `String`, `Boolean` and `Number` coercions at load are not modelled. The parsed record already has typed fields.
- Empty timestamps. The truthiness tests on `u.start && u.lastActive` and on `updates.start` / `updates.end` reject empty strings. In the model, timestamps are numbers, so only the absent case is modelled.
- Id generation. `crypto.randomUUID()` becomes an `id` parameter. Freshness only matters for keeping `Store.Valid()`.
- Date parsing and time zones. ISO text, `toISOString`, local-time `getFullYear`/`getMonth`/`getDate`, and the `RangeError` that `toISOString` raises on an invalid date are not modelled. `addSession` and `updateSession` both raise it: the model's timestamps are always valid. Times are integer milliseconds and calendar placement is the `dayOf` parameter. Years beyond the range `Date` can represent are not modelled.
- Floating point. The averages are exact `real` quotients, not IEEE doubles.
- Reading commands. `getTasks`, `getSessions` and `getUnfinishedSession` are plain reads of the `Store` fields.
- Audio and speech. `speak` and `playToneSequence` are browser output with no logic. `CheckExpiry` returns the cue as a `Signal`.
- Scheduling. The `setInterval` scheduling, the `beforeunload` heartbeat and the unmount cleanup are lifecycle wiring and are not modelled. A tick is a direct call of `Timer.Tick`, and an interrupted work phase is left to `Timer.Mount` to recover.
- React machinery. State batching, effect re-runs, dependency arrays and the `initializedRef` guard are left out. Effects and handlers are sequential method calls. `Timer.CheckExpiry` is the expiry effect run once after a state change; `Timer.Mount` has always run first.
- The dialog's typing between submits, its focus timer and the Escape key, as well as opening and closing the dialogs and expanding the preview. These only set a flag or a text each. What a submit does with the text, including emptying it, is modelled by `TasksPage.HandleSubmit`.
- Cross-tab sync. The `storage` event listener and last-writer-wins between tabs are not modelled.
- Strings are sequences of Unicode scalar values. JavaScript's UTF-16 code units are not modelled: `trim` is defined by code point over the ECMAScript whitespace and line-terminator set.
- Other UI and pages: rendering, routing and the analytics charts. They have no logic of their own in this core.

## Findings

| source | as written | input that shows it | evidently intended | confidence | as-written member | corrected member |
|---|---|---|---|---|---|---|
| src/pages/TasksPage.tsx:263-271 | the expand/collapse button is rendered only while `hiddenCount > 0`, but `hiddenCount` is 0 whenever the list is expanded | 4 completed tasks: clicking `Load more (1 left hidden)` expands the list, and the button and its `Show Less` label disappear, so the list cannot be collapsed again | render the button whenever there are more than 3 completed tasks, so `Show Less` collapses the list | medium, not executed | TasksPage.ShowLessNeverRendered | TasksPage.ToggleButtonRoundTrip |
