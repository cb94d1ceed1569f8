# Calendar task scheduler — a Dafny model

This project models the scheduler module `lib/cron-scheduler.ts` of a small
cron service. Callers register named tasks. Each task has a handler and a
calendar schedule with four optional axes: weekday names, days of the month,
month names and weeks of the month. An execution pass checks every
registered task against one reference date and runs the due ones. It
returns one report entry per task.

- `wrappers.dfy`: `Option`, standing for TypeScript's optional fields and
  `null`/`undefined` parameters.
- `schedule.dfy` (module `Schedule`): the schedule type, the date record
  (weekday 0..6, day of month 1..31, month 0..11, as the `Date` getters give
  them), lower-casing, the week number, and the due-date predicate
  `ShouldRun` (`shouldTaskRun`), with lemmas about it.
- `scheduler.dfy` (module `Scheduler`): task definitions, report entries,
  and the registry as a class whose `tasks` field is the id-to-definition
  map. Its methods are register, unregister, copy and the execution pass
  (a loop over the task ids). The pure functions `Registered`,
  `Unregistered`, `EntryFor` and `Pass` specify them, and lemmas prove
  properties of those functions.

Two behaviours of `lib/cron-scheduler.ts` that shape the model:

- A task that is not due is reported as `success: true` with the fixed
  result "Task skipped - not scheduled for this day/date". There is no
  separate "skipped" tag, so the model has none either. A skipped entry
  therefore looks the same as the entry of a handler that returns that string.
- The pass reads the live registry, not a snapshot copy. In the model,
  handlers cannot touch the registry, so the two readings agree.

## Model

| member | source | states |
|---|---|---|
| `Schedule.LowerChar` | lib/cron-scheduler.ts:79 | a lower-cased character is never an upper-case letter; it is a letter iff the input was one; characters other than upper-case letters are unchanged; an upper-case letter becomes the same letter in lower case |
| `Schedule.Lower` | lib/cron-scheduler.ts:79 | lower-casing keeps the length, maps each character by `LowerChar`, and leaves no upper-case letter |
| `Schedule.LowerOfLowerCase` | lib/cron-scheduler.ts:70 | a string without upper-case letters is its own lower-case form |
| `Schedule.LowerIdempotent` | lib/cron-scheduler.ts:70 | lower-casing twice is lower-casing once |
| `Schedule.WeekNumber` | lib/cron-scheduler.ts:75 | the week number is in 1..5 and is the ceiling of day/7: `7(w-1) < day <= 7w` |
| `Schedule.WeekNumberRanges` | lib/cron-scheduler.ts:75 | days 1-7, 8-14, 15-21, 22-28 and 29-31 are exactly weeks 1, 2, 3, 4 and 5 |
| `Schedule.EffectiveDay` | lib/cron-scheduler.ts:70 | a non-empty override, lower-cased, is the weekday name; without an override, or with an empty one, the date's own weekday name is used |
| `Schedule.ShouldRunIffAllAxesMatch` | lib/cron-scheduler.ts:45-91 | `ShouldRun` (`shouldTaskRun`) is due iff the weekday, date, month and week matches (`NameAxisMatches` for the two name axes, `NumberAxisMatches` for the two number axes) all hold, on the effective weekday, the day of the month, the month's name and the week number; the early return for a schedule without keys agrees with this |
| `Schedule.LowerCaseNameAxisIsMembership` | lib/cron-scheduler.ts:79-84 | a non-empty name axis whose entries are all lower-case matches a name iff the name is one of its entries |
| `Schedule.UnmatchedNameAxisNotDue` | lib/cron-scheduler.ts:78-90 | a present, non-empty days or months axis with no entry lower-casing to the current weekday or month makes the task not due, whatever the other axes say |
| `Schedule.UnconstrainedAlwaysDue` | lib/cron-scheduler.ts:49-90 | a schedule whose every axis is absent or empty (including one with no keys) is due on every date under every override |
| `Schedule.AxesAreConjunctive` | lib/cron-scheduler.ts:78-90 | a schedule is due iff each of its four one-axis sub-schedules is due; the no-keys early return agrees with this |
| `Schedule.FirstAndThirdWeek` | lib/cron-scheduler.ts:86-87 | `weekNumbers: [1, 3]` is due exactly on days 1-7 and 15-21 |
| `Schedule.FirstOfMonth` | lib/cron-scheduler.ts:81 | `dates: [1]` is due iff the day of the month is 1, whatever the override |
| `Schedule.DayNamesDistinct` | lib/cron-scheduler.ts:53 | the seven weekday names are lower-case and pairwise distinct |
| `Schedule.MonthNameLowerCase` | lib/cron-scheduler.ts:54-67 | every month name is lower-case |
| `Schedule.MonthAxisNamingTheMonth` | lib/cron-scheduler.ts:83-84 | a months axis holding the current month's name, spelled as in the month table, matches that month |
| `Schedule.MonthNamesDistinct` | lib/cron-scheduler.ts:54-67 | the twelve month names are pairwise distinct |
| `Schedule.MondayOnly` | lib/cron-scheduler.ts:78-79 | `days: ["Monday"]` is due iff the effective weekday is "monday"; with no override, iff the date is a Monday |
| `Schedule.QuarterlyFirstDay` | lib/cron-scheduler.ts:81-84 | the quarterly schedule (January, April, July, October; date 1) is due iff it is the 1st of a month whose index is a multiple of 3 |
| `Schedule.OverrideCaseInsensitive` | lib/cron-scheduler.ts:70 | two overrides that are equal up to case give the same answer |
| `Schedule.NameAxisUpToCase` | lib/cron-scheduler.ts:79-84 | a name axis matches the same values when its entries are replaced by entries equal up to case |
| `Schedule.ScheduleNamesCaseInsensitive` | lib/cron-scheduler.ts:78-84 | changing the case of the day and month names in a schedule does not change whether it is due; each name axis may be absent (and stays absent) or present |
| `Schedule.OverrideOnlyReplacesWeekday` | lib/cron-scheduler.ts:70-75 | under a non-empty override the answer depends only on the day of the month and the month, not on the date's weekday |
| `Schedule.OverrideIrrelevantWithoutDays` | lib/cron-scheduler.ts:78-79 | when the days axis is absent or empty, the override has no effect |
| `Schedule.OverrideSimulatesWeekday` | lib/cron-scheduler.ts:70 | overriding with a weekday's name (in any case) equals evaluating, with no override, the same date moved to that weekday |
| `Scheduler.Registered` | lib/cron-scheduler.ts:22-24 | after registration the id maps to the new definition, the key set gains only that id, and every other entry is unchanged |
| `Scheduler.Unregistered` | lib/cron-scheduler.ts:29-33 | after removal the id is absent and every other entry is unchanged; an absent id leaves the registry as it was |
| `Scheduler.RegisterOverwrites` | lib/cron-scheduler.ts:22-24 | registering an id twice equals registering only the second definition (last write wins) |
| `Scheduler.UnregisterUndoesRegister` | lib/cron-scheduler.ts:29-33 | removing an id undoes registering it, and removing twice equals removing once |
| `Scheduler.EntryFor` | lib/cron-scheduler.ts:110-131 | an entry carries the task's name; a task that is not due gets the skip success; an entry is a failure iff the task is due and its handler throws; a due task's entry carries the handler's value, the thrown error's message, or "Unknown error" |
| `Scheduler.Pass` | lib/cron-scheduler.ts:99-134 | the pass returns the "No tasks registered" message iff the registry is empty; otherwise it returns exactly the registry's ids, each entry carrying its task's name |
| `Scheduler.PassEntry` | lib/cron-scheduler.ts:107-131 | each entry is the skip success, the handler's value, the thrown error's message, or "Unknown error", decided by that task's schedule and handler alone |
| `Scheduler.FailureIsolated` | lib/cron-scheduler.ts:107-134 | replacing another task, for example with one whose handler throws, changes neither the reported ids nor this task's entry |
| `Scheduler.PassAfterRegister` | lib/cron-scheduler.ts:22-24 | a pass right after registering a task reports it by its new definition |
| `Scheduler.PassAfterUnregister` | lib/cron-scheduler.ts:29-33 | a pass right after removing a task does not report it |
| `Scheduler.Registry.constructor` | lib/cron-scheduler.ts:17 | the registry starts empty |
| `Scheduler.Registry.RegisterTask` | lib/cron-scheduler.ts:22-24 | the new registry is `Registered` of the old one |
| `Scheduler.Registry.UnregisterTask` | lib/cron-scheduler.ts:29-33 | the new registry is `Unregistered` of the old one |
| `Scheduler.Registry.GetAllTasks` | lib/cron-scheduler.ts:38-40 | the copy has exactly the registry's ids and definitions |
| `Scheduler.Registry.ExecuteScheduledTasks` | lib/cron-scheduler.ts:96-135 | the loop over the task ids builds exactly the report `Pass` of the registry, the given date and the override |
| `Scheduler.MondayPassWithFailingSibling` | lib/cron-scheduler.ts:107-134 | on a Monday, after an overwrite and a removal, a throwing daily task fails alone, and the weekly task still reports its second definition's value |

## Left out

- The wall clock (`new Date()`) and the `Date` getters. The reference date is a
  parameter `now` given as a `(weekday, dayOfMonth, month)` record, so the
  model does not check that the day exists in that month.
- Handler bodies, `async`/`await` and exception objects. A handler is modelled
  by its outcome, stored in the definition: it returns a value, throws an
  `Error` with a message, or throws something else. Returned values are
  modelled as strings.
- The registry changing during a pass, by a handler or by a concurrent
  register/unregister call while a handler is awaited. In the source, removing
  a later task makes `taskRegistry[taskId]` undefined, and the pass then fails
  outside the per-task `try`. The model's pass runs without interleaving, and
  its handlers have no side effects.
- The order of `Object.keys`. The report is a map, so the order of its entries
  and of the handler calls is not modelled.
- Lower: lower-cases only the ASCII letters A-Z; JavaScript's `toLowerCase`
  also maps other Unicode letters.
- LowerChar: the same ASCII-only restriction, for one character.
- JavaScript prototype keys. Ids such as `__proto__` or `constructor` behave
  specially on a plain object; the model treats every id as an ordinary map key.
- A definition whose `schedule` is `undefined` (possible through the HTTP
  route) takes the same early return as a schedule without keys. The model
  represents it by the all-absent schedule. Likewise, non-array axis values
  and unknown schedule keys are not modelled.
- Sharing. `getAllTasks` makes a shallow copy whose definitions are shared
  with the registry. The model's definitions are immutable values, so a change
  to the copy can never reach the registry.
- The HTTP routes, the UI, the example task files and the re-export module
  are not part of this model.
