# Pomodoro study timer, modelled in Dafny

The timer runs fixed 25-minute work intervals and 5-minute breaks from a
text menu. It keeps an append-only log of completed intervals and reports
on that log in two ways: a history grouped by date, and statistics totalled
per subject. This project models the core of `p5_pomodoro_timer.py`:

- the session log and `add_session`;
- the countdown loop of `countdown_timer`, with a state machine it is proved against;
- the history in `view_sessions`;
- the statistics in `show_statistics`, including Python's stable `sorted(..., reverse=True)`;
- the menu's dispatch rules and its loop.

The model is imperative where the program is. The log is a class with a
`seq` field that `AddSession` appends to. The countdown, the grouping, the
totals and the menu are methods with loops. Each of them is proved against
pure specification functions: `Run`, `OnDate`, `SumWork`, `SubjectTotals`,
`SortDesc`, `Recorded`. Lemmas state what the program promises about those
functions.

Modules, one file each:

- `Sessions` (sessions.dfy): records and the log class.
- `Base60` (base60.dfy): the `// 60`, `% 60` split.
- `Countdown` (countdown.dfy).
- `StableSort` (stablesort.dfy).
- `Statistics` (statistics.dfy).
- `History` (history.dfy).
- `Text` (text.dfy): `str.strip` and the yes answer.
- `Menu` (menu.dfy).
- `Scenarios` (scenarios.dfy): concrete runs.

Choices made where the program is inconsistent:

- **One record shape.** The writer stores the keys "Subject", "Session
  Duration", "Session Type", "Completed At" and "Date". The readers look up
  "subject", "duration", "type", "completed_at" and "date". As written,
  every read of a stored record fails. The model has a single `Record`
  type, which is the evident intent.
- **The subject parameter.** `add_session` names its parameter `sunject`
  but uses `subject` in its body. As written, that `subject` is the
  module-level variable set by the work prompt (p5_pomodoro_timer.py:150).
  So the break recorded after a work interval (:165) would carry the work's
  subject instead of "Break". And the break of option 2 (:170) fails with a
  `NameError` when option 1 has never been chosen. `AddSession` takes its
  parameter as the subject, so every break record carries "Break".
- **The break after a work interval** (p5_pomodoro_timer.py:162-165). The
  program runs the break countdown and then records the break without
  looking at the result. A cancelled break is therefore logged too. The
  model follows the code: `WorkPass` records the break unconditionally, and
  `CancelledBreakIsRecorded` states it. The evident intent, that a break
  taken after work is recorded only if its countdown completes, is not what
  the code does, and the model does not adopt it.
- **Dates and times.** The program formats `datetime.now()` as
  `%Y-%m-%d` text, whose text order is day order. The model takes date and
  time as naturals supplied by the caller: an ordinal day, and seconds
  since midnight.

## Model

| member | source | states |
|---|---|---|
| Sessions.SessionLog.constructor | p5_pomodoro_timer.py:132 | the log starts as exactly the loaded records |
| Sessions.SessionLog.AddSession | p5_pomodoro_timer.py:48-58 | the log grows by exactly one record, carrying the given subject, duration, kind, date and time; the old log is a prefix of the new one; positive durations stay positive |
| Sessions.WorkPlusBreak | p5_pomodoro_timer.py:105-120 | work minutes plus break minutes are all the minutes in the log |
| Sessions.CountWorkIsCardinality | p5_pomodoro_timer.py:110-112 | the running work-session count is the number of positions that hold a work record |
| Sessions.SumsOfAppend | p5_pomodoro_timer.py:110-120 | one more record raises the work total, the break total and the work count by its own share only |
| Base60.Split60 | p5_pomodoro_timer.py:27-28 | `(n // 60) * 60 + n % 60 == n` and `n % 60 < 60` |
| Base60.Split60Unique | p5_pomodoro_timer.py:123 | that pair is the only one with value `n` and a remainder below 60, so the hours and minutes shown are determined |
| Countdown.Run | p5_pomodoro_timer.py:25-45 | the state machine always ends in Completed or Cancelled, and terminal states stay put |
| Countdown.RunCompletesIff | p5_pomodoro_timer.py:25-45 | running n seconds from tick k completes iff none of ticks k..k+n-1 is interrupted, and is cancelled iff one of them is |
| Countdown.CompletesIffRunCompletes | p5_pomodoro_timer.py:19-45 | an uninterrupted countdown and the state machine's Completed are the same thing, in both directions; otherwise it is Cancelled |
| Countdown.CountdownTimer | p5_pomodoro_timer.py:19-45 | returns true iff the state machine completes (iff no tick is interrupted); a completed run shows exactly minutes*60 ticks; a cancelled one stops at the first interrupted tick; at every tick the shown mins:secs has value equal to the remaining seconds and secs < 60 |
| StableSort.SortDesc | p5_pomodoro_timer.py:78 | `sorted(..., reverse=True)` (here and at line 128) by a numeric key, as insertion of each element before the first one whose key is not larger; the result has the input's length (its order properties are the four lemmas below) |
| StableSort.SortDescSorted | p5_pomodoro_timer.py:128 | the listing is sorted with keys non-increasing |
| StableSort.SortDescPermutes | p5_pomodoro_timer.py:128 | the listing is a permutation (same multiset) of the input |
| StableSort.SortDescStable | p5_pomodoro_timer.py:128 | elements with equal keys keep their input order (the sort is stable) |
| StableSort.SortDescUnique | p5_pomodoro_timer.py:128 | any sequence that is sorted and keeps each key class in input order is exactly the sort's result |
| StableSort.DistinctPermutation | p5_pomodoro_timer.py:78 | a permutation of a duplicate-free sequence (the dictionary's keys) is duplicate-free |
| Statistics.SubjectOrderFacts | p5_pomodoro_timer.py:115-118 | the dictionary's keys are distinct and are exactly the subjects of the work records |
| Statistics.AbsentSubjectHasNoMinutes | p5_pomodoro_timer.py:116-117 | a subject not yet in the dictionary has no work minutes so far, so starting it at 0 is right |
| Statistics.SubjectMinutesStep | p5_pomodoro_timer.py:115-118 | one more record adds its duration to its own subject's total and to no other |
| Statistics.SubjectTotalsSumToWork | p5_pomodoro_timer.py:110-120 | the per-subject totals add up to the total work time |
| Statistics.Items | p5_pomodoro_timer.py:128 | the items list the dictionary entries in key order, one per key |
| Statistics.SortKeepsTotal | p5_pomodoro_timer.py:128 | sorting the listing keeps its total minutes |
| Statistics.ListingTotalIsWorkTime | p5_pomodoro_timer.py:126-129 | the sorted per-subject listing adds up to the total work time |
| Statistics.TalliesReport | p5_pomodoro_timer.py:104-129 | tallies that agree with the log make a report satisfying every clause of `IsReportOf` |
| Statistics.ShowStatistics | p5_pomodoro_timer.py:94-129 | no data exactly for an empty log; otherwise: the work count is the number of work records; the work and break totals sum to all durations; the hours/minutes split is exact; the subject map holds each work subject's total. The listing is that map's entries sorted largest first, ties in first-appearance order, and it is a permutation of the entries that adds up to the work total |
| History.OnDateMembers | p5_pomodoro_timer.py:70-75 | a record is in a date's group iff it is in the log with that date |
| History.GroupsPartitionLog | p5_pomodoro_timer.py:70-75 | groups over distinct dates covering the log, each holding its date's records, are together a permutation of the log: every record lands in exactly one group |
| History.GroupByDate | p5_pomodoro_timer.py:70-75 | the map's keys are exactly the log's dates, each listed once; each date maps to its records in log order |
| History.OrderedDates | p5_pomodoro_timer.py:78 | the sorted dates are strictly descending and are exactly the map's keys |
| History.DaysCoverLog | p5_pomodoro_timer.py:78 | one group per sorted date covers every date of the log |
| History.TotalWorkTime | p5_pomodoro_timer.py:82-90 | a date's total is the sum of the durations of its work records |
| History.DailyGroups | p5_pomodoro_timer.py:78-92 | one group per date, in the sorted order, with that date's records and their work total |
| History.DaysMakeHistory | p5_pomodoro_timer.py:61-92 | such groups make a history satisfying every clause of `IsHistoryOf` |
| History.ViewSessions | p5_pomodoro_timer.py:61-92 | nothing exactly for an empty log; otherwise: dates strictly descending, exactly the log's dates; each group holds its date's records in log order with the sum of their work minutes; the groups together are a permutation of the log |
| Text.IsSpace | p5_pomodoro_timer.py:152 | the whitespace set that `str.strip()` removes, Python's `str.isspace`; on ASCII it is exactly tab, line feed, vertical tab, form feed, carriage return, the separators \x1c-\x1f and space |
| Text.AnswersYes | p5_pomodoro_timer.py:162-163 | the answer lower-cases to "y" iff it is the one character "y" or "Y" |
| Text.SkipSpaces | p5_pomodoro_timer.py:152 | the scan from the left stops at the first non-whitespace character, having passed only whitespace |
| Text.SkipSpacesBack | p5_pomodoro_timer.py:152 | the scan from the right stops after the last non-whitespace character, having passed only whitespace |
| Text.Strip | p5_pomodoro_timer.py:152 | the result is a slice of the input with only whitespace cut off on either side; it neither starts nor ends with whitespace; it is empty iff the input is all whitespace |
| Menu.WorkPass | p5_pomodoro_timer.py:149-165 | option 1 records something iff the subject is not blank and the work countdown completes; then it records the work record first, and a second record, the break, iff the answer is yes |
| Menu.BreakPass | p5_pomodoro_timer.py:167-170 | option 2 records one break record iff its countdown completes |
| Menu.Recorded | p5_pomodoro_timer.py:147-183 | choices other than 1 and 2 record nothing; a record is made only for a non-blank subject with a completed work countdown (option 1) or a completed break countdown (option 2); every record is the pass's work record or one of its break records |
| Menu.CancelledBreakIsRecorded | p5_pomodoro_timer.py:162-165 | after completed work and a yes, the break is recorded even when its countdown is cancelled |
| Menu.OfferBreak | p5_pomodoro_timer.py:160-165 | the break is taken iff the answer lower-cases to "y", and then one break record is appended |
| Menu.StartWork | p5_pomodoro_timer.py:148-165 | appends exactly the records of `WorkPass`; a blank subject is rejected; the reply says whether the work countdown completed and whether a break was taken |
| Menu.StartBreak | p5_pomodoro_timer.py:167-170 | appends exactly the records of `BreakPass`; the reply says whether the countdown completed |
| Menu.Dispatch | p5_pomodoro_timer.py:146-183 | appends exactly `Recorded(t)`; 5 says goodbye and nothing else does; an unknown choice is reported as invalid; 3 shows the history of the log and 4 its statistics |
| Menu.RunMenu | p5_pomodoro_timer.py:138-183 | passes run in order; the log grows by the records of the passes consumed; the loop stops at the first 5, or when the input runs out; the log keeps positive durations |
| Menu.RecordedAllPositive | p5_pomodoro_timer.py:156-170 | every record the menu adds has a positive duration (25 or 5) |
| Scenarios.MathWorkDeclinedBreak | p5_pomodoro_timer.py:149-165 | work on "Math" that runs to zero, with the break declined, adds exactly one 25-minute work record for "Math" |
| Scenarios.InterruptedWorkAddsNothing | p5_pomodoro_timer.py:155-158 | work interrupted in its first tick adds nothing |
| Scenarios.BlankSubjectAddsNothing | p5_pomodoro_timer.py:151-153 | a subject of blanks adds nothing |
| Scenarios.ThreeRecordsTotals | p5_pomodoro_timer.py:110-120 | Physics 10 then Math 10 twice gives first-appearance order Physics, Math and totals Physics 10, Math 20 |
| Scenarios.ThreeRecordsListing | p5_pomodoro_timer.py:126-129 | that log is listed Math 20 before Physics 10 |

## Left out

- Loading and saving the log as JSON is out of scope. This covers `os.path.exists` and the file modes (p5_pomodoro_timer.py:8-16). It is file I/O through a library. The log class starts from whatever records were loaded. The save that `add_session` performs after each append is not modelled, and neither is the read-mode open in `save_sessions`.
- `time.sleep`, `print`, the banners and the terminal bell are output only and are not modelled. The countdown keeps the `mins:secs` values it would print as `shown`.
- `datetime.now()` is a clock. Its readings are inputs: the two `Stamp`s of a `Turn`.
- `input()` is not modelled as a read. The menu reads a script of `Turn` values, one per pass. When the script runs out, the loop ends, standing for the end of input.
- `KeyboardInterrupt` is not an asynchronous exception in the model. It is an oracle with one flag per one-second tick, checked after that tick's display. An interrupt that arrives outside the countdown's ticks is not modelled. In the program, one during the start banner (p5_pomodoro_timer.py:22-23) or during an `input()` prompt (:147, :150, :162) ends the program; one during the completion messages (:34-39) is caught at :43 and makes the countdown return false.
- Countdown.CountdownTimer: in the program a run whose ticks all pass can still come back cancelled, when the interrupt arrives during the completion prints (p5_pomodoro_timer.py:34-39); the model has no flag for that window, so there a run whose ticks all pass always completes.
- Countdown.CountdownTimer: does not model the `int(duration_minutes * 60)` float conversion, because the program only ever passes the integers 25 and 5.
- Text.AnswersYes: Python's Unicode `lower()` is reduced to the two strings that lower-case to "y", "y" and "Y". Python's full case mapping takes no other string to "y".
- The stored "Completed At" text and its `.split()[1]` time part are displayed only. The model keeps the time of day as a number and does not model the display format.
- The history and statistics are modelled as the values they display, not as formatted text.
