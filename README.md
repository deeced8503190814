# FocusPilot core in Dafny

FocusPilot is a small focus/break (Pomodoro-style) web app. This project models its three core
pieces and proves properties of them:

- **The browser timer** (`app/static/app.js`). It is a state machine over the script's module
  variables: mode, remaining seconds, whether the interval is open, session start, planned focus
  and break minutes, and the double-submit guard. `localStorage` is part of that state. The
  break-resume protocol spans page reloads: the store keys `fp_mode`, `fp_pending_break`,
  `fp_break_start_ms`, `fp_break_total_sec` and `fp_break_ready_sec`.
  - `timer_spec.dfy` gives every handler as a pure transition on a `TimerState` record. Lemmas
    there cover several steps: countdowns, pause/resume, and reloads with auto-break on or off.
  - `timer.dfy` is the same handlers as a `class Timer` whose methods update its fields in place.
    Each method is proved to reach exactly the state of its transition function and to keep the
    invariant.
  - `status_bar.dfy` is the selection made by `updateStatusBar`.
  - `local_store.dfy` holds the typed `localStorage` helpers.
  - `js_number.dfy` holds the JavaScript number/string conversions the script relies on:
    `String(n)`, `parseInt(s, 10)`, `padStart`, and `%`.
- **The Flask server** (`run.py`), in `flask_app.dfy`. It covers:
  - the per-date queries;
  - the goal and session statistics;
  - the form posts behind `save_goals` (`INSERT OR REPLACE` on the `(goal_date, slot)` unique
    key), `toggle_goal`, `add_distraction` and `add_session`;
  - the 7-day report.

  The tables are a `class Tables` of row sequences plus the last id each handed out.
- **The data layer** (`app/db.py`), in `focus_db.dfy`, as a `class Database`. It covers:
  - `upsert_goals`, `toggle_goal`, `add_distraction` and `add_session`;
  - the three listings;
  - `report_summary`, including its top-five distraction ranking.

Shared pieces:

- `seqs.dfy`: filtering, a stable insertion sort, a map, sums, take and reverse over sequences,
  with their lemmas.
- `text.dfy`: Python's `str.strip`, the SQLite `BINARY` string order, and prefixes.
- `wrappers.dfy`: `Option`.

Two behaviours of the script are modelled as written:

- Finish in focus mode records the session and moves to break mode, but it does not close the
  interval. The `running` flag stays as it was.
- A page load resumes a break by itself only while the auto-break setting is still on. A break
  prepared to start by itself, with the setting switched off before the reload, waits for Start
  instead.

## Model

| member | source | states |
|---|---|---|
| LocalStore.GetStr | app/static/app.js:26-29 | a present key reads its stored value, a missing key the default |
| LocalStore.BoolStr | app/static/app.js:23-25 | a boolean is stored as "1" exactly when it is true |
| LocalStore.GetBool | app/static/app.js:18-22 | a missing key reads the default; a present key reads true exactly when its value is "1" |
| LocalStore.GetBoolOfSetBool | app/static/app.js:18-25 | reading back a boolean just written gives that boolean, whatever the default |
| JsNumber.NatToStr | app/static/app.js:30-32 | `String(n)` of a natural number is a non-empty digit string, one digit exactly below 10 |
| JsNumber.NatToStrValue | app/static/app.js:30-32 | the digits of `String(n)` denote `n` |
| JsNumber.IntToStr | app/static/app.js:30-32 | `String(n)` is a digit string for `n >= 0` and a minus sign before one for `n < 0` |
| JsNumber.DigitRun | app/static/app.js:460-462 | the longest digit prefix: all digits, followed by a non-digit or the end |
| JsNumber.TrimStart | app/static/app.js:460-462 | `parseInt` drops exactly the leading JavaScript white space: a suffix starting with a non-space |
| JsNumber.ParseInt | app/static/app.js:460-462 | `parseInt(s, 10)` is `NaN` exactly when no digit follows the white space and optional sign |
| JsNumber.ParseIntRoundTrip | app/static/app.js:289-291 | `parseInt(String(n), 10) == n` for every integer, so stored numbers read back unchanged |
| JsNumber.PadStart2 | app/static/app.js:73 | `padStart(2, "0")` leaves two or more characters alone and left-pads shorter strings with zeros to length 2 |
| JsNumber.JsRem | app/static/app.js:72 | JavaScript `%` by a positive divisor: the Euclidean remainder for `a >= 0`, in `(-b, 0]` for `a < 0` |
| JsNumber.TwoDigits | app/static/app.js:70-74 | below 100 the padded string is the two decimal digits of the number |
| TimerSpec.Initial | app/static/app.js:58-65 | a fresh page is idle in focus mode over the surviving store, with nothing submitted and the invariant holding |
| TimerSpec.FmtRoundTrip | app/static/app.js:70-74 | below 100 minutes `fmt` (`Fmt`) gives five characters `mm:ss`, and reading them back (`ParseClock`) gives the seconds |
| TimerSpec.BreakPendingStore | app/static/app.js:275-284 | mode "break", the ready seconds stored, the auto-start keys removed, every other key unchanged |
| TimerSpec.BreakAutoStartStore | app/static/app.js:286-295 | mode "break", pending "1", start instant, total and ready seconds stored, every other key unchanged |
| TimerSpec.ClearedBreakStore | app/static/app.js:297-302 | all four break keys removed, every other key unchanged |
| TimerSpec.FocusPendingStore | app/static/app.js:304-312 | mode "focus", all break keys removed, every other key unchanged |
| TimerSpec.NextBreakStore | app/static/app.js:436-438 | the auto-break setting decides only whether the break is prepared to start by itself or to wait |
| TimerSpec.FocusPending | app/static/app.js:304-324 | an idle focus interval of the field's minutes, no session start, break keys cleared, submissions kept, invariant kept |
| TimerSpec.Started | app/static/app.js:327-345 | no effect while running; otherwise starts a new focus session, continues an unfinished one, or restarts a break only when nothing is left; invariant kept |
| TimerSpec.AutoSaved | app/static/app.js:424-449 | once per page at most: appends a record of the planned minutes, started at the session start or else now (`StartOr`), sets the guard, moves to a break of the planned length; a second call changes nothing |
| TimerSpec.Ticked | app/static/app.js:350-377 | above one second it only decrements; at the last second it stops and ends in auto-save (focus) or focus-pending (break); a break never submits |
| TimerSpec.Paused | app/static/app.js:383-390 | only the running flag changes, to false |
| TimerSpec.UsedMinutes | app/static/app.js:395-396 | the elapsed time in whole minutes, floored, but at least 1 |
| TimerSpec.Finished | app/static/app.js:392-422 | focus: records the used minutes and moves to the planned break with the interval left as it was, the planned minutes and the auto-save setting unchanged; break: skips to focus-pending without a record |
| TimerSpec.ResumeLeft | app/static/app.js:465-466 | the seconds left are never negative, and are zero exactly when the whole elapsed seconds reach the stored total |
| TimerSpec.ResumedBreak | app/static/app.js:464-482 | nothing left goes to focus-pending; otherwise the break runs with exactly what is left, over the same store |
| TimerSpec.WaitingBreak | app/static/app.js:483-494 | an idle break showing the stored ready seconds when positive, the field's break minutes otherwise |
| TimerSpec.Restored | app/static/app.js:451-506 | the load keeps the invariant on every path; a stored mode other than "break" gives idle-or-running focus with the full focus time, the store, the break minutes, the guard and the auto-save count untouched; "break" resumes exactly when the stored break is due to resume by itself (`AutoResumeDue`), and waits for Start otherwise |
| TimerSpec.CountdownBeforeZero | app/static/app.js:350-353 | before zero, `k` ticks (`RunTicks`) lower the remaining time by exactly `k` and change nothing else |
| TimerSpec.CountdownCompletes | app/static/app.js:350-374 | from `n >= 1` seconds the `n`-th tick is the completing one |
| TimerSpec.BreakCountdownEndsInFocus | app/static/app.js:365-370 | a running break ends after exactly its seconds in idle focus mode with no break keys left and no record |
| TimerSpec.BreakEndThenReload | app/static/app.js:365-370 | a reload after a break has run out opens an idle focus page with the full focus time and no break keys in the store |
| TimerSpec.FocusCountdownSubmitsOnce | app/static/app.js:360-364 | a running focus interval ends after exactly its seconds with one record of the planned minutes, or none when the guard is already set |
| TimerSpec.PauseThenStartResumes | app/static/app.js:336-345 | pause then start continues from the same remaining time and mode |
| TimerSpec.AutoSavedStoreResumes | app/static/app.js:286-295 | with auto-break on, the saved store asks the next load to resume a break that started at the save instant and has the planned total |
| TimerSpec.AutoBreakSurvivesReload | app/static/app.js:451-482 | auto-break on: a reload `delayMs` later resumes the break, less the whole seconds elapsed, or goes to idle focus once the break is over |
| TimerSpec.ManualBreakSurvivesReload | app/static/app.js:483-494 | auto-break off: a reload shows an idle break of the planned length, whatever the fields now say |
| TimerSpec.AutoBreakSwitchedOffBeforeReload | app/static/app.js:464 | a break prepared to start by itself still waits for Start when the setting is off at load time |
| FocusTimer.Timer.constructor | app/static/app.js:58-65 | the fields of a freshly loaded script over the saved store |
| FocusTimer.Timer.LsSetStr | app/static/app.js:30-32 | only the store changes, at that one key |
| FocusTimer.Timer.LsSetBool | app/static/app.js:23-25 | only the store changes, and the key then reads back the boolean |
| FocusTimer.Timer.LsDel | app/static/app.js:33-35 | only the store changes, by removing the key |
| FocusTimer.Timer.PrepareBreakPending | app/static/app.js:275-284 | the store becomes `BreakPendingStore` of the old one; nothing else changes |
| FocusTimer.Timer.PrepareBreakAutoStart | app/static/app.js:286-295 | the store becomes `BreakAutoStartStore` of the old one; nothing else changes |
| FocusTimer.Timer.ClearBreakStored | app/static/app.js:297-302 | the store becomes `ClearedBreakStore` of the old one; nothing else changes |
| FocusTimer.Timer.PrepareNextBreak | app/static/app.js:436-438 | the store becomes `NextBreakStore` of the old one |
| FocusTimer.Timer.SwitchToFocusPending | app/static/app.js:304-324 | the new state is `FocusPending` of the old; invariant kept |
| FocusTimer.Timer.StartTimer | app/static/app.js:327-381 | the new state is `Started` of the old; invariant kept |
| FocusTimer.Timer.Tick | app/static/app.js:350-377 | the new state is `Ticked` of the old; invariant kept |
| FocusTimer.Timer.PauseTimer | app/static/app.js:383-390 | the new state is `Paused` of the old; invariant kept |
| FocusTimer.Timer.FinishBtnAction | app/static/app.js:392-422 | the new state is `Finished` of the old; invariant kept |
| FocusTimer.Timer.AutoSaveFocusThenSwitchToBreak | app/static/app.js:424-449 | the new state is `AutoSaved` of the old; invariant kept |
| FocusTimer.Timer.RestoreModeOnLoad | app/static/app.js:451-506 | the new state is `Restored` of the old; invariant kept |
| FocusTimer.Timer.RestoreFocus | app/static/app.js:497-505 | focus mode with the field's minutes as the planned and remaining time; nothing else changes |
| FocusTimer.Timer.ResumeBreak | app/static/app.js:464-482 | the new state is `ResumedBreak` of the old in break mode |
| FocusTimer.Timer.AwaitBreak | app/static/app.js:483-494 | the new state is `WaitingBreak` of the old in break mode |
| FocusTimer.LoadPage | app/static/app.js:509-528 | a page load yields a fresh timer in the state `Restored` gives for the saved store |
| StatusBar.Counter | app/static/app.js:93-95 | a missing data attribute counts as 0 |
| StatusBar.Select | app/static/app.js:89-152 | running points at the timer card; the goals card exactly when idle in focus with a zero goals counter; the distraction-count hint exactly when idle in focus, sessions not zero and distractions positive, carrying that count |
| StatusBar.OfState | app/static/app.js:97-117 | the clock lines are shown exactly while the timer runs |
| StatusBar.RunningShowsClock | app/static/app.js:109-117 | while running, the bar shows the mode and an `mm:ss` clock that reads back as the remaining seconds |
| StatusBar.GoalPromptMatchesTarget | app/static/app.js:124-140 | with numeric counters, the bar asks for a goal exactly when it points at the goals card |
| StatusBar.NaNGoalsAfterSessions | app/static/app.js:135-139 | a `NaN` goals counter after some sessions points at the timer card while still asking for a goal |
| Text.TrimLeft | run.py:210-212 | drops exactly the leading white space, leaving a suffix that starts with a non-space |
| Text.TrimRight | run.py:210-212 | drops exactly the trailing white space, leaving a prefix that ends with a non-space |
| Text.Strip | run.py:210-212 | no longer than the input, and empty or starting and ending with a non-space |
| Text.StripIsSlice | run.py:210-212 | the stripped field is one slice of the input with only white space before and after it |
| Text.StripEmpty | run.py:249-251 | a field strips to "" exactly when all its characters are white space |
| Text.StripIdempotent | run.py:263-264 | stripping twice is stripping once |
| Text.Prefix | app/db.py:77 | `note[:200]` is the prefix of length `min(|s|, 200)` |
| Text.LexLeTotal | app/db.py:132 | the `note ASC` order compares any two notes |
| Text.LexLeTransitive | app/db.py:132 | the `note ASC` order is transitive |
| Text.LexLeAntisymmetric | app/db.py:132 | the `note ASC` order is antisymmetric |
| Text.LexLeReflexive | app/db.py:132 | the `note ASC` order is reflexive |
| Seqs.Sort | run.py:140 | `ORDER BY` returns a permutation of the selected rows |
| Seqs.SortSorted | run.py:140 | `ORDER BY` under a total, transitive order returns the rows sorted |
| Seqs.Take | app/db.py:133 | `LIMIT n` keeps the first `min(n, |s|)` rows, in order |
| Seqs.Reverse | app/db.py:84 | `ORDER BY id DESC` over an id-ordered table is the reversed sequence |
| Seqs.SumOfReverse | app/db.py:111-114 | a sum over the id-descending listing equals the sum over the table order |
| Seqs.MapSeqReverseMultiset | app/db.py:126-136 | the notes of the id-descending listing occur as often as in table order |
| FlaskApp.SessionOrderIsTotal | run.py:140 | `ORDER BY start_ts DESC` is a total, transitive order |
| FlaskApp.DistractionOrderIsTotal | run.py:151 | `ORDER BY ts DESC` is a total, transitive order |
| FlaskApp.SessionsForDate | run.py:135-143 | exactly the sessions whose start lies on the date, each as often as stored, newest start first |
| FlaskApp.DistractionsForDate | run.py:146-154 | exactly the distractions logged on the date, each as often as stored, newest first |
| FlaskApp.GoalsForDate | run.py:157-165 | exactly the goals of the date, each as often as stored, by slot ascending |
| FlaskApp.RoundHalfEven | run.py:171 | Python `round` of `n / d`: the nearest integer, and the even one on a tie |
| FlaskApp.Percent | run.py:171 | 0 without goals; otherwise `100 * done / total` rounded to the nearest integer |
| FlaskApp.PercentRange | run.py:171 | between 0 and 100 when `0 <= done <= total`, and 100 when all goals are done |
| FlaskApp.DoneCount | run.py:170 | summing the done flags counts the goals whose `done` is 1 |
| FlaskApp.CalcGoalStats | run.py:168-172 | total is the number of goals, done the number with `done == 1`, pct in 0..100, 0 without goals and 100 when all are done |
| FlaskApp.CalcSessionStats | run.py:175-178 | the count is the number of sessions; no sessions give (0, 0), one session gives (1, its minutes); positive minutes give at least a minute per session |
| FlaskApp.SessionStatsAdd | run.py:175-178 | the statistics of two batches of sessions add up |
| FlaskApp.SessionAppendOk | run.py:267-274 | inserting a session with the next id, both times and positive minutes keeps the table invariant |
| FlaskApp.DistractionAppendOk | run.py:250-254 | inserting a non-empty note with the next id keeps the table invariant |
| FlaskApp.AtMostOnePerSlot | run.py:83 | the `UNIQUE(goal_date, slot)` invariant leaves at most one goal per date and slot |
| FlaskApp.SlotMap | run.py:217 | `existing` maps exactly the slots present to a goal in that slot |
| FlaskApp.DatePart | run.py:139 | `substr(ts, 1, 10)` is a prefix of the timestamp of length `min(|ts|, 10)` |
| FlaskApp.FlipDone | run.py:240 | the new `done` is 0 or 1, and 0 exactly when it was 1 |
| FlaskApp.SaveSlot | run.py:219-227 | a pass hands out a new id exactly when the title is non-empty (the intended pass; see `SaveGoalsAsWrittenSlots` for the code as written) |
| FlaskApp.SaveSlotKeeps | run.py:222-227 | a pass leaves every row outside its (date, slot) as it was, in order |
| FlaskApp.SaveSlotWrites | run.py:220-227 | a pass leaves exactly the new row in its (date, slot), with the next id and the previous `done` (`PreviousDone`), or no row for an empty title |
| FlaskApp.SaveSlotOk | run.py:219-227 | a pass keeps the goals table invariant, the unique key included |
| FlaskApp.GoalFilterOk | run.py:227 | deleting rows keeps the goals table invariant |
| FlaskApp.GoalAppendOk | run.py:222-225 | inserting a goal with the next id, a slot in 1..3, a title, a 0/1 done flag and a free (date, slot) keeps the invariant |
| FlaskApp.SaveAllSlots | run.py:219-227 | after the intended loop (`SaveAll`) each slot holds one row with its title and previous `done`, or none when its title is empty |
| FlaskApp.SaveAllKeeps | run.py:219-227 | the loop leaves every other date and every other slot as they were |
| FlaskApp.SaveAllOk | run.py:219-227 | the loop keeps the goals table invariant |
| FlaskApp.ExistingDoneOk | run.py:217-221 | the `done` values read back are in {0, 1} |
| FlaskApp.CarriedDone | run.py:221 | the `done` the conditional is meant to carry is that of the row already in the slot, or 0 for an empty slot |
| FlaskApp.SaveGoalsAsWrittenSlots | run.py:214-229 | as written (`SaveGoalsAsWritten`), with the rows of `existing` being `sqlite3.Row`s that have no `get`: once a non-empty title goes to a slot that already holds a goal (`ReadsStoredRow`) the table is unchanged; otherwise each slot ends with its title and `done` 0, or empty |
| FlaskApp.FilledSlotSaveIsLost | run.py:214-229 | editing the title of a done goal in slot 1 leaves the table as it was, where the intended save writes the new title with `done` 1 |
| FlaskApp.FindGoal | run.py:238 | finds a row with the id, or reports that no row has it |
| FlaskApp.Toggled | run.py:238-241 | the rows with the id get `done` flipped (0 when it was 1, else 1); all other rows are unchanged |
| FlaskApp.ToggleUnknown | run.py:239 | an unknown id leaves the table unchanged |
| FlaskApp.ToggleOk | run.py:240-241 | toggling keeps the goals table invariant |
| FlaskApp.ToggleKeepsOrder | run.py:240-241 | toggling keeps the table in id order |
| FlaskApp.ToggleKeepsFields | run.py:240-241 | toggling keeps ids issued, slots in 1..3, titles non-empty and `done` in {0, 1} |
| FlaskApp.ToggleKeepsSlots | run.py:83 | toggling keeps the unique (date, slot) key |
| FlaskApp.ToggleTwice | run.py:240 | on 0/1 flags, toggling twice restores the table |
| FlaskApp.DayReportCounts | run.py:296-313 | a day's row (`DayReport`) counts that day's sessions, minutes, distractions and goals, whatever order the queries return them in |
| FlaskApp.Summarize | run.py:317-324 | the goal percentage of the week is 0 without goals |
| FlaskApp.WeekDays | run.py:291-292 | seven dates oldest first, ending with the requested date |
| FlaskApp.DistinctSplit | run.py:292 | distinct dates stay distinct when the last is split off |
| FlaskApp.WindowSessions | run.py:317-318 | the summed session counts and minutes are those of the sessions in the window of distinct dates |
| FlaskApp.WindowDistractions | run.py:319 | the summed distraction counts are those of the distractions in the window |
| FlaskApp.WindowGoals | run.py:322-323 | the summed goal totals and done counts are those of the goals in the window |
| FlaskApp.WindowGoalShare | run.py:322-324 | the goals done in the window never exceed the goals set there |
| FlaskApp.WeekTotals | run.py:289-339 | the weekly totals are those of the whole 7-day window, and the goal percentage is in 0..100 |
| FlaskApp.Tables.constructor | run.py:56-85 | empty tables that satisfy the invariants |
| FlaskApp.Tables.SaveGoals | run.py:204-231 | the request fails exactly when `ReadsStoredRow` holds; the goals become `SaveGoalsAsWritten` of the old ones; other tables unchanged; invariants kept |
| FlaskApp.Tables.SaveTitles | run.py:214-229 | the loop raises exactly on `ReadsStoredRow`, and then the rollback leaves the goals as they were; otherwise the goals become `SaveAll` of the old ones; other tables unchanged |
| FlaskApp.Tables.SaveSlotRow | run.py:220-227 | a pass raises exactly when a non-empty title meets a filled slot, changing nothing; otherwise the goals become `SaveSlot` of the old ones; other tables unchanged |
| FlaskApp.Tables.ToggleGoal | run.py:234-243 | the goals become `Toggled` of the old ones; other tables unchanged; invariants kept |
| FlaskApp.Tables.AddDistraction | run.py:246-257 | a blank note changes nothing; otherwise the stripped note is appended with the next id; invariants kept |
| FlaskApp.Tables.AddSession | run.py:260-277 | a blank time or non-positive minutes change nothing; otherwise the stripped session is appended with the next id; invariants kept |
| FlaskApp.Tables.WeekReport | run.py:289-339 | the rows are the day reports of the seven dates (`DayReports`), oldest first, and the summary is their totals |
| FocusDb.GoalAppendOk | app/db.py:57 | inserting a goal with the next id, a title and `done` 0 keeps the invariant |
| FocusDb.SessionAppendOk | app/db.py:94-97 | inserting a session with the next id and positive minutes keeps the invariant |
| FocusDb.DistractionAppendOk | app/db.py:75-78 | inserting a non-empty note of at most 200 characters with the next id keeps the invariant |
| FocusDb.NewGoals | app/db.py:53-57 | one inserted row per kept title |
| FocusDb.NewGoalsSnoc | app/db.py:53-57 | one more kept title adds one more row at the end |
| FocusDb.NewGoalsAt | app/db.py:57 | the `k`-th inserted row has the `k`-th kept title, the `k`-th id after the last one, and `done` 0 |
| FocusDb.InsertStep | app/db.py:57 | one more insert extends the inserted rows by exactly one |
| FocusDb.KeptSnoc | app/db.py:53-56 | one more input adds its stripped title, `None` read as "" (`OrEmpty`, `CleanTitle`), to `Kept` exactly when that title is not empty |
| FocusDb.UpsertedGoalsOfDate | app/db.py:50-58 | afterwards (`Upserted`) the goals of the date are exactly the new rows: the non-empty stripped titles among the first three, in input order |
| FocusDb.UpsertedOtherDate | app/db.py:52 | the goals of every other date stay as they were |
| FocusDb.GoalDeleteOk | app/db.py:52 | deleting a date's goals keeps the invariant |
| FocusDb.FlipDone | app/db.py:67 | `CASE done WHEN 0 THEN 1 ELSE 0`: the result is 0 or 1, and it is 1 exactly when `done` was 0 |
| FocusDb.Toggled | app/db.py:65-68 | rows with the id get `done` flipped; all other rows unchanged |
| FocusDb.ToggleOk | app/db.py:65-68 | toggling keeps the invariant |
| FocusDb.ToggleTwice | app/db.py:67 | on a valid table, toggling twice restores it |
| FocusDb.ListGoals | app/db.py:60-63 | exactly the goals of the date |
| FocusDb.ListGoalsAscending | app/db.py:62 | listed by id ascending |
| FocusDb.ListDistractions | app/db.py:81-87 | exactly the distractions of the date |
| FocusDb.ListDistractionsDescending | app/db.py:84 | listed by id descending |
| FocusDb.ListSessions | app/db.py:100-106 | exactly the sessions of the date |
| FocusDb.ListSessionsDescending | app/db.py:103 | listed by id descending |
| FocusDb.DistinctNotes | app/db.py:131 | `GROUP BY note`: each note of the date exactly once |
| FocusDb.Tally | app/db.py:128-131 | one group per distinct note, whose count is the number of times the note occurs |
| FocusDb.NoteCountIsRows | app/db.py:128-131 | the count of a note is the number of distraction rows that carry it |
| FocusDb.RankLeOrder | app/db.py:132 | `ORDER BY c DESC, note ASC` is a total, transitive order |
| FocusDb.TopDistractionsRanked | app/db.py:126-136 | `TopDistractions` holds five groups, or one per distinct note when there are fewer; correct counts, no note twice, ranked by count descending then note ascending |
| FocusDb.TopDistractionsComplete | app/db.py:126-136 | a note is left out only when five are shown, and ranks below all five; with at most five distinct notes none is left out |
| FocusDb.ReportSummary | app/db.py:108-150 | the summary is of the requested date, and no sessions means 0 minutes |
| FocusDb.SummaryBounds | app/db.py:111-141 | the counts equal the listings' lengths; the minutes are the sum over the date's session listing and at least one per session; `0 <= goals_done <= goals_total` |
| FocusDb.SummaryAfterSession | app/db.py:111-119 | one more session adds its minutes and one session to its own date's summary and leaves every other date's summary unchanged |
| FocusDb.SummaryDistractions | app/db.py:121-136 | the top distractions rank the notes of the date's distraction listing (`NotesOn`), each as often as listed; every group counts the listed distractions with its note, at least one |
| FocusDb.Database.constructor | app/db.py:17-48 | three empty tables satisfying the invariants |
| FocusDb.Database.UpsertGoals | app/db.py:50-58 | the goals become `Upserted` of the old ones, with one new id per kept title; other tables unchanged; invariants kept |
| FocusDb.Database.DeleteGoalsOf | app/db.py:52 | removes exactly the goals of the date; invariants kept |
| FocusDb.Database.InsertTitles | app/db.py:53-57 | the loop appends the rows `NewGoals` gives for the kept titles |
| FocusDb.Database.InsertGoal | app/db.py:57 | one insert appends the next row of `NewGoals` |
| FocusDb.Database.ToggleGoal | app/db.py:65-68 | the goals become `Toggled` of the old ones; ids and other tables unchanged; invariants kept |
| FocusDb.Database.AddDistraction | app/db.py:70-79 | a blank note changes nothing; otherwise the stripped note, cut to 200 characters, is appended with the next id |
| FocusDb.Database.AddSession | app/db.py:89-98 | non-positive minutes change nothing; otherwise the session is appended with the next id |

## Left out

- The DOM, the mode pill, the buttons, the display, audio beeps, notifications, the settings UI,
  and scrolling to and focusing cards (`app/static/app.js:37-55`, `76-86`, `155-272`). They are
  presentation only.
- The wording of the status bar lines is abstracted to constructors. What the lines show of the
  state (mode, clock, counters) is kept.
- `setInterval`/`clearInterval` become the `running` flag, and the interval callback becomes the
  `Tick` method. Timing and concurrency between callbacks are not modelled.
- Submitting the session form appends a record to `submitted`. The resulting reload is a new
  `Timer` built over the same store (`LoadPage`).
- `Date.now()`, `nowIsoLocal()`, `iso_now_local()`, `now_iso()`, `today_str()` and
  `date.today()` are parameters (`nowMs`, `nowIso`, `nowTs`, the date `d`).
- The minute input fields are `nat` parameters. `parseInt` of an empty, negative or non-numeric
  field is not modelled there. `parseInt` itself is modelled where stored values are read back.
- `JsNumber.ParseInt`: every decimal digit prefix is read. Values beyond 2^53 are not rounded as
  JavaScript rounds them.
- `FlaskApp.Percent`: Python's `round(done / total * 100)` on floats is modelled as exact
  round-half-to-even of the rational `100 * done / total`. Float rounding error is not modelled.
- `FlaskApp.SessionsForDate`: SQLite leaves the order of rows with equal sort keys unspecified.
  The model uses a stable sort, and the contracts state only the permutation and the ordering.
  `FocusDb.TopDistractions` is unaffected, because its sort key is unique.
- `run.py`'s `int(...)` on the minutes field, with its `ValueError` on non-numeric input, is not
  modelled. `AddSession` takes the converted minutes.
- `parse_date`, `datetime.strptime` and `timedelta`: the report's end date is a day number, and
  the calendar is a caller-supplied `dayName` function. `WeekTotals` requires that the function
  gives the seven days distinct dates.
- The day-mode report (`run.py:342-366`) and the index page (`run.py:184-201`) are
  compositions of the modelled queries and statistics. `DayReportCounts` covers them.
- `ensure_schema`'s table creation and its migration of an old goals table (`run.py:47-129`),
  `connect` and `init_db` (`app/db.py:12-48`) are not modelled. The tables start empty in
  their constructors.
- `report_summary` returns its distraction count under the misspelt key `distractioni_count`
  (`app/db.py:147`). That is dictionary presentation; the model names the field
  `distractionCount`.
- `FlaskApp.SaveSlot` carries the previous `done` of a filled slot, as `run.py:221` intends; as
  written that pass raises instead (see Findings), so only its empty-slot case is reached.
- `FlaskApp.SaveSlotWrites` states the intended pass; the route as written is stated by
  `FlaskApp.SaveGoalsAsWrittenSlots`.
- `FlaskApp.SaveAllSlots` states the intended loop; the route as written reaches it only when
  no non-empty title goes to a filled slot.
- `FlaskApp.CarriedDone` states the value the conditional is meant to read; as written a filled
  slot never yields it.
- File I/O, the SQLite engine itself and Flask's routing, redirects and templates are not
  modelled.

## Findings

| source | as written | input that shows it | evidently intended | confidence | as-written member | corrected member |
|---|---|---|---|---|---|---|
| run.py:221 | `existing.get(slot, {}).get("done", 0)` on a `sqlite3.Row` (`run.py:28`), which has no `get`: `AttributeError`, and the `with` block rolls the request back | a goal `(1, d, 1, "read", done 1)` and the fields `"read more"`, `""`, `""` | the slot gets the new title and keeps `done` 1 | not executed | FlaskApp.FilledSlotSaveIsLost | FlaskApp.SaveAllSlots |

## Notes on the source

- The two `toggle_goal`s differ. `run.py:240` sets `done` to 0 when it was 1 and to 1
  otherwise. `app/db.py:67` sets it to 1 when it was 0 and to 0 otherwise. Both are modelled as
  written: `FlaskApp.FlipDone` and `FocusDb.FlipDone`. They agree on 0/1 flags, which both table
  invariants keep.
- `run.py` has no `date` column in the sessions and distractions tables. Rows belong to a date
  through the first ten characters of their timestamp (`substr(ts, 1, 10)`). `app/db.py` stores
  the date in its own column instead.
- `app/db.py`'s `add_distraction` cuts the note to 200 characters. `run.py`'s does not.
