# Power-action scheduler: a verified model of its decision engine

The repository is a desktop power-action scheduler (sleep, power off,
reboot, hibernate) in four Python/Tk variants. Most of each program is
GUI code. Each one also has a small decision engine. The engine keeps a
list or a weekly table of schedule entries, edits it step by step from
the forms, and on each tick compares it with the current time and
weekday to decide what fires and what gets removed. This project models
those engines in Dafny and proves what they promise.

- `hibernation_scheduler.py`, the **window scheduler**:
  - a JSON document whose `"sleep_times"` list holds
    `{weekday, start_time, end_time}` windows;
  - a form that validates times against `HH:MM` and zero-pads them;
  - a check that asks for sleep when the current time lies inside a
    window of the current weekday.
  - Module `WindowSchedule`.
- `linux/SleepScheduler_USB/hibernation_scheduler_linux.py`, the **USB
  scheduler**:
  - a list of `{id, action, time, repeat}` tasks;
  - `should_execute`, and a 15-second tick that fires matching tasks and
    removes the fired one-off ones;
  - the delay dialog and the action-to-command map.
  - Module `UsbSchedule`.
- `linux/hibernation_scheduler_linux.py`, the **settings scheduler**:
  - the same task list, kept inside a settings document that is merged
    with defaults at load time;
  - a tick and edits that save the widget values back into that
    document;
  - a clamping delay dialog.
  - Module `LinuxSchedule`.
- `hibernation_scheduler_linux.py`, the **weekly table** (TimeMaster
  Linux):
  - seven day records with enabled/on/off/action;
  - editor rows with copy, set-all, reset and apply;
  - a once-a-minute check of the current day's power-off time.
  - Module `WeeklySchedule`.

Shared modules:

- `TimeText`:
  - `strftime("%H:%M")` of a clock reading;
  - the window scheduler's regular expression and its zero-padding;
  - the set of strings `strptime(s, "%H:%M")` accepts;
  - Python's lexicographic string ordering, which agrees with
    minutes-since-midnight on padded times.
- `Tasks`:
  - the task record and `should_execute`, which both task-list
    variants use;
  - `list.remove` and the delete-by-id filter;
  - `Matched` and `Survivors`, the specification of one tick.
- `Optional`: the Option datatype.

The clock is a parameter of every tick: `hour`, `minute` and `weekday`
(0 = Monday). The tick's side effects become outputs:
- the tasks whose action runs, in order;
- the messages queued;
- the action the weekly check fires.

How each imperative operation is specified:
- The ticks of the three list-based schedulers (window, USB and
  settings) walk a snapshot of their list in a `while` loop. Each loop is
  verified against a recursive specification function of that snapshot.
- The weekly check has no loop: it reads the one record of the current
  weekday.
- The weekly table's editor works in place on arrays of seven rows.
- The settings scheduler's `load_settings` is a loop that fills the
  missing keys.

The weekday is read once per tick. The source reads it inside each
`should_execute` call, so the two agree unless midnight passes during a
tick.

## Model

| member | source | states |
|---|---|---|
| TimeText.FormatHM | hibernation_scheduler.py:530 | `strftime("%H:%M")` gives a five-character padded time that reads back as the same hour and minute. |
| TimeText.FormatHMOfCanonical | hibernation_scheduler.py:530 | Every padded `HH:MM` text is the formatting of its own hour and minute, so formatting is a bijection onto padded times. |
| TimeText.NatText | linux/SleepScheduler_USB/hibernation_scheduler_linux.py:490 | The decimal digits of the clock seconds in a task id are non-empty and are read back by `int()` as the same number. |
| TimeText.NormalizeTime | hibernation_scheduler.py:631-635 | Zero-padding a time that matched the pattern yields a padded `HH:MM` with hour below 24 and minute below 60. |
| TimeText.NormalizeKeepsValue | hibernation_scheduler.py:631-635 | The padded text has the hour and minute that `int()` reads from the two halves of the input. |
| TimeText.NormalizeCanonical | hibernation_scheduler.py:624-635 | The pattern accepts every padded time, and padding leaves it unchanged. |
| TimeText.MatchesTimePattern | hibernation_scheduler.py:624-625 | A full match has only digits around the colon, and they read as an hour below 24 and a minute below 60. |
| TimeText.StrptimeAccepts | linux/SleepScheduler_USB/hibernation_scheduler_linux.py:487 | An accepted time text has three to five characters. A five-character one is accepted exactly when the window scheduler's pattern matches it. |
| TimeText.PatternImpliesStrptime | hibernation_scheduler.py:624-625 | Every string the `HH:MM` regular expression accepts is also accepted by `strptime("%H:%M")`. |
| TimeText.StrptimeAcceptsShortMinute | linux/SleepScheduler_USB/hibernation_scheduler_linux.py:487 | `strptime` accepts "12:5", a one-digit minute that the regular expression rejects, so the converse fails. |
| TimeText.CanonicalOrder | hibernation_scheduler.py:637 | On padded times, string `<` holds exactly when the first is earlier in minutes since midnight. |
| TimeText.StrLessTotal | hibernation_scheduler.py:637 | Python's string order is total: of two different strings one is smaller, so `start >= end` is exactly "not `start < end`". |
| TimeText.CanonicalOrderEq | hibernation_scheduler.py:546 | On padded times, string `<=` holds exactly when the first is not later in minutes since midnight. |
| Tasks.ShouldExecute | linux/SleepScheduler_USB/hibernation_scheduler_linux.py:562-577 | A task matches only at its own stored time. There, a Weekdays task matches iff weekday < 5, a Weekends task iff weekday >= 5, and any other repeat value on every day. |
| Tasks.RepeatRules | linux/SleepScheduler_USB/hibernation_scheduler_linux.py:562-577 | At the task's own time, Weekdays matches iff weekday < 5. Exactly one of Weekdays and Weekends matches on any day. Every other repeat value matches on every day. |
| Tasks.MatchNeedsCanonicalTime | linux/hibernation_scheduler_linux.py:338-340 | A task matches the clock text only when its stored time is that exact padded `HH:MM`; any other stored time never matches. |
| Tasks.UnpaddedTimeNeverFires | linux/SleepScheduler_USB/hibernation_scheduler_linux.py:562-565 | A task stored with time "7:30" passes the `strptime` check but matches no clock reading at all. |
| Tasks.RemoveFirst | linux/SleepScheduler_USB/hibernation_scheduler_linux.py:552 | `list.remove(x)` of a present value drops exactly one occurrence: length minus one, and multiset minus `{x}`. |
| Tasks.RemoveFirstAt | linux/hibernation_scheduler_linux.py:333 | Removing `x` from `a + [x] + b` with `x` not in `a` gives `a + b`: it is the first occurrence that goes. |
| Tasks.RemoveId | linux/SleepScheduler_USB/hibernation_scheduler_linux.py:534 | A task is in the new list iff it was in the old one and its id differs, so no task with that id is left. |
| Tasks.RemoveIdSpec | linux/SleepScheduler_USB/hibernation_scheduler_linux.py:534 | Delete-by-id keeps every task whose id differs, with its multiplicity, and drops every task with that id. It distributes over concatenation, so order is kept. An absent id changes nothing. |
| Tasks.TickSpec | linux/SleepScheduler_USB/hibernation_scheduler_linux.py:545-552 | Counted per task: a tick executes every matching snapshot task exactly as often as it occurs. It removes exactly the matching Once tasks and keeps all others. Survivors distribute over concatenation, so relative order is kept. |
| Tasks.TickStep | linux/SleepScheduler_USB/hibernation_scheduler_linux.py:545-552 | Each snapshot task, taken in turn, adds itself to the executed list iff it matches and to the kept list iff not removed. |
| Tasks.TickLiveStep | linux/SleepScheduler_USB/hibernation_scheduler_linux.py:549-552 | The `list.remove` of the live list mid-tick removes exactly the task at the current snapshot position. The list copy keeps the iteration unaffected. |
| Tasks.OnceFiresOnce | linux/SleepScheduler_USB/hibernation_scheduler_linux.py:550-552 | A fired Once task is gone after the tick, so the next tick, at any time and on any day, cannot fire it again. |
| Tasks.RepeatingTaskRefires | linux/hibernation_scheduler_linux.py:325-336 | There is no per-minute deduplication. A fired repeating task survives and fires again on the next tick in the same minute. |
| Tasks.QuietTick | linux/SleepScheduler_USB/hibernation_scheduler_linux.py:545-548 | When no task matches, a tick executes nothing and leaves the list unchanged. |
| Tasks.NoOnceRemovedKeepsList | linux/hibernation_scheduler_linux.py:329-334 | When no matching Once task exists, the tick leaves the list exactly as it was. |
| UsbSchedule.Command | linux/SleepScheduler_USB/hibernation_scheduler_linux.py:368-391 | "Выключить" gives `systemctl poweroff`, "Перезагрузка" `systemctl reboot`, "Сон" `systemctl suspend` and "Гибернация" `systemctl hibernate`, each iff that action is chosen. Any other action fails the lookup. |
| UsbSchedule.CommandsDistinct | linux/SleepScheduler_USB/hibernation_scheduler_linux.py:371-376 | The four actions map to four different commands. |
| UsbSchedule.ConfirmDelay | linux/SleepScheduler_USB/hibernation_scheduler_linux.py:443-464 | A non-number or a negative delay is rejected; 0 executes at once; a positive delay defers by minutes × 60 seconds. |
| UsbSchedule.TaskId | linux/SleepScheduler_USB/hibernation_scheduler_linux.py:490 | The id starts with the action and the time text, each followed by a dash. The rest is a decimal numeral that reads back as the clock seconds. |
| UsbSchedule.TaskIdsDiffer | linux/SleepScheduler_USB/hibernation_scheduler_linux.py:490 | Two tasks with the same action and time get different ids unless they are added in the same second. |
| UsbSchedule.Scheduler.constructor | linux/SleepScheduler_USB/hibernation_scheduler_linux.py:586-597 | The scheduler starts with the loaded task list. |
| UsbSchedule.Scheduler.AddSchedule | linux/SleepScheduler_USB/hibernation_scheduler_linux.py:479-530 | Appends exactly one task carrying the given values iff `strptime` accepts the time; otherwise the list is unchanged. |
| UsbSchedule.Scheduler.DeleteSchedule | linux/SleepScheduler_USB/hibernation_scheduler_linux.py:532-537 | The new list is the delete-by-id filter of the old one. |
| UsbSchedule.Scheduler.Tick | linux/SleepScheduler_USB/hibernation_scheduler_linux.py:539-560 | The executed tasks are the matching snapshot tasks in order, and the new list is the snapshot's survivors. |
| LinuxSchedule.DefaultSettings | linux/hibernation_scheduler_linux.py:355-359 | The defaults hold exactly `time_format` = "24ч", `autostart` = 1 and an empty `schedules` list. |
| LinuxSchedule.WithDefaults | linux/hibernation_scheduler_linux.py:354-369 | A failed load gives exactly the defaults. Otherwise every loaded key keeps its loaded value, every missing default key gets its default, and there are no other keys. |
| LinuxSchedule.LoadSettings | linux/hibernation_scheduler_linux.py:361-369 | The merge loop over the default keys computes the merged settings. |
| LinuxSchedule.SaveFields | linux/hibernation_scheduler_linux.py:392-394 | Saving overwrites only `time_format` and `autostart` with the widget values. `schedules` and every other key are untouched. |
| LinuxSchedule.SaveFieldsIdempotent | linux/hibernation_scheduler_linux.py:392-394 | Saving twice with the same widget values gives the same document as saving once. |
| LinuxSchedule.Command | linux/hibernation_scheduler_linux.py:213-226 | Each of the four known actions gives its own command, iff that action is chosen: `["systemctl", "poweroff"]`, `"reboot"`, `"suspend"` or `"hibernate"`. An unknown action fails inside the `try`. |
| LinuxSchedule.SameCommandsAsUsb | linux/hibernation_scheduler_linux.py:214-219 | The settings scheduler runs the same command as the USB scheduler for every action. |
| LinuxSchedule.QuickDelay | linux/hibernation_scheduler_linux.py:259-271 | A non-number is rejected. After `max(0, n)`, a delay of zero or less executes at once, and a positive one defers by minutes × 60 seconds. |
| LinuxSchedule.DelayPoliciesCompared | linux/hibernation_scheduler_linux.py:262-268 | The two delay dialogs agree on every non-negative delay. On a negative one, this one executes at once while the USB dialog rejects it. |
| LinuxSchedule.TaskId | linux/hibernation_scheduler_linux.py:287 | The id starts with the action and the time text, each followed by a dash, and the rest of it is the timestamp text. |
| LinuxSchedule.TaskIdsDiffer | linux/hibernation_scheduler_linux.py:287 | Two tasks with the same action and time get different ids whenever their timestamp texts differ. |
| LinuxSchedule.RemovesSomeSpec | linux/hibernation_scheduler_linux.py:329-334 | A tick saves the settings iff some snapshot task is a matching Once task. When none is, the list is unchanged. |
| LinuxSchedule.Scheduler.constructor | linux/hibernation_scheduler_linux.py:354-369 | The document after start-up is the defaults merged into the loaded settings. |
| LinuxSchedule.Scheduler.SaveSettings | linux/hibernation_scheduler_linux.py:392-401 | The whole document becomes the save-fields update of the old one. |
| LinuxSchedule.Scheduler.AddSchedule | linux/hibernation_scheduler_linux.py:277-316 | Iff `strptime` accepts the time, one task carrying the given values is appended and the widget values are saved. Otherwise nothing changes. |
| LinuxSchedule.Scheduler.DeleteSchedule | linux/hibernation_scheduler_linux.py:318-323 | The list becomes the delete-by-id filter of the old one, and the widget values are saved. |
| LinuxSchedule.Scheduler.Tick | linux/hibernation_scheduler_linux.py:325-336 | Executes the matching snapshot tasks in order and leaves the snapshot's survivors. The other fields are saved iff some Once task was removed, and otherwise untouched. |
| WeeklySchedule.DefaultConfig | hibernation_scheduler_linux.py:59-74 | The default configuration has one record per weekday name. |
| WeeklySchedule.DefaultConfigSpec | hibernation_scheduler_linux.py:59-74 | The default week has seven days. Monday to Friday are enabled and the weekend is not. No day has an on time, and every day powers off at "23:00" with "Выключить". There are no programs, and the theme is light, not minimised, notifications on. |
| WeeklySchedule.OrEmpty | hibernation_scheduler_linux.py:249-262 | The editor field is empty iff the stored time is null or the empty text. Any non-empty text it shows is the stored time. |
| WeeklySchedule.EditorRowOf | hibernation_scheduler_linux.py:240-262 | The editor row keeps the day's enabled flag and action. Each time field shows the stored text, or the empty string for a null. |
| WeeklySchedule.StoredOf | hibernation_scheduler_linux.py:619-625 | Applying stores both times as strings, never null, and keeps the enabled flag and the action. |
| WeeklySchedule.EditorStoredRoundTrip | hibernation_scheduler_linux.py:616-625 | Applying an editor row and then building the editor from the stored record shows the same row. |
| WeeklySchedule.StoredEditorRoundTrip | hibernation_scheduler_linux.py:240-274 | Showing a stored record and applying it back gives the same record iff it has no null time. |
| WeeklySchedule.ResetRow | hibernation_scheduler_linux.py:353-360 | The row reset puts in a day is the editor row of that day's default record. |
| WeeklySchedule.ResetShowsDefault | hibernation_scheduler_linux.py:353-360 | The row reset puts in for each day is the row a fresh start with the default configuration shows. |
| WeeklySchedule.Fires | hibernation_scheduler_linux.py:576-580 | A day fires at a time text iff the text is not empty, the day is enabled and its off time is that text. |
| WeeklySchedule.FiresAtClock | hibernation_scheduler_linux.py:577-580 | Against a clock reading, a day fires iff it is enabled and its off time equals the clock text; the non-empty test adds nothing. |
| WeeklySchedule.DisabledOrEmptyNeverFires | hibernation_scheduler_linux.py:577-580 | A disabled day, or one with a null or empty off time, never fires. |
| WeeklySchedule.AppliedRowFires | hibernation_scheduler_linux.py:616-625 | A day saved from an editor row fires iff the row is enabled and its off-time text is the current `HH:MM`. |
| WeeklySchedule.DefaultWeekFires | hibernation_scheduler_linux.py:59-74 | With the default week, the action fires at 23:00 on Monday to Friday and at no other time or day. |
| WeeklySchedule.Command | hibernation_scheduler_linux.py:585-591 | "Перезагрузка" gives reboot and "Спящий режим" gives suspend. Every other action, known or not, gives `systemctl poweroff`. |
| WeeklySchedule.CommandsDistinct | hibernation_scheduler_linux.py:585-589 | The three known actions map to three different commands. |
| WeeklySchedule.Scheduler.constructor | hibernation_scheduler_linux.py:57-82 | The loaded configuration, or the default when there is none, is stored and shown in the editor rows. |
| WeeklySchedule.Scheduler.CopyDaySettings | hibernation_scheduler_linux.py:328-345 | Every row, including the chosen one, ends equal to the chosen day's old row. |
| WeeklySchedule.Scheduler.SetAllDays | hibernation_scheduler_linux.py:347-351 | Every enabled flag becomes the given state; times and actions stay. |
| WeeklySchedule.Scheduler.ResetSchedule | hibernation_scheduler_linux.py:353-360 | Each row becomes: enabled iff index < 5, on "", off "23:00", "Выключить". The result does not depend on the old rows, so resetting twice equals resetting once. |
| WeeklySchedule.Scheduler.ApplyChanges | hibernation_scheduler_linux.py:616-636 | Each day's stored record becomes the current editor row, and the stored settings become the settings tab's values. The editor, the settings tab and the program list are unchanged. |
| WeeklySchedule.Scheduler.CheckPass | hibernation_scheduler_linux.py:559-581 | Only the captured weekday's record is looked at. At most one action fires, exactly when that day is enabled and its off time is the captured `HH:MM`, and it is that day's action. |
| WindowSchedule.LoadSchedule | hibernation_scheduler.py:756-770 | The loaded document is used iff it is an object holding `"sleep_times"`. Otherwise, including on any read or parse failure, the schedule is `{"sleep_times": []}`. |
| WindowSchedule.Validate | hibernation_scheduler.py:614-643 | The outcomes are: an empty field; then a bad format iff a time fails the pattern; then "not later" iff the padded end is not after the padded start in minutes. An accepted pair is the two padded times, with start strictly before end. |
| WindowSchedule.Classify | hibernation_scheduler.py:537-548 | Only an object for today's weekday can stop the scan. A hit has string start and end times with start ≤ now ≤ end as strings. An exception means a time it read is not a string. |
| WindowSchedule.WindowPass | hibernation_scheduler.py:535-548 | A document without `"sleep_times"` is quiet. A sleep request needs the list to be an array containing a hit entry. |
| WindowSchedule.ScanSleepIff | hibernation_scheduler.py:535-548 | A pass asks for sleep iff some window entry is a hit and every entry before it is skipped. |
| WindowSchedule.AddedEntryHits | hibernation_scheduler.py:539-547 | A window added through the form never raises. It hits iff its day is today and start ≤ now ≤ end in minutes since midnight. |
| WindowSchedule.UnpaddedStartMisses | hibernation_scheduler.py:546 | The test compares strings: a hand-written unpadded start "9:00" misses at "10:30" although 9:00 ≤ 10:30 ≤ 23:00. |
| WindowSchedule.Scheduler.constructor | hibernation_scheduler.py:71 | The schedule is the result of `load_schedule`. |
| WindowSchedule.Scheduler.AddScheduleItem | hibernation_scheduler.py:614-655 | Returns the form's verdict. An accepted window is appended to `"sleep_times"`, which is created when missing. A `"sleep_times"` value that is not a list, or a rejected form, leaves the schedule unchanged. |
| WindowSchedule.Scheduler.DeleteScheduleItem | hibernation_scheduler.py:661-671 | The selected index is popped iff there is a selection, `"sleep_times"` is a list, and the index is in range. Otherwise nothing changes. |
| WindowSchedule.Scheduler.ClearSchedule | hibernation_scheduler.py:673-677 | When confirmed, `"sleep_times"` becomes empty; otherwise nothing changes. |
| WindowSchedule.Scheduler.CheckPass | hibernation_scheduler.py:525-554 | At most one sleep request is queued, exactly when the pass asks for sleep. `failed` holds iff the pass ends in the exception handler: a non-iterable list, or a non-string time it had to compare. |

## Left out

- GUI construction, layout, list rendering, status bars and clocks: these are UI. The listbox refresh after window edits is also not modelled.
- Process and timing behaviour: `subprocess`, the `systemctl`, `pmset` and `rundll32` calls, the hibernation-support probe, the suspend fallback chain, threads, `threading.Timer`, `time.sleep` between ticks, the `running` / `scheduler_active` flags and the message-queue consumer.
  - Only the decisions are modelled: the command the action maps to, the delay, the messages queued, and the tasks fired.
- JSON file reading and writing and the temporary-file replace.
  - A load is a parameter: `None` when the file is missing or cannot be parsed.
  - The settings scheduler's `load_settings` also falls back to the defaults when the parsed document is not an object, because the merge loop then raises inside the `try`. The caller passes `None` for that case too.
  - Two kinds of such document do not fall back: a JSON string containing the three key names as substrings, and a JSON array containing them as elements. Either passes the `in` tests, so nothing is assigned inside the `try`, and `self.settings["time_format"]` then raises TypeError outside it. This start-up failure is not modelled.
  - `save_settings` and `save_config` are modelled only by the in-memory change they make.
- `.strip()` of the window form's fields: `WindowSchedule.Scheduler.AddScheduleItem` and `WindowSchedule.Validate` take the already stripped text.
  - Because of that, a trailing newline, which Python's `$` would accept, cannot occur.
- `TimeText.StrptimeAccepts` covers ASCII digits only. Python's `strptime` and `\d` also accept other Unicode decimal digits.
- Task records missing a key:
  - In the two task-list variants, a loaded task missing a key, or a non-list `"schedules"`, makes the source raise KeyError or TypeError. The model requires a list of complete tasks.
  - `LinuxSchedule.Scheduler.constructor` requires a loaded `"schedules"` value to be a task list.
- Weekly configuration documents of another shape:
  - `load_config` returns any parsed JSON unchecked. A document that is not an object, or that lacks `"schedule"`, `"settings"` or `"autostart_programs"`, makes start-up raise where those keys are read. `WeeklySchedule.Config` always holds all three, so the model assumes a loaded configuration has them.
  - A loaded weekly configuration must have the seven day records. A missing one makes the source's table construction raise KeyError, so `WeeklySchedule.Scheduler.constructor` requires seven.
  - The records are typed: the enabled flag is a boolean and the action a string. JSON values of other types in those fields are not modelled.
- USB variant start-up:
  - `UsbSchedule.Scheduler.constructor` takes the loaded task list, or the empty default.
  - The way the USB `load_settings` replaces the whole settings dictionary is not modelled.
- Task ids:
  - `LinuxSchedule.TaskId` takes the text of `datetime.now().timestamp()` as a parameter, because float formatting is not modelled.
  - `UsbSchedule.TaskId` takes the whole seconds of the clock.
- The weekday and time one tick uses are read once per tick. The source reads the date again inside each `should_execute`; the two differ only when midnight passes mid-tick.
- The window list's listbox shows only object entries, but `DeleteScheduleItem` pops the raw index it is given. The model does not map listbox rows to raw indices.
  - The two coincide when every entry is an object, which is the case for every entry the form creates.
- `execute_now` and the quick-action dialogs' widget handling are not modelled; only the delay decision is.
- Autostart program management, the autostart toggles, the theme and media features are not modelled. The weekly table's `autostart_programs` list is only carried along.
