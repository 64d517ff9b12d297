/** The customtkinter scheduler of linux/hibernation_scheduler_linux.py:
    a settings document whose "schedules" entry is the task list, filled
    in from defaults on load, edited from the schedule tab, saved with the
    current settings-tab values after every edit, and scanned every 30
    seconds. */
module LinuxSchedule {
  import opened Optional
  import opened TimeText
  import opened Tasks
  import UsbSchedule

  /** The values the settings document holds: the time-format text, the
      autostart flag as an integer, the task list, and anything else a
      settings file may carry. */
  datatype Value = Text(text: string) | Number(n: int) | TaskList(tasks: seq<Task>) | OtherValue

  const TimeFormatKey: string := "time_format"
  const AutostartKey: string := "autostart"
  const SchedulesKey: string := "schedules"

  /** The keys of `default_settings`, in their insertion order. */
  const DefaultKeys: seq<string> := [TimeFormatKey, AutostartKey, SchedulesKey]

  /** `default_settings`. */
  function DefaultSettings(): (d: map<string, Value>)
    ensures d.Keys == {TimeFormatKey, AutostartKey, SchedulesKey}
    ensures d[TimeFormatKey] == Text("24ч") && d[AutostartKey] == Number(1)
    ensures d[SchedulesKey] == TaskList([])
  {
    map[TimeFormatKey := Text("24ч"), AutostartKey := Number(1), SchedulesKey := TaskList([])]
  }

  /** The settings `load_settings` ends with: the defaults when reading or
      parsing the file fails, otherwise the loaded document with every
      missing default key added and every present key left as loaded. */
  function WithDefaults(loaded: Option<map<string, Value>>): (s: map<string, Value>)
    ensures loaded.None? ==> s == DefaultSettings()
    ensures loaded.Some? ==> s.Keys == loaded.value.Keys + DefaultSettings().Keys
    ensures loaded.Some? ==> forall k :: k in loaded.value ==> s[k] == loaded.value[k]
    ensures loaded.Some? ==> forall k :: k in DefaultSettings() && k !in loaded.value ==> s[k] == DefaultSettings()[k]
  {
    match loaded
    case None => DefaultSettings()
    case Some(m) =>
      map k | k in m.Keys + DefaultSettings().Keys :: if k in m then m[k] else DefaultSettings()[k]
  }

  /** `load_settings`: the merge loop over the default keys. */
  method LoadSettings(loaded: Option<map<string, Value>>) returns (s: map<string, Value>)
    ensures s == WithDefaults(loaded)
  {
    var defaults := DefaultSettings();
    if loaded.None? {
      return defaults;
    }
    s := loaded.value;
    var i := 0;
    while i < |DefaultKeys|
      invariant 0 <= i <= |DefaultKeys|
      invariant s.Keys == loaded.value.Keys + set j | 0 <= j < i :: DefaultKeys[j]
      invariant forall k :: k in loaded.value ==> s[k] == loaded.value[k]
      invariant forall j :: 0 <= j < i && DefaultKeys[j] !in loaded.value ==> s[DefaultKeys[j]] == defaults[DefaultKeys[j]]
    {
      var key := DefaultKeys[i];
      if key !in s {
        s := s[key := defaults[key]];
      }
      i := i + 1;
    }
    assert (set j | 0 <= j < 3 :: DefaultKeys[j]) == defaults.Keys by {
      assert DefaultKeys[0] == TimeFormatKey && DefaultKeys[1] == AutostartKey && DefaultKeys[2] == SchedulesKey;
    }
  }

  /** The current values of the settings-tab widgets. */
  datatype UiValues = UiValues(timeFormat: string, autostart: int)

  /** What `save_settings` does to the document before writing it: it
      overwrites exactly the time format and the autostart flag, and the
      task list and every other key keep their values. */
  function SaveFields(m: map<string, Value>, ui: UiValues): (r: map<string, Value>)
    ensures r.Keys == m.Keys + {TimeFormatKey, AutostartKey}
    ensures r[TimeFormatKey] == Text(ui.timeFormat)
    ensures r[AutostartKey] == Number(ui.autostart)
    ensures forall k :: k in m && k != TimeFormatKey && k != AutostartKey ==> r[k] == m[k]
  {
    m[TimeFormatKey := Text(ui.timeFormat)][AutostartKey := Number(ui.autostart)]
  }

  /** Saving again with the same widget values changes nothing more. */
  lemma SaveFieldsIdempotent(m: map<string, Value>, ui: UiValues)
    ensures SaveFields(SaveFields(m, ui), ui) == SaveFields(m, ui)
  {
  }

  /** `execute_action`: `["systemctl", commands[action]]`; None where the
      lookup raises KeyError, which the surrounding `try` catches and logs. */
  function Command(action: string): (r: Option<seq<string>>)
    ensures r == Some(["systemctl", "poweroff"]) <==> action == UsbSchedule.PowerOff
    ensures r == Some(["systemctl", "reboot"]) <==> action == UsbSchedule.Reboot
    ensures r == Some(["systemctl", "suspend"]) <==> action == UsbSchedule.Sleep
    ensures r == Some(["systemctl", "hibernate"]) <==> action == UsbSchedule.Hibernate
    ensures r.None? <==> action !in {UsbSchedule.PowerOff, UsbSchedule.Reboot, UsbSchedule.Sleep, UsbSchedule.Hibernate}
  {
    if action == UsbSchedule.PowerOff then Some(["systemctl", "poweroff"])
    else if action == UsbSchedule.Reboot then Some(["systemctl", "reboot"])
    else if action == UsbSchedule.Sleep then Some(["systemctl", "suspend"])
    else if action == UsbSchedule.Hibernate then Some(["systemctl", "hibernate"])
    else None
  }

  /** Both customtkinter schedulers run the same command for every action. */
  lemma SameCommandsAsUsb(action: string)
    ensures Command(action) == UsbSchedule.Command(action)
  {
  }

  /** The quick action's `execute`: `minutes` is `int(delay_var.get())`,
      None where that raises ValueError; `max(0, minutes)` turns every
      non-positive delay into immediate execution. */
  function QuickDelay(minutes: Option<int>): (d: UsbSchedule.DelayDecision)
    ensures d.Rejected? <==> minutes.None?
    ensures d.RunNow? <==> minutes.Some? && minutes.value <= 0
    ensures d.RunAfter? ==> minutes.Some? && d.seconds == minutes.value * 60 && d.seconds >= 60
  {
    match minutes
    case None => UsbSchedule.Rejected
    case Some(n) =>
      var clamped := if n < 0 then 0 else n;
      if clamped > 0 then UsbSchedule.RunAfter(clamped * 60) else UsbSchedule.RunNow
  }

  /** The two quick-action dialogs agree on every non-negative delay; a
      negative delay is refused by one and executed at once by the other. */
  lemma DelayPoliciesCompared(minutes: int)
    ensures minutes >= 0 ==> QuickDelay(Some(minutes)) == UsbSchedule.ConfirmDelay(Some(minutes))
    ensures minutes < 0 ==> QuickDelay(Some(minutes)) == UsbSchedule.RunNow && UsbSchedule.ConfirmDelay(Some(minutes)) == UsbSchedule.Rejected
  {
  }

  /** The id `add_schedule` gives a task; `stamp` is the text of
      `datetime.now().timestamp()`. The id starts with the action and the
      time text, each followed by a dash, and the rest of it is the stamp. */
  function TaskId(action: string, timeText: string, stamp: string): (id: string)
    ensures |id| == |action| + |timeText| + |stamp| + 2
    ensures id[..|action| + |timeText| + 2] == action + "-" + timeText + "-"
    ensures id[|action| + |timeText| + 2..] == stamp
  {
    var prefix := action + "-" + timeText + "-";
    var id := prefix + stamp;
    assert id[..|prefix|] == prefix && id[|prefix|..] == stamp;
    id
  }

  /** Tasks added with the same action and time text get different ids
      whenever the timestamp texts differ. */
  lemma TaskIdsDiffer(action: string, timeText: string, a: string, b: string)
    requires a != b
    ensures TaskId(action, timeText, a) != TaskId(action, timeText, b)
  {
  }

  /** Whether one tick over `s` removes any task. */
  predicate RemovesSome(s: seq<Task>, now: string, weekday: nat) {
    |s| > 0 && (RemovesSome(s[..|s| - 1], now, weekday) || RemovedByTick(s[|s| - 1], now, weekday))
  }

  lemma RemovesSomeStep(s: seq<Task>, i: nat, now: string, weekday: nat)
    requires i < |s|
    ensures RemovesSome(s[..i + 1], now, weekday) <==> RemovesSome(s[..i], now, weekday) || RemovedByTick(s[i], now, weekday)
  {
    assert s[..i + 1][..i] == s[..i];
  }

  lemma {:induction false} RemovesSomeIff(s: seq<Task>, now: string, weekday: nat)
    ensures RemovesSome(s, now, weekday) <==> exists i :: 0 <= i < |s| && RemovedByTick(s[i], now, weekday)
    decreases |s|
  {
    if |s| > 0 {
      var last := |s| - 1;
      var s' := s[..last];
      RemovesSomeIff(s', now, weekday);
      if RemovesSome(s, now, weekday) {
        if !RemovedByTick(s[last], now, weekday) {
          var i :| 0 <= i < |s'| && RemovedByTick(s'[i], now, weekday);
          assert s[i] == s'[i];
        }
      } else {
        forall i | 0 <= i < |s|
          ensures !RemovedByTick(s[i], now, weekday)
        {
          if i < last {
            assert s[i] == s'[i];
          }
        }
      }
    }
  }

  /** A tick removes some task exactly when some task of the snapshot
      matches with repeat Once; when none does, the list stays as it was. */
  lemma RemovesSomeSpec(s: seq<Task>, now: string, weekday: nat)
    ensures RemovesSome(s, now, weekday) <==> exists i :: 0 <= i < |s| && RemovedByTick(s[i], now, weekday)
    ensures !RemovesSome(s, now, weekday) ==> Survivors(s, now, weekday) == s
  {
    RemovesSomeIff(s, now, weekday);
    if !RemovesSome(s, now, weekday) {
      NoOnceRemovedKeepsList(s, now, weekday);
    }
  }

  class Scheduler {
    /** The list object `self.settings["schedules"]`, mutated in place. */
    var schedules: seq<Task>
    /** Every other key of `self.settings`. */
    var fields: map<string, Value>

    ghost predicate Valid()
      reads this
    {
      SchedulesKey !in fields
    }

    /** The whole `self.settings` document. */
    function Settings(): (s: map<string, Value>)
      reads this
    {
      fields[SchedulesKey := TaskList(schedules)]
    }

    /** Construction runs `load_settings`. A loaded "schedules" entry that
        is not a task list makes the source fail while restoring the task
        widgets, so it is excluded here. */
    constructor (loaded: Option<map<string, Value>>)
      requires loaded.Some? && SchedulesKey in loaded.value ==> loaded.value[SchedulesKey].TaskList?
      ensures Valid()
      ensures Settings() == WithDefaults(loaded)
    {
      var merged := LoadSettings(loaded);
      schedules := merged[SchedulesKey].tasks;
      fields := merged - {SchedulesKey};
      new;
      assert Settings() == merged;
    }

    /** `save_settings`: only the time format and the autostart flag of
        the document change. */
    method SaveSettings(ui: UiValues)
      requires Valid()
      modifies this
      ensures Valid()
      ensures schedules == old(schedules) && fields == SaveFields(old(fields), ui)
      ensures Settings() == SaveFields(old(Settings()), ui)
    {
      fields := SaveFields(fields, ui);
      assert Settings() == SaveFields(old(Settings()), ui);
    }

    /** `add_schedule`: when `strptime(time, "%H:%M")` accepts the text,
        exactly one task with the given values is appended and the settings
        are saved; otherwise nothing changes. */
    method AddSchedule(action: string, timeText: string, repeat: string, stamp: string, ui: UiValues) returns (added: bool)
      requires Valid()
      modifies this
      ensures Valid()
      ensures added <==> StrptimeAccepts(timeText)
      ensures added ==> schedules == old(schedules) + [Task(TaskId(action, timeText, stamp), action, timeText, repeat)]
      ensures added ==> fields == SaveFields(old(fields), ui)
      ensures !added ==> schedules == old(schedules) && fields == old(fields)
    {
      if !StrptimeAccepts(timeText) {
        return false;
      }
      schedules := schedules + [Task(TaskId(action, timeText, stamp), action, timeText, repeat)];
      SaveSettings(ui);
      added := true;
    }

    /** `delete_schedule(id)`: keeps the tasks whose id differs, then saves. */
    method DeleteSchedule(id: string, ui: UiValues)
      requires Valid()
      modifies this
      ensures Valid()
      ensures schedules == RemoveId(old(schedules), id)
      ensures fields == SaveFields(old(fields), ui)
    {
      schedules := RemoveId(schedules, id);
      SaveSettings(ui);
    }

    /** One pass of `check_scheduled_events`: over the slice copy, every
        task `should_execute` accepts is executed (returned in order in
        `fired`); each fired Once task is removed with `list.remove` and the
        settings are saved right after. */
    method Tick(hour: nat, minute: nat, weekday: nat, ui: UiValues) returns (fired: seq<Task>)
      requires hour < 24 && minute < 60 && weekday < 7
      requires Valid()
      modifies this
      ensures Valid()
      ensures fired == Matched(old(schedules), FormatHM(hour, minute), weekday)
      ensures schedules == Survivors(old(schedules), FormatHM(hour, minute), weekday)
      ensures fields == if RemovesSome(old(schedules), FormatHM(hour, minute), weekday) then SaveFields(old(fields), ui) else old(fields)
    {
      var now := FormatHM(hour, minute);
      var snapshot := schedules;
      ghost var before := fields;
      ghost var saved := false;
      fired := [];
      var i := 0;
      while i < |snapshot|
        invariant 0 <= i <= |snapshot|
        invariant fired == Matched(snapshot[..i], now, weekday)
        invariant schedules == Survivors(snapshot[..i], now, weekday) + snapshot[i..]
        invariant saved <==> RemovesSome(snapshot[..i], now, weekday)
        invariant saved ==> fields == SaveFields(before, ui)
        invariant !saved ==> fields == before
      {
        var task := snapshot[i];
        TickStep(snapshot, i, now, weekday);
        TickLiveStep(snapshot, i, now, weekday);
        RemovesSomeStep(snapshot, i, now, weekday);
        if ShouldExecute(task, now, weekday) {
          fired := fired + [task];
          if task.repeat == Once {
            schedules := RemoveFirst(schedules, task);
            SaveFieldsIdempotent(before, ui);
            fields := SaveFields(fields, ui);  // save_settings()
            saved := true;
          }
        }
        i := i + 1;
      }
      assert snapshot[..i] == snapshot;
      if !saved {
        RemovesSomeSpec(snapshot, now, weekday);
      }
    }
  }
}
