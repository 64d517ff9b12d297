/** The weekly-table scheduler (TimeMaster Linux): one record per weekday
    with an enabled flag, a power-on time, a power-off time and an action,
    edited through per-day editor variables and saved by "apply", plus a
    once-a-minute check that fires the current day's action at its
    power-off time. */
module WeeklySchedule {
  import opened Optional
  import opened TimeText

  /** The actions of the action drop-down. */
  const PowerOff: string := "Выключить"
  const Reboot: string := "Перезагрузка"
  const SleepMode: string := "Спящий режим"

  /** The default power-off time. */
  const DefaultOffTime: string := "23:00"

  /** The stored record `config["schedule"][day]`; `on_time` and
      `off_time` may be JSON null, which is None here. */
  datatype DaySchedule = DaySchedule(enabled: bool, onTime: Option<string>, offTime: Option<string>, action: string)

  /** The four editor variables of one table row: a BooleanVar and three
      StringVars. */
  datatype DayRow = DayRow(enabled: bool, onTime: string, offTime: string, action: string)

  /** `config["settings"]`. */
  datatype AppSettings = AppSettings(theme: string, startMinimized: bool, notifications: bool)

  /** The whole configuration: the seven day records in weekday order
      (Пн..Вс), the autostart program paths and the settings. */
  datatype Config = Config(days: seq<DaySchedule>, programs: seq<string>, settings: AppSettings)

  /** The day record of weekday `i` in the built-in default. */
  function DefaultDay(i: nat): (d: DaySchedule) {
    DaySchedule(i < 5, None, Some(DefaultOffTime), PowerOff)
  }

  /** The `default_config` of `load_config`, used when there is no file or
      it cannot be read. */
  function DefaultConfig(): (c: Config)
    ensures |c.days| == |WeekdayNames| == 7
  {
    Config(seq(7, (i: int) requires 0 <= i < 7 => DefaultDay(i)), [], AppSettings("light", false, true))
  }

  /** The default week: Monday to Friday enabled, the weekend disabled, no
      power-on time, power-off at 23:00 with the power-off action;
      no autostart programs; light theme, not minimised, notifications on. */
  lemma DefaultConfigSpec()
    ensures |DefaultConfig().days| == 7
    ensures forall i :: 0 <= i < 7 ==> (DefaultConfig().days[i].enabled <==> i < 5)
    ensures forall i :: 0 <= i < 7 ==> DefaultConfig().days[i].onTime.None?
    ensures forall i :: 0 <= i < 7 ==> DefaultConfig().days[i].offTime == Some("23:00")
    ensures forall i :: 0 <= i < 7 ==> DefaultConfig().days[i].action == PowerOff
    ensures DefaultConfig().programs == []
    ensures DefaultConfig().settings == AppSettings("light", false, true)
  {
  }

  /** The value a StringVar shows for a stored time: `on_time or ""`, and
      Tk's empty default for a null `off_time`. The field looks empty
      exactly for a null or an empty stored text, and any text it shows is
      the stored one. */
  function OrEmpty(t: Option<string>): (s: string)
    ensures s == "" <==> t.None? || t == Some("")
    ensures s != "" ==> t == Some(s)
  {
    match t
    case None => ""
    case Some(v) => v
  }

  /** The editor row `create_schedule_ui` builds from a stored record. */
  function EditorRowOf(d: DaySchedule): (r: DayRow)
    ensures r.enabled == d.enabled && r.action == d.action
    ensures d.onTime == Some(r.onTime) || (d.onTime.None? && r.onTime == "")
    ensures d.offTime == Some(r.offTime) || (d.offTime.None? && r.offTime == "")
  {
    DayRow(d.enabled, OrEmpty(d.onTime), OrEmpty(d.offTime), d.action)
  }

  /** The record `apply_changes` stores from an editor row: the texts are
      stored as strings, never null. */
  function StoredOf(r: DayRow): (d: DaySchedule)
    ensures d.onTime.Some? && d.offTime.Some?
    ensures d.enabled == r.enabled && d.action == r.action
  {
    DaySchedule(r.enabled, Some(r.onTime), Some(r.offTime), r.action)
  }

  /** Applying and then building the editor again shows the same row. */
  lemma EditorStoredRoundTrip(r: DayRow)
    ensures EditorRowOf(StoredOf(r)) == r
  {
  }

  /** A record without nulls survives being shown and applied unchanged;
      a null time comes back as the empty string. */
  lemma StoredEditorRoundTrip(d: DaySchedule)
    ensures StoredOf(EditorRowOf(d)) == d <==> d.onTime.Some? && d.offTime.Some?
  {
  }

  /** The row `reset_schedule` puts in the editor for weekday `i`: what
      the editor shows for that day's default record. */
  function ResetRow(i: nat): (r: DayRow)
    ensures r == EditorRowOf(DefaultDay(i))
  {
    DayRow(i < 5, "", DefaultOffTime, PowerOff)
  }

  /** Resetting shows exactly what a fresh start with the default
      configuration shows. */
  lemma ResetShowsDefault(i: nat)
    requires i < 7
    ensures ResetRow(i) == EditorRowOf(DefaultConfig().days[i])
  {
  }

  /** The current day's action fires at `now` when the day is enabled and
      its `off_time` is a non-empty string equal to `now`. */
  predicate Fires(d: DaySchedule, now: string): (r: bool)
    ensures r <==> now != "" && d.enabled && d.offTime == Some(now)
  {
    d.enabled && d.offTime.Some? && d.offTime.value != "" && d.offTime.value == now
  }

  /** Against a clock reading, the non-empty test is implied by equality. */
  lemma FiresAtClock(d: DaySchedule, hour: nat, minute: nat)
    requires hour < 24 && minute < 60
    ensures Fires(d, FormatHM(hour, minute)) <==> d.enabled && d.offTime == Some(FormatHM(hour, minute))
  {
  }

  /** A disabled day, or one whose `off_time` is null or empty, never fires. */
  lemma DisabledOrEmptyNeverFires(d: DaySchedule, now: string)
    requires !d.enabled || d.offTime.None? || d.offTime == Some("")
    ensures !Fires(d, now)
  {
  }

  /** A day saved from an editor row fires exactly when the row is enabled
      and its power-off text is the clock's `HH:MM`. */
  lemma AppliedRowFires(r: DayRow, hour: nat, minute: nat)
    requires hour < 24 && minute < 60
    ensures Fires(StoredOf(r), FormatHM(hour, minute)) <==> r.enabled && r.offTime == FormatHM(hour, minute)
  {
  }

  /** With the default week, the power-off action runs at 23:00 on Monday
      to Friday and at no other time. */
  lemma DefaultWeekFires(weekday: nat, hour: nat, minute: nat)
    requires weekday < 7 && hour < 24 && minute < 60
    ensures Fires(DefaultConfig().days[weekday], FormatHM(hour, minute)) <==> weekday < 5 && hour == 23 && minute == 0
  {
    var now := FormatHM(hour, minute);
    if now == DefaultOffTime {
      assert HourOf(DefaultOffTime) == 23 && MinuteOf(DefaultOffTime) == 0;
    }
    if hour == 23 && minute == 0 {
      assert now == DefaultOffTime;
    }
  }

  /** `execute_action`'s shell command: the three known actions map to
      their own commands, and anything else falls back to power-off. */
  function Command(action: string): (cmd: string)
    ensures cmd == "systemctl reboot" <==> action == Reboot
    ensures cmd == "systemctl suspend" <==> action == SleepMode
    ensures cmd == "systemctl poweroff" <==> action != Reboot && action != SleepMode
  {
    if action == PowerOff then "systemctl poweroff"
    else if action == Reboot then "systemctl reboot"
    else if action == SleepMode then "systemctl suspend"
    else "systemctl poweroff"
  }

  /** The three known actions run three different commands. */
  lemma CommandsDistinct(a: string, b: string)
    requires a in {PowerOff, Reboot, SleepMode} && b in {PowerOff, Reboot, SleepMode}
    requires a != b
    ensures Command(a) != Command(b)
  {
  }

  class Scheduler {
    /** `config["schedule"]`, indexed by weekday. */
    var stored: array<DaySchedule>
    /** The editor variables of the schedule table, indexed by weekday. */
    var editor: array<DayRow>
    /** `config["autostart_programs"]`. */
    var programs: seq<string>
    /** `config["settings"]`. */
    var settings: AppSettings
    /** The theme, minimise and notification variables of the settings tab. */
    var shownSettings: AppSettings

    ghost predicate Valid()
      reads this
    {
      stored.Length == 7 && editor.Length == 7
    }

    /** Start-up: the loaded configuration, or the default when there was
        none, is kept and shown in the editor. */
    constructor (loaded: Option<Config>)
      requires loaded.Some? ==> |loaded.value.days| == 7
      ensures Valid() && fresh(stored) && fresh(editor)
      ensures var c := if loaded.Some? then loaded.value else DefaultConfig();
        && stored[..] == c.days
        && (forall d :: 0 <= d < 7 ==> editor[d] == EditorRowOf(c.days[d]))
        && programs == c.programs && settings == c.settings && shownSettings == c.settings
    {
      var c := if loaded.Some? then loaded.value else DefaultConfig();
      var days := c.days;
      stored := new DaySchedule[7](i requires 0 <= i < 7 => days[i]);
      editor := new DayRow[7](i requires 0 <= i < 7 => EditorRowOf(days[i]));
      programs := c.programs;
      settings := c.settings;
      shownSettings := c.settings;
      new;
      assert stored[..] == days;
    }

    /** `copy_day_settings(day)`: every other row takes a copy of the
        chosen row, which is itself unchanged. */
    method CopyDaySettings(day: nat)
      requires Valid() && day < 7
      modifies editor
      ensures forall d :: 0 <= d < 7 ==> editor[d] == old(editor[day])
    {
      var row := editor[day];
      var d := 0;
      while d < 7
        invariant 0 <= d <= 7
        invariant editor[day] == row
        invariant forall k :: 0 <= k < d ==> editor[k] == row
      {
        if d != day {
          editor[d] := row;
        }
        d := d + 1;
      }
    }

    /** `set_all_days(state)`: every enabled flag becomes `state`; times
        and actions are untouched. */
    method SetAllDays(state: bool)
      requires Valid()
      modifies editor
      ensures forall d :: 0 <= d < 7 ==> editor[d] == old(editor[d]).(enabled := state)
    {
      ghost var before := editor[..];
      var d := 0;
      while d < 7
        invariant 0 <= d <= 7
        invariant forall k :: 0 <= k < d ==> editor[k] == before[k].(enabled := state)
        invariant forall k :: d <= k < 7 ==> editor[k] == before[k]
      {
        editor[d] := editor[d].(enabled := state);
        d := d + 1;
      }
    }

    /** `reset_schedule`: every row becomes the default row of its day. */
    method ResetSchedule()
      requires Valid()
      modifies editor
      ensures forall d :: 0 <= d < 7 ==> editor[d] == ResetRow(d)
      ensures forall d :: 0 <= d < 7 ==> editor[d] == EditorRowOf(DefaultConfig().days[d])
    {
      var d := 0;
      while d < 7
        invariant 0 <= d <= 7
        invariant forall k :: 0 <= k < d ==> editor[k] == ResetRow(k)
      {
        editor[d] := DayRow(d < 5, "", DefaultOffTime, PowerOff);
        d := d + 1;
      }
    }

    /** `apply_changes`: each day's stored record becomes the current
        editor row, and the settings become the settings tab's values;
        the editor is untouched. */
    method ApplyChanges()
      requires Valid()
      modifies stored, this
      ensures stored == old(stored) && editor == old(editor) && programs == old(programs)
      ensures forall d :: 0 <= d < 7 ==> stored[d] == StoredOf(editor[d])
      ensures forall d :: 0 <= d < 7 ==> EditorRowOf(stored[d]) == editor[d]
      ensures shownSettings == old(shownSettings) && settings == old(shownSettings)
    {
      var d := 0;
      while d < 7
        invariant 0 <= d <= 7
        invariant forall k :: 0 <= k < d ==> stored[k] == StoredOf(editor[k])
        modifies stored
      {
        stored[d] := StoredOf(editor[d]);
        d := d + 1;
      }
      settings := shownSettings;
    }

    /** One pass of `check_schedule` with the clock read before the sleep:
        only the record of that weekday is consulted, and at most one
        action fires, exactly when that day fires at that time. */
    method CheckPass(hour: nat, minute: nat, weekday: nat) returns (fired: Option<string>)
      requires Valid() && hour < 24 && minute < 60 && weekday < 7
      ensures fired.Some? <==> stored[weekday].enabled && stored[weekday].offTime == Some(FormatHM(hour, minute))
      ensures fired.Some? ==> fired.value == stored[weekday].action
    {
      var now := FormatHM(hour, minute);
      var schedule := stored[weekday];
      FiresAtClock(schedule, hour, minute);
      if schedule.enabled && schedule.offTime.Some? && schedule.offTime.value != "" && schedule.offTime.value == now {
        fired := Some(schedule.action);
      } else {
        fired := None;
      }
    }
  }
}
