/** The customtkinter scheduler of linux/SleepScheduler_USB: a list of
    `{id, action, time, repeat}` tasks edited from the schedule tab and
    scanned every 15 seconds, the delayed quick action, and the
    action-to-command map. */
module UsbSchedule {
  import opened Optional
  import opened TimeText
  import opened Tasks

  /** The actions of the action menus. */
  const PowerOff: string := "Выключить"
  const Reboot: string := "Перезагрузка"
  const Sleep: string := "Сон"
  const Hibernate: string := "Гибернация"

  /** The argument vector `commands[action].split()` that `execute_action`
      runs; None where the lookup raises KeyError, which the worker thread
      catches and reports as an execution error. */
  function Command(action: string): (r: Option<seq<string>>)
    ensures r == Some(["systemctl", "poweroff"]) <==> action == PowerOff
    ensures r == Some(["systemctl", "reboot"]) <==> action == Reboot
    ensures r == Some(["systemctl", "suspend"]) <==> action == Sleep
    ensures r == Some(["systemctl", "hibernate"]) <==> action == Hibernate
    ensures r.None? <==> action !in {PowerOff, Reboot, Sleep, Hibernate}
  {
    if action == PowerOff then Some(["systemctl", "poweroff"])
    else if action == Reboot then Some(["systemctl", "reboot"])
    else if action == Sleep then Some(["systemctl", "suspend"])
    else if action == Hibernate then Some(["systemctl", "hibernate"])
    else None
  }

  /** The four actions run four different commands. */
  lemma CommandsDistinct(a: string, b: string)
    requires a in {PowerOff, Reboot, Sleep, Hibernate} && b in {PowerOff, Reboot, Sleep, Hibernate}
    requires a != b
    ensures Command(a) != Command(b)
  {
  }

  /** What a quick-action dialog does with the chosen action: refuse the
      delay, execute at once, or start a timer of that many seconds. */
  datatype DelayDecision = Rejected | RunNow | RunAfter(seconds: nat)

  /** `confirm_action`: `minutes` is `int(delay_var.get())`, None where that
      conversion raises ValueError. A negative value raises ValueError as
      well, zero executes at once, and a positive value starts a
      `threading.Timer(minutes * 60, ...)`. */
  function ConfirmDelay(minutes: Option<int>): (d: DelayDecision)
    ensures d.Rejected? <==> minutes.None? || minutes.value < 0
    ensures d.RunNow? <==> minutes == Some(0)
    ensures d.RunAfter? <==> minutes.Some? && minutes.value > 0
    ensures d.RunAfter? ==> d.seconds == minutes.value * 60 && d.seconds >= 60
  {
    match minutes
    case None => Rejected
    case Some(n) => if n < 0 then Rejected else if n == 0 then RunNow else RunAfter(n * 60)
  }

  /** The id `add_schedule` gives a task: action, time text and the whole
      seconds of the clock, joined by dashes. The part after the time text
      is a decimal numeral that reads back as the clock seconds. */
  function TaskId(action: string, timeText: string, clockSeconds: nat): (id: string)
    ensures |id| > |action| + |timeText| + 2
    ensures id[..|action| + |timeText| + 2] == action + "-" + timeText + "-"
    ensures forall i :: |action| + |timeText| + 2 <= i < |id| ==> IsDigit(id[i])
    ensures DecimalValue(id[|action| + |timeText| + 2..]) == clockSeconds
  {
    var prefix := action + "-" + timeText + "-";
    var id := prefix + NatText(clockSeconds);
    assert id[..|prefix|] == prefix && id[|prefix|..] == NatText(clockSeconds);
    id
  }

  /** Tasks added with the same action and time text get different ids
      unless they are added within the same second of the clock. */
  lemma TaskIdsDiffer(action: string, timeText: string, a: nat, b: nat)
    requires a != b
    ensures TaskId(action, timeText, a) != TaskId(action, timeText, b)
  {
  }

  class Scheduler {
    /** `self.settings["schedules"]`. */
    var schedules: seq<Task>

    /** The scheduler starts from the task list of the settings it loaded
        (the empty list of the built-in defaults when there is no file). */
    constructor (loaded: seq<Task>)
      ensures schedules == loaded
    {
      schedules := loaded;
    }

    /** `add_schedule`: when `strptime(time, "%H:%M")` accepts the text,
        exactly one task carrying the given values is appended, its time
        stored as typed; otherwise the list is unchanged. */
    method AddSchedule(action: string, timeText: string, repeat: string, clockSeconds: nat) returns (added: bool)
      modifies this
      ensures added <==> StrptimeAccepts(timeText)
      ensures added ==> schedules == old(schedules) + [Task(TaskId(action, timeText, clockSeconds), action, timeText, repeat)]
      ensures !added ==> schedules == old(schedules)
    {
      if !StrptimeAccepts(timeText) {
        return false;
      }
      schedules := schedules + [Task(TaskId(action, timeText, clockSeconds), action, timeText, repeat)];
      added := true;
    }

    /** `delete_schedule(id)`: rebinds the list to the tasks whose id differs. */
    method DeleteSchedule(id: string)
      modifies this
      ensures schedules == RemoveId(old(schedules), id)
    {
      schedules := RemoveId(schedules, id);
    }

    /** One pass of `check_scheduled_events` at the clock reading
        `hour:minute` on `weekday`: it walks a copy of the list, executes
        every task that `should_execute` accepts (returned in order in
        `fired`), and removes each fired Once task from the live list with
        `list.remove`. */
    method Tick(hour: nat, minute: nat, weekday: nat) returns (fired: seq<Task>)
      requires hour < 24 && minute < 60 && weekday < 7
      modifies this
      ensures fired == Matched(old(schedules), FormatHM(hour, minute), weekday)
      ensures schedules == Survivors(old(schedules), FormatHM(hour, minute), weekday)
    {
      var now := FormatHM(hour, minute);
      var snapshot := schedules;
      fired := [];
      var i := 0;
      while i < |snapshot|
        invariant 0 <= i <= |snapshot|
        invariant fired == Matched(snapshot[..i], now, weekday)
        invariant schedules == Survivors(snapshot[..i], now, weekday) + snapshot[i..]
      {
        var task := snapshot[i];
        TickStep(snapshot, i, now, weekday);
        TickLiveStep(snapshot, i, now, weekday);
        if ShouldExecute(task, now, weekday) {
          fired := fired + [task];
          if task.repeat == Once {
            schedules := RemoveFirst(schedules, task);
          }
        }
        i := i + 1;
      }
      assert snapshot[..i] == snapshot;
    }
  }
}
