/** The sleep-window scheduler: a JSON document whose `"sleep_times"`
    list holds `{weekday, start_time, end_time}` windows, edited from the
    schedule tab, and a check that asks for sleep when the current time
    lies inside a window of the current weekday. */
module WindowSchedule {
  import opened Optional
  import opened TimeText

  /** A value of the JSON document as `json.load` returns it. */
  datatype Json =
    | Null
    | Bool(b: bool)
    | Num(n: int)
    | Str(s: string)
    | Arr(items: seq<Json>)
    | Obj(fields: map<string, Json>)

  /** `d.get(key, default)`. */
  function Get(m: map<string, Json>, key: string, default: Json): (v: Json)
    ensures key in m ==> v == m[key]
    ensures key !in m ==> v == default
  {
    if key in m then m[key] else default
  }

  const SleepTimesKey: string := "sleep_times"

  /** The message the check puts on the queue. */
  datatype Message = Message(kind: string, data: string)

  const SleepMessage: Message := Message("SLEEP", "")

  /** The schedule `load_schedule` returns: the loaded document when it is
      an object holding `"sleep_times"`, otherwise an empty list. `loaded`
      is None when the file is missing or cannot be read or parsed. */
  function LoadSchedule(loaded: Option<Json>): (m: map<string, Json>)
    ensures SleepTimesKey in m
    ensures loaded.Some? && loaded.value.Obj? && SleepTimesKey in loaded.value.fields ==> m == loaded.value.fields
    ensures !(loaded.Some? && loaded.value.Obj? && SleepTimesKey in loaded.value.fields) ==> m == map[SleepTimesKey := Arr([])]
  {
    match loaded
    case Some(Obj(fields)) => if SleepTimesKey in fields then fields else map[SleepTimesKey := Arr([])]
    case _ => map[SleepTimesKey := Arr([])]
  }

  /** The verdict of the entry form before anything is stored. */
  datatype Validation =
    | EmptyField
    | BadFormat
    | NotLater
    | Accepted(start: string, end: string)

  /** The checks of `add_schedule_item` on the stripped field texts: all
      three filled, both times matching the `HH:MM` pattern, and after
      zero-padding the end strictly after the start. The string test
      `start_time >= end_time` on padded texts is the comparison of the
      minutes since midnight. */
  function Validate(day: string, start: string, end: string): (v: Validation)
    ensures v.EmptyField? <==> day == "" || start == "" || end == ""
    ensures v.BadFormat? <==> day != "" && start != "" && end != "" && !(MatchesTimePattern(start) && MatchesTimePattern(end))
    ensures v.NotLater? <==>
      && day != "" && start != "" && end != ""
      && MatchesTimePattern(start) && MatchesTimePattern(end)
      && Minutes(NormalizeTime(end)) <= Minutes(NormalizeTime(start))
    ensures v.Accepted? ==>
      && MatchesTimePattern(start) && MatchesTimePattern(end)
      && v.start == NormalizeTime(start) && v.end == NormalizeTime(end)
      && Minutes(v.start) < Minutes(v.end)
  {
    if day == "" || start == "" || end == "" then EmptyField
    else if !MatchesTimePattern(start) || !MatchesTimePattern(end) then BadFormat
    else
      var s := NormalizeTime(start);
      var e := NormalizeTime(end);
      CanonicalOrder(s, e);
      if !StrLess(s, e) then NotLater else Accepted(s, e)
  }

  /** The entry `add_schedule_item` appends. */
  function EntryOf(day: string, start: string, end: string): (e: Json) {
    Obj(map["weekday" := Str(day), "start_time" := Str(start), "end_time" := Str(end)])
  }

  /** The outcome of one entry of the check loop: skipped, a hit that asks
      for sleep and ends the loop, or a TypeError from comparing a
      non-string time, which ends the pass in the exception handler. */
  datatype EntryResult = Skip | Hit | Raise

  /** One iteration of the `for entry in ...` loop of `check_schedule`:
      non-objects and other weekdays are skipped, and the chained
      `start_time <= current_time <= end_time` compares the end only when
      the start is not after the current time. */
  function Classify(entry: Json, dayName: string, now: string): (r: EntryResult)
    ensures r != Skip ==> entry.Obj? && Get(entry.fields, "weekday", Str("")) == Str(dayName)
    ensures r == Hit ==>
      var start := Get(entry.fields, "start_time", Str("00:00"));
      var end := Get(entry.fields, "end_time", Str("00:00"));
      start.Str? && end.Str? && StrLessEq(start.s, now) && StrLessEq(now, end.s)
    ensures r == Raise ==> !Get(entry.fields, "start_time", Str("00:00")).Str? || !Get(entry.fields, "end_time", Str("00:00")).Str?
  {
    match entry
    case Obj(fields) =>
      var day := Get(fields, "weekday", Str(""));
      var start := Get(fields, "start_time", Str("00:00"));
      var end := Get(fields, "end_time", Str("00:00"));
      if day != Str(dayName) then Skip
      else if !start.Str? then Raise
      else if !StrLessEq(start.s, now) then Skip
      else if !end.Str? then Raise
      else if StrLessEq(now, end.s) then Hit
      else Skip
    case _ => Skip
  }

  datatype PassOutcome = Quiet | Sleep | Failed

  /** The loop over the window list from the front: the first entry that
      does not skip decides the pass. */
  function ScanItems(items: seq<Json>, dayName: string, now: string): (r: PassOutcome)
    decreases |items|
  {
    if |items| == 0 then Quiet
    else match Classify(items[0], dayName, now)
      case Hit => Sleep
      case Raise => Failed
      case Skip => ScanItems(items[1..], dayName, now)
  }

  /** One pass of `check_schedule` on the whole document: iterating an
      object or a string yields strings, which are all skipped; iterating
      a number, a boolean or null raises TypeError. */
  function WindowPass(schedule: map<string, Json>, dayName: string, now: string): (r: PassOutcome)
    ensures r != Quiet ==> SleepTimesKey in schedule
    ensures r == Sleep ==> schedule[SleepTimesKey].Arr?
    ensures r == Sleep ==>
      exists j :: 0 <= j < |schedule[SleepTimesKey].items| && Classify(schedule[SleepTimesKey].items[j], dayName, now) == Hit
  {
    match Get(schedule, SleepTimesKey, Arr([]))
    case Arr(items) => ScanSleepIff(items, dayName, now); ScanItems(items, dayName, now)
    case Obj(_) => Quiet
    case Str(_) => Quiet
    case _ => Failed
  }

  /** A pass asks for sleep exactly when some entry is a hit and every
      entry before it is skipped. */
  lemma {:induction false} ScanSleepIff(items: seq<Json>, dayName: string, now: string)
    ensures ScanItems(items, dayName, now) == Sleep <==>
      exists j :: 0 <= j < |items| && Classify(items[j], dayName, now) == Hit &&
        forall k :: 0 <= k < j ==> Classify(items[k], dayName, now) == Skip
  {
    if |items| > 0 {
      ScanSleepIff(items[1..], dayName, now);
      var c := Classify(items[0], dayName, now);
      if c == Skip {
        if ScanItems(items, dayName, now) == Sleep {
          var j :| 0 <= j < |items[1..]| && Classify(items[1..][j], dayName, now) == Hit &&
            forall k :: 0 <= k < j ==> Classify(items[1..][k], dayName, now) == Skip;
          assert Classify(items[j + 1], dayName, now) == Hit;
          assert forall k :: 0 <= k < j + 1 ==> Classify(items[k], dayName, now) == Skip by {
            forall k | 0 <= k < j + 1
              ensures Classify(items[k], dayName, now) == Skip
            {
              if k > 0 {
                assert items[k] == items[1..][k - 1];
              }
            }
          }
        } else {
          forall j | 0 <= j < |items| && Classify(items[j], dayName, now) == Hit
            ensures exists k :: 0 <= k < j && Classify(items[k], dayName, now) != Skip
          {
            assert j > 0;
            assert items[1..][j - 1] == items[j];
            var k :| 0 <= k < j - 1 && Classify(items[1..][k], dayName, now) != Skip;
            assert items[k + 1] == items[1..][k];
          }
        }
      }
    }
  }

  /** An entry made by `add_schedule_item` hits exactly when it is for the
      current weekday and the current time lies in its window, counted in
      minutes since midnight. */
  lemma AddedEntryHits(day: string, start: string, end: string, dayName: string, now: string)
    requires IsCanonical(start) && IsCanonical(end) && IsCanonical(now)
    ensures Classify(EntryOf(day, start, end), dayName, now) == Hit <==>
      day == dayName && Minutes(start) <= Minutes(now) <= Minutes(end)
    ensures Classify(EntryOf(day, start, end), dayName, now) != Raise
  {
    CanonicalOrderEq(start, now);
    CanonicalOrderEq(now, end);
  }

  /** The comparison is on strings: a hand-written unpadded start such as
      "9:00" sorts after "10:30", so that window misses at 10:30 although
      9:00 <= 10:30 <= 23:00. */
  lemma UnpaddedStartMisses()
    ensures Classify(EntryOf("Пн", "9:00", "23:00"), "Пн", "10:30") == Skip
  {
    assert !StrLess("9:00", "10:30");
  }

  class Scheduler {
    /** `self.schedule`, the loaded JSON object. */
    var schedule: map<string, Json>

    /** Start-up: the schedule comes from `load_schedule`. */
    constructor (loaded: Option<Json>)
      ensures schedule == LoadSchedule(loaded)
    {
      schedule := LoadSchedule(loaded);
    }

    /** `add_schedule_item` on the stripped field texts: `v` is the form's
        verdict; an accepted window is appended to `"sleep_times"`, which is
        created empty when missing. A `"sleep_times"` that is not a list has
        no `append`, and the AttributeError leaves the schedule unchanged. */
    method AddScheduleItem(day: string, start: string, end: string) returns (v: Validation, added: bool)
      modifies this
      ensures v == Validate(day, start, end)
      ensures added <==> v.Accepted? && (SleepTimesKey !in old(schedule) || old(schedule)[SleepTimesKey].Arr?)
      ensures added ==> schedule == old(schedule)[SleepTimesKey :=
        Arr(Get(old(schedule), SleepTimesKey, Arr([])).items + [EntryOf(day, v.start, v.end)])]
      ensures !added ==> schedule == old(schedule)
    {
      v := Validate(day, start, end);
      added := false;
      if !v.Accepted? {
        return;
      }
      var entry := EntryOf(day, v.start, v.end);
      if SleepTimesKey !in schedule {
        schedule := schedule[SleepTimesKey := Arr([])];
      }
      var list := schedule[SleepTimesKey];
      if !list.Arr? {
        return;
      }
      schedule := schedule[SleepTimesKey := Arr(list.items + [entry])];
      added := true;
    }

    /** `delete_schedule_item` with the listbox selection (None when
        nothing is selected): the entry at that index of the raw list is
        popped when the list is a list long enough; otherwise nothing
        changes. */
    method DeleteScheduleItem(selection: Option<nat>) returns (removed: bool)
      modifies this
      ensures removed <==> (selection.Some? && SleepTimesKey in old(schedule) &&
        old(schedule)[SleepTimesKey].Arr? && selection.value < |old(schedule)[SleepTimesKey].items|)
      ensures removed ==> schedule == old(schedule)[SleepTimesKey :=
        Arr(old(schedule)[SleepTimesKey].items[..selection.value] + old(schedule)[SleepTimesKey].items[selection.value + 1..])]
      ensures !removed ==> schedule == old(schedule)
    {
      removed := false;
      if selection.None? {
        return;
      }
      var index := selection.value;
      var list := Get(schedule, SleepTimesKey, Arr([]));
      if list.Arr? && index < |list.items| {
        schedule := schedule[SleepTimesKey := Arr(list.items[..index] + list.items[index + 1..])];
        removed := true;
      }
    }

    /** `clear_schedule`: when confirmed, the window list becomes empty. */
    method ClearSchedule(confirmed: bool)
      modifies this
      ensures confirmed ==> schedule == old(schedule)[SleepTimesKey := Arr([])]
      ensures !confirmed ==> schedule == old(schedule)
    {
      if confirmed {
        schedule := schedule[SleepTimesKey := Arr([])];
      }
    }

    /** One pass of `check_schedule` at the clock reading `hour:minute` on
        `weekday`: at most one sleep request is queued, exactly when the
        pass asks for sleep, and `failed` says the pass ended in the
        exception handler. */
    method CheckPass(hour: nat, minute: nat, weekday: nat) returns (messages: seq<Message>, failed: bool)
      requires hour < 24 && minute < 60 && weekday < 7
      ensures messages == (if WindowPass(schedule, WeekdayNames[weekday], FormatHM(hour, minute)) == Sleep then [SleepMessage] else [])
      ensures failed <==> WindowPass(schedule, WeekdayNames[weekday], FormatHM(hour, minute)) == Failed
    {
      var now := FormatHM(hour, minute);
      var name := WeekdayNames[weekday];
      messages := [];
      failed := false;
      var list := Get(schedule, SleepTimesKey, Arr([]));
      if list.Null? || list.Bool? || list.Num? {
        failed := true;
        return;
      }
      if !list.Arr? {
        return;
      }
      var items := list.items;
      var i := 0;
      while i < |items|
        invariant 0 <= i <= |items|
        invariant ScanItems(items[i..], name, now) == ScanItems(items, name, now)
        invariant messages == [] && !failed
      {
        assert items[i..][1..] == items[i + 1..];
        var entry := items[i];
        if entry.Obj? {
          var day := Get(entry.fields, "weekday", Str(""));
          var start := Get(entry.fields, "start_time", Str("00:00"));
          var end := Get(entry.fields, "end_time", Str("00:00"));
          if day == Str(name) {
            if !start.Str? {
              failed := true;
              break;
            }
            if StrLessEq(start.s, now) {
              if !end.Str? {
                failed := true;
                break;
              }
              if StrLessEq(now, end.s) {
                messages := [SleepMessage];
                break;
              }
            }
          }
        }
        i := i + 1;
      }
    }
  }
}
