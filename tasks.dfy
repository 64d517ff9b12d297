/** The task list shared by the two customtkinter schedulers: the task
    record, the `should_execute` rule, delete-by-id, Python's
    `list.remove`, and what one evaluator tick fires and keeps. */
module Tasks {
  import opened TimeText

  /** The repeat values offered by the repeat menu. */
  const Once: string := "Один раз"
  const Daily: string := "Ежедневно"
  const Weekdays: string := "По будням"
  const Weekends: string := "По выходным"

  /** One `{id, action, time, repeat}` entry of `settings["schedules"]`. */
  datatype Task = Task(id: string, action: string, time: string, repeat: string)

  /** `should_execute(task, now)`: the stored time must equal the current
      `HH:MM` text; then Weekdays needs weekday < 5, Weekends needs
      weekday >= 5, and every other repeat value (Daily, Once, anything
      else) matches on every day. `weekday` is `datetime.today().weekday()`. */
  predicate ShouldExecute(t: Task, now: string, weekday: nat): (r: bool)
    ensures r ==> t.time == now
    ensures t.time == now ==> (r <==> (t.repeat == Weekdays ==> weekday < 5) && (t.repeat == Weekends ==> weekday >= 5))
  {
    if t.time != now then false
    else if t.repeat == Daily then true
    else if t.repeat == Weekdays then weekday < 5
    else if t.repeat == Weekends then weekday >= 5
    else true
  }

  /** For a task at its own time, on any day exactly one of the repeat
      values Weekdays and Weekends matches, and every value other than
      those two matches whatever the day. */
  lemma RepeatRules(t: Task, weekday: nat)
    ensures ShouldExecute(t.(repeat := Weekdays), t.time, weekday) != ShouldExecute(t.(repeat := Weekends), t.time, weekday)
    ensures t.repeat != Weekdays && t.repeat != Weekends ==> ShouldExecute(t, t.time, weekday)
    ensures ShouldExecute(t.(repeat := Weekdays), t.time, weekday) <==> weekday < 5
  {
  }

  /** A task only ever matches a clock text `FormatHM(h, m)` when its own
      time is that canonical text: the comparison is exact string equality. */
  lemma MatchNeedsCanonicalTime(t: Task, h: nat, m: nat, weekday: nat)
    requires h < 24 && m < 60
    requires ShouldExecute(t, FormatHM(h, m), weekday)
    ensures IsCanonical(t.time) && Minutes(t.time) == h * 60 + m
  {
  }

  /** `strptime` accepts "7:30", so such a task can be stored, yet no clock
      reading ever produces that text, so the task never fires. */
  lemma UnpaddedTimeNeverFires(t: Task)
    requires t.time == "7:30"
    ensures StrptimeAccepts(t.time)
    ensures forall h: nat, m: nat, weekday: nat | h < 24 && m < 60 :: !ShouldExecute(t, FormatHM(h, m), weekday)
  {
    assert t.time[..1] == "7" && t.time[2..] == "30";
  }

  /** The elements of `s` that satisfy `p`, in their original order. */
  function Filter<T>(p: T -> bool, s: seq<T>): (r: seq<T>) {
    if |s| == 0 then [] else Filter(p, s[..|s| - 1]) + (if p(s[|s| - 1]) then [s[|s| - 1]] else [])
  }

  lemma FilterSnoc<T>(p: T -> bool, s: seq<T>, i: nat)
    requires i < |s|
    ensures Filter(p, s[..i + 1]) == Filter(p, s[..i]) + (if p(s[i]) then [s[i]] else [])
  {
    assert s[..i + 1][..i] == s[..i];
  }

  /** Filtering distributes over concatenation: relative order is kept. */
  lemma {:induction false} FilterAppend<T>(p: T -> bool, a: seq<T>, b: seq<T>)
    ensures Filter(p, a + b) == Filter(p, a) + Filter(p, b)
    decreases |b|
  {
    if |b| > 0 {
      var b' := b[..|b| - 1];
      assert (a + b)[..|a + b| - 1] == a + b';
      FilterAppend(p, a, b');
    } else {
      assert a + b == a;
    }
  }

  /** Each value occurs in the filtered sequence exactly as often as in the
      input if it satisfies `p`, and not at all otherwise. */
  lemma {:induction false} FilterCount<T>(p: T -> bool, s: seq<T>, x: T)
    ensures multiset(Filter(p, s))[x] == if p(x) then multiset(s)[x] else 0
    decreases |s|
  {
    if |s| > 0 {
      var s' := s[..|s| - 1];
      assert s == s' + [s[|s| - 1]];
      FilterCount(p, s', x);
    }
  }

  lemma FilterMember<T>(p: T -> bool, s: seq<T>, x: T)
    ensures x in Filter(p, s) <==> x in s && p(x)
  {
    FilterCount(p, s, x);
    assert x in Filter(p, s) <==> multiset(Filter(p, s))[x] > 0;
    assert x in s <==> multiset(s)[x] > 0;
  }

  lemma FilterMembers<T>(p: T -> bool, s: seq<T>)
    ensures forall x :: x in Filter(p, s) <==> x in s && p(x)
  {
    forall x
      ensures x in Filter(p, s) <==> x in s && p(x)
    {
      FilterMember(p, s, x);
    }
  }

  /** A filter that keeps every element changes nothing. */
  lemma {:induction false} FilterKeepsAll<T>(p: T -> bool, s: seq<T>)
    requires forall i :: 0 <= i < |s| ==> p(s[i])
    ensures Filter(p, s) == s
    decreases |s|
  {
    if |s| > 0 {
      var s' := s[..|s| - 1];
      FilterKeepsAll(p, s');
      assert s == s' + [s[|s| - 1]];
    }
  }

  /** `list.remove(x)`: drop the first element equal to `x` (Python raises
      ValueError when there is none, which the callers never reach). */
  function RemoveFirst<T(==)>(s: seq<T>, x: T): (r: seq<T>)
    requires x in s
    ensures |r| == |s| - 1
    ensures multiset(r) == multiset(s) - multiset{x}
  {
    if s[0] == x then
      assert s == [s[0]] + s[1..];
      s[1..]
    else
      assert s == [s[0]] + s[1..];
      [s[0]] + RemoveFirst(s[1..], x)
  }

  /** When `x` does not occur before a given position, `remove(x)` drops
      exactly the element at that position. */
  lemma {:induction false} RemoveFirstAt<T>(a: seq<T>, x: T, b: seq<T>)
    requires x !in a
    ensures x in a + [x] + b
    ensures RemoveFirst(a + [x] + b, x) == a + b
    decreases |a|
  {
    var s := a + [x] + b;
    assert s[|a|] == x;
    if |a| == 0 {
      assert s[0] == x && s[1..] == b;
    } else {
      assert s[0] == a[0] != x;
      assert s[1..] == a[1..] + [x] + b;
      RemoveFirstAt(a[1..], x, b);
      assert a == [a[0]] + a[1..];
    }
  }

  /** `delete_schedule(id)`: `[t for t in schedules if t["id"] != id]`.
      No task left carries the id, and every task without it is kept. */
  function RemoveId(s: seq<Task>, id: string): (r: seq<Task>)
    ensures forall t :: t in r <==> t in s && t.id != id
  {
    var p := (t: Task) => t.id != id;
    FilterMembers(p, s);
    Filter(p, s)
  }

  /** Deleting by id removes every occurrence of every task carrying that
      id, keeps every other task as often as it occurred, keeps relative
      order, and is a no-op when no task has the id. */
  lemma RemoveIdSpec(s: seq<Task>, id: string)
    ensures forall t :: multiset(RemoveId(s, id))[t] == if t.id == id then 0 else multiset(s)[t]
    ensures forall a, b :: s == a + b ==> RemoveId(s, id) == RemoveId(a, id) + RemoveId(b, id)
    ensures (forall i :: 0 <= i < |s| ==> s[i].id != id) ==> RemoveId(s, id) == s
  {
    var p := (t: Task) => t.id != id;
    forall t ensures multiset(RemoveId(s, id))[t] == if t.id == id then 0 else multiset(s)[t] {
      FilterCount(p, s, t);
    }
    forall a, b | s == a + b ensures RemoveId(s, id) == RemoveId(a, id) + RemoveId(b, id) {
      FilterAppend(p, a, b);
    }
    if forall i :: 0 <= i < |s| ==> s[i].id != id {
      FilterKeepsAll(p, s);
    }
  }

  /** A task that one tick removes: it matched and its repeat is Once. */
  predicate RemovedByTick(t: Task, now: string, weekday: nat) {
    ShouldExecute(t, now, weekday) && t.repeat == Once
  }

  /** The tasks of a snapshot whose action one tick executes, in order. */
  function Matched(s: seq<Task>, now: string, weekday: nat): (r: seq<Task>) {
    Filter((t: Task) => ShouldExecute(t, now, weekday), s)
  }

  /** The tasks still in `schedules` after one tick over the snapshot `s`. */
  function Survivors(s: seq<Task>, now: string, weekday: nat): (r: seq<Task>) {
    Filter((t: Task) => !RemovedByTick(t, now, weekday), s)
  }

  lemma TickStep(s: seq<Task>, i: nat, now: string, weekday: nat)
    requires i < |s|
    ensures Matched(s[..i + 1], now, weekday) == Matched(s[..i], now, weekday) + (if ShouldExecute(s[i], now, weekday) then [s[i]] else [])
    ensures Survivors(s[..i + 1], now, weekday) == Survivors(s[..i], now, weekday) + (if RemovedByTick(s[i], now, weekday) then [] else [s[i]])
    ensures RemovedByTick(s[i], now, weekday) ==> s[i] !in Survivors(s[..i], now, weekday)
  {
    FilterSnoc((t: Task) => ShouldExecute(t, now, weekday), s, i);
    FilterSnoc((t: Task) => !RemovedByTick(t, now, weekday), s, i);
    FilterMember((t: Task) => !RemovedByTick(t, now, weekday), s[..i], s[i]);
  }

  /** The live list while a tick is at position `i` of its snapshot: the
      survivors of the part already scanned, then the rest. `list.remove`
      of a removed task drops exactly that task, and the live list then has
      the same shape one position further on. */
  lemma TickLiveStep(s: seq<Task>, i: nat, now: string, weekday: nat)
    requires i < |s|
    ensures RemovedByTick(s[i], now, weekday) ==>
      && s[i] in Survivors(s[..i], now, weekday) + s[i..]
      && RemoveFirst(Survivors(s[..i], now, weekday) + s[i..], s[i]) == Survivors(s[..i + 1], now, weekday) + s[i + 1..]
    ensures !RemovedByTick(s[i], now, weekday) ==>
      Survivors(s[..i], now, weekday) + s[i..] == Survivors(s[..i + 1], now, weekday) + s[i + 1..]
  {
    TickStep(s, i, now, weekday);
    var done := Survivors(s[..i], now, weekday);
    assert s[i..] == [s[i]] + s[i + 1..];
    if RemovedByTick(s[i], now, weekday) {
      RemoveFirstAt(done, s[i], s[i + 1..]);
      assert done + s[i..] == done + [s[i]] + s[i + 1..];
    } else {
      assert done + s[i..] == (done + [s[i]]) + s[i + 1..];
    }
  }

  /** What one tick does, counted per task value: every matching task of
      the snapshot is executed once per occurrence, every matched Once task
      is gone afterwards, every other task is kept as often as it occurred,
      and the kept tasks stay in their original relative order. */
  lemma TickSpec(s: seq<Task>, now: string, weekday: nat)
    ensures forall t :: multiset(Matched(s, now, weekday))[t] == if ShouldExecute(t, now, weekday) then multiset(s)[t] else 0
    ensures forall t :: multiset(Survivors(s, now, weekday))[t] == if RemovedByTick(t, now, weekday) then 0 else multiset(s)[t]
    ensures forall a, b :: s == a + b ==> Survivors(s, now, weekday) == Survivors(a, now, weekday) + Survivors(b, now, weekday)
  {
    var fires := (t: Task) => ShouldExecute(t, now, weekday);
    var keeps := (t: Task) => !RemovedByTick(t, now, weekday);
    forall t ensures multiset(Matched(s, now, weekday))[t] == if ShouldExecute(t, now, weekday) then multiset(s)[t] else 0 {
      FilterCount(fires, s, t);
    }
    forall t ensures multiset(Survivors(s, now, weekday))[t] == if RemovedByTick(t, now, weekday) then 0 else multiset(s)[t] {
      FilterCount(keeps, s, t);
    }
    forall a, b | s == a + b ensures Survivors(s, now, weekday) == Survivors(a, now, weekday) + Survivors(b, now, weekday) {
      FilterAppend(keeps, a, b);
    }
  }

  /** A Once task that fires is absent from every later snapshot, so no
      later tick, at any time of any day, fires it again. */
  lemma OnceFiresOnce(s: seq<Task>, t: Task, now: string, weekday: nat, later: string, laterDay: nat)
    requires t in Matched(s, now, weekday) && t.repeat == Once
    ensures t !in Survivors(s, now, weekday)
    ensures t !in Matched(Survivors(s, now, weekday), later, laterDay)
  {
    FilterMember((t: Task) => ShouldExecute(t, now, weekday), s, t);
    FilterMember((t: Task) => !RemovedByTick(t, now, weekday), s, t);
    FilterMember((t: Task) => ShouldExecute(t, later, laterDay), Survivors(s, now, weekday), t);
  }

  /** There is no per-minute deduplication: a repeating task that fires is
      still present and fires again on the next tick inside the same minute. */
  lemma RepeatingTaskRefires(s: seq<Task>, t: Task, now: string, weekday: nat)
    requires t in Matched(s, now, weekday) && t.repeat != Once
    ensures t in Survivors(s, now, weekday)
    ensures t in Matched(Survivors(s, now, weekday), now, weekday)
  {
    FilterMember((t: Task) => ShouldExecute(t, now, weekday), s, t);
    FilterMember((t: Task) => !RemovedByTick(t, now, weekday), s, t);
    FilterMember((t: Task) => ShouldExecute(t, now, weekday), Survivors(s, now, weekday), t);
  }

  /** A tick in which nothing matches fires nothing and changes nothing. */
  lemma QuietTick(s: seq<Task>, now: string, weekday: nat)
    requires forall i :: 0 <= i < |s| ==> !ShouldExecute(s[i], now, weekday)
    ensures Matched(s, now, weekday) == []
    ensures Survivors(s, now, weekday) == s
  {
    FilterKeepsAll((t: Task) => !RemovedByTick(t, now, weekday), s);
    if Matched(s, now, weekday) != [] {
      var t := Matched(s, now, weekday)[0];
      FilterMember((t: Task) => ShouldExecute(t, now, weekday), s, t);
    }
  }

  /** A tick that removes no task leaves the list exactly as it was. */
  lemma NoOnceRemovedKeepsList(s: seq<Task>, now: string, weekday: nat)
    requires forall i :: 0 <= i < |s| ==> !RemovedByTick(s[i], now, weekday)
    ensures Survivors(s, now, weekday) == s
  {
    FilterKeepsAll((t: Task) => !RemovedByTick(t, now, weekday), s);
  }
}
