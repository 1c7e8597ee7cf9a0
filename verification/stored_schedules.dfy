/** The stored schedules in memory, and the table the scheduler works with. */
module StoredSchedules {
  import opened Words
  import opened Site
  import opened Memory
  import opened Settings
  import opened Scheduler
  import Runs

  /** A stored schedule that is not one by an interval of no days. */
  predicate Sane(s: FullSchedule)
  {
    ScheduleShape(s) && (Bit(s.kind, 1) ==> s.day != 0)
  }

  /** What the scheduler sees of a stored schedule. */
  function ScheduleView(s: FullSchedule): Schedule
    requires Sane(s)
  {
    Schedule(Bit(s.kind, 0), Bit(s.kind, 1), Bit(s.kind, 2), s.day, s.time, s.duration)
  }

  /** The type byte: enabled 1, by interval 2, weather-adjusted 4. */
  lemma KindSeen(s: FullSchedule, enabled: bool, interval: bool, wadj: bool, rest: nat)
    requires Sane(s)
    requires s.kind == (if enabled then 1 else 0) + (if interval then 2 else 0) + (if wadj then 4 else 0) + 8 * rest
    ensures ScheduleView(s) == Schedule(enabled, interval, wadj, s.day, s.time, s.duration)
  {
    var f2 := (if wadj then 1 else 0) + 2 * rest;
    var f1 := (if interval then 1 else 0) + 2 * f2;
    assert s.kind == (if enabled then 1 else 0) + 2 * f1;
    assert s.kind / 2 == f1 && f1 / 2 == f2;
    assert Bit(s.kind, 0) == enabled && Bit(f1, 0) == interval && Bit(f2, 0) == wadj;
    assert Bit(s.kind, 1) == Bit(f1, 0);
    assert Bit(s.kind, 2) == Bit(f1, 1) == Bit(f2, 0);
  }

  /** The schedules in memory are those of the scheduler's table, in order. */
  ghost predicate Holds(m: Mem, s: State)
  {
    && NumSchedulesOf(m) == s.numSchedules
    && forall i | 0 <= i < s.numSchedules :: HoldsAt(Stored(m), Runs.Stored(s), i)
  }

  ghost predicate HoldsAt(a: seq<FullSchedule>, b: seq<Schedule>, i: nat)
  {
    i < |a| && i < |b| && Sane(a[i]) && ScheduleView(a[i]) == b[i]
  }

  /** The web request to delete a schedule: memory and scheduler stay in agreement, for
      every number. */
  method WebDelete(store: Store, s: State, k: int, now: Moment) returns (ok: bool)
    requires store.Valid() && Holds(store.Mem(), s)
    modifies store.data
    ensures ok <==> 0 <= k < s.numSchedules
    ensures Holds(store.Mem(), if ok then Runs.Step(s, Runs.DeleteSchedule(k), now) else s)
  {
    hide Read, UnpackSchedule, Runs.Step;
    ghost var a, b := Stored(store.Mem()), Runs.Stored(s);
    ok := store.DeleteSchedule(k);
    if ok {
      Runs.EditsTake(s, Runs.DeleteSchedule(k), now);
      ghost var r := Runs.Step(s, Runs.DeleteSchedule(k), now);
      forall i | 0 <= i < r.numSchedules ensures HoldsAt(Stored(store.Mem()), Runs.Stored(r), i) {
        assert HoldsAt(a, b, if i < k then i else i + 1);
      }
    }
  }

  /** The web request to store a schedule: number -1 appends. */
  method WebStore(store: Store, s: State, k: int, sc: FullSchedule, now: Moment) returns (ok: bool)
    requires store.Valid() && Holds(store.Mem(), s) && Sane(sc)
    modifies store.data
    ensures ok <==> if k == -1 then s.numSchedules < MAX_SCHEDULES else 0 <= k < s.numSchedules
    ensures var at := if k == -1 then s.numSchedules else k;
            Holds(store.Mem(), if ok then Runs.Step(s, Runs.SaveSchedule(at, ScheduleView(sc)), now) else s)
  {
    hide Read, UnpackSchedule, Runs.Step, ScheduleView;
    ghost var a, b := Stored(store.Mem()), Runs.Stored(s);
    ok := store.StoreSchedule(k, sc);
    if ok {
      ghost var x := Runs.SaveSchedule(if k == -1 then s.numSchedules else k, ScheduleView(sc));
      Runs.EditsTake(s, x, now);
      ghost var r := Runs.Step(s, x, now);
      forall i | 0 <= i < r.numSchedules ensures HoldsAt(Stored(store.Mem()), Runs.Stored(r), i) {
        if i != x.k { assert HoldsAt(a, b, i); }
      }
    }
  }
}
