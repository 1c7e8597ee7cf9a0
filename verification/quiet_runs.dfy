/** Whole schedules as they really run: between the polls the once-a-second tick
    works on the cache, stations report, and the status page is read. */
module QuietRuns {
  import opened Words
  import opened Site
  import opened Scheduler
  import opened SchedulerInvariant
  import opened OutputType
  import opened Runs
  import opened Undisturbed
  import opened Timetable

  /** Inputs that ask nothing of the scheduler. */
  predicate Quiet(x: Input) { x.PollNow? || x.Second? || x.ReportFrame? || x.StatusPage? }

  predicate AllQuiet(xs: seq<Timed>)
  {
    forall i | 0 <= i < |xs| :: Quiet(xs[i].input)
  }

  /** The moments of the polls. */
  function Polls(xs: seq<Timed>): seq<Moment>
  {
    if xs == [] then [] else (if xs[0].input.PollNow? then [xs[0].now] else []) + Polls(xs[1..])
  }

  /** Inputs until the schedule is over. */
  function RunUntilIdle(s: State, xs: seq<Timed>): State
    decreases |xs|
  {
    if xs == [] || s.schedule == NO_SCHEDULE then s else RunUntilIdle(Step(s, xs[0].input, xs[0].now), xs[1..])
  }

  /** Equal but for the status cache and the end of a pause. */
  ghost predicate Alike(s: State, t: State)
  {
    t == s.(cache := t.cache, endPause := t.endPause)
  }

  // ----- an active schedule looks at neither -----

  lemma TurnOnAlike(s: State, t: State, z: nat, mins: u8, now: Moment)
    requires Alike(s, t) && z < MAX_ZONES
    ensures Alike(TurnOn(s, z, mins, now), TurnOn(t, z, mins, now))
  {
    hide RouteOf, Accepts;
  }

  lemma TurnOffAlike(s: State, t: State, z: nat, now: Moment)
    requires Alike(s, t) && z < MAX_ZONES
    ensures Alike(TurnOff(s, z, now), TurnOff(t, z, now))
  {
    hide RouteOf, Accepts;
  }

  lemma StopAlike(s: State, t: State, now: Moment)
    requires Alike(s, t)
    ensures Alike(Stop(s, now), Stop(t, now))
  {
    hide TurnOff, Minutes;
    if s.zone >= 0 { TurnOffAlike(s, t, s.zone, now); }
  }

  lemma AfterDelayAlike(s: State, t: State, now: Moment)
    requires Alike(s, t)
    ensures Alike(AfterDelay(s, now), AfterDelay(t, now))
  {
    hide TurnOn, Stop, Adjust;
    StopAlike(s, t, now);
    StopAlike(s.(zone := NO_ZONE), t.(zone := NO_ZONE), now);
    if s.nextZone >= 0 {
      var z := s.nextZone;
      var mins := ZoneMinutes(s, Durations(s), Adjusted(s), z, now);
      TurnOnAlike(s.(zone := z, nextZone := -1, startZone := now.Millis(), zoneMins := mins),
                  t.(zone := z, nextZone := -1, startZone := now.Millis(), zoneMins := mins), z, mins, now);
    }
  }

  lemma LogZoneAlike(s: State, t: State, now: Moment)
    requires Alike(s, t) && s.zone >= 0
    ensures Alike(LogZone(s, now), LogZone(t, now)) && LogZone(s, now).zone == s.zone
  {
    hide Minutes, WaterOf;
  }

  lemma AfterZoneAlike(s: State, t: State, now: Moment)
    requires Alike(s, t) && s.zone >= 0
    ensures Alike(AfterZone(s, now), AfterZone(t, now))
  {
    hide TurnOff, Stop, LogZone, FirstFrom;
    LogZoneAlike(s, t, now);
    TurnOffAlike(LogZone(s, now), LogZone(t, now), s.zone, now);
    StopAlike(TurnOff(LogZone(s, now), s.zone, now).(zone := NO_ZONE),
              TurnOff(LogZone(t, now), s.zone, now).(zone := NO_ZONE), now);
  }

  lemma PollAlike(s: State, t: State, now: Moment)
    requires Alike(s, t) && s.schedule != NO_SCHEDULE
    ensures Alike(Poll(s, now), Poll(t, now))
  {
    hide Stop, AfterDelay, AfterZone, Elapsed;
    StopAlike(s, t, now);
    AfterDelayAlike(s, t, now);
    if s.zone >= 0 { AfterZoneAlike(s, t, now); }
  }

  /** The other quiet inputs touch nothing else. */
  lemma QuietAlike(s: State, t: State, x: Input, now: Moment)
    requires Alike(s, t) && Quiet(x) && !x.PollNow?
    ensures Alike(s, Step(t, x, now))
  {
    hide RemainingPause;
  }

  /** So the schedule runs as if only the polls had happened. */
  lemma {:induction false} RunsLikePolls(s: State, t: State, xs: seq<Timed>)
    requires Alike(s, t) && AllQuiet(xs)
    ensures Alike(RunToIdle(s, Polls(xs)), RunUntilIdle(t, xs))
    decreases |xs|
  {
    hide Poll, Step;
    if xs != [] && s.schedule != NO_SCHEDULE {
      var x, now := xs[0].input, xs[0].now;
      if x.PollNow? {
        PollAlike(s, t, now);
        PollStep(t, now);
        assert Polls(xs) == [now] + Polls(xs[1..]);
        assert ([now] + Polls(xs[1..]))[1..] == Polls(xs[1..]);
        RunsLikePolls(Poll(s, now), Step(t, x, now), xs[1..]);
      } else {
        QuietAlike(s, t, x, now);
        assert Polls(xs) == [] + Polls(xs[1..]) == Polls(xs[1..]);
        RunsLikePolls(s, Step(t, x, now), xs[1..]);
      }
    }
  }

  lemma PollStep(s: State, now: Moment)
    ensures Step(s, PollNow, now) == Poll(s, now)
  {}

  /** Polls at which the current zone changed. */
  function ZoneChanges(s: State, xs: seq<Timed>): nat
    decreases |xs|
  {
    if xs == [] || s.schedule == NO_SCHEDULE then 0
    else
      var r := Step(s, xs[0].input, xs[0].now);
      (if r.zone == s.zone then 0 else 1) + ZoneChanges(r, xs[1..])
  }

  lemma {:induction false} ChangesLikePolls(s: State, t: State, xs: seq<Timed>)
    requires Alike(s, t) && AllQuiet(xs)
    ensures ZoneChanges(t, xs) == Changes(s, Polls(xs))
    decreases |xs|
  {
    hide Poll, Step;
    if xs != [] && s.schedule != NO_SCHEDULE {
      var x, now := xs[0].input, xs[0].now;
      if x.PollNow? {
        PollAlike(s, t, now);
        PollStep(t, now);
        assert Polls(xs) == [now] + Polls(xs[1..]);
        assert ([now] + Polls(xs[1..]))[1..] == Polls(xs[1..]);
        ChangesLikePolls(Poll(s, now), Step(t, x, now), xs[1..]);
      } else {
        QuietAlike(s, t, x, now);
        assert Polls(xs) == [] + Polls(xs[1..]) == Polls(xs[1..]);
        ChangesLikePolls(s, Step(t, x, now), xs[1..]);
      }
    }
  }

  // ----- whole schedules -----

  /** An undisturbed schedule, started at any time and polled at any times less than
      MAX_GAP apart, with any ticks, reports and readings in between: the new log
      entries are what its plan promises, and it is idle exactly when the plan is
      fulfilled to its end. */
  lemma OpenedRun(s: State, id: int, d: seq<u8>, adj: bool, now: Moment, xs: seq<Timed>)
    requires Startable(s, id, d, adj)
    requires AllQuiet(xs) && Steady(now.ms, Polls(xs), MAX_GAP)
    ensures var r := RunUntilIdle(Open(s, id, d, adj, now), xs);
            && s.log <= r.log
            && Fulfilled(Plan(s.cfg, id, d, adj, now.Millis()), [now] + Polls(xs), r.log[|s.log|..],
                         r.schedule == NO_SCHEDULE)
  {
    hide Open, RunToIdle, RunUntilIdle, Fulfilled, Idle;
    OpenedPolls(s, id, d, adj, now, Polls(xs));
    RunsLikePolls(Open(s, id, d, adj, now), Open(s, id, d, adj, now), xs);
  }

  /** The two ways a schedule is started, from any reachable state. */
  lemma StoredRun(s: State, id: u8, now: Moment, xs: seq<Timed>)
    requires Inv(s) && s.running && id < MAX_SCHEDULES && s.table[id].enabled
    requires FirstFrom(s.table[id].duration, 0, s.cfg.numZones) >= 0
    requires AllQuiet(xs) && Steady(now.ms, Polls(xs), MAX_GAP)
    ensures var before := Stop(s, now).log;
            var r := RunUntilIdle(StartStored(s, id, now), xs);
            && before <= r.log
            && Fulfilled(Plan(s.cfg, id, s.table[id].duration, s.table[id].wadj, now.Millis()), [now] + Polls(xs),
                         r.log[|before|..], r.schedule == NO_SCHEDULE)
  {
    hide Open, RunUntilIdle, Fulfilled, Stop;
    StopIdles(s, now);
    OpenedRun(Stop(s, now).(water := 0), id, s.table[id].duration, s.table[id].wadj, now, xs);
  }

  lemma QuickRun(s: State, now: Moment, xs: seq<Timed>)
    requires Inv(s) && s.running && FirstFrom(s.quick, 0, s.cfg.numZones) >= 0
    requires AllQuiet(xs) && Steady(now.ms, Polls(xs), MAX_GAP)
    ensures var before := Stop(s, now).log;
            var r := RunUntilIdle(StartQuick(s, now), xs);
            && before <= r.log
            && Fulfilled(Plan(s.cfg, QUICK_SCHEDULE, s.quick, false, now.Millis()), [now] + Polls(xs),
                         r.log[|before|..], r.schedule == NO_SCHEDULE)
  {
    hide Open, RunUntilIdle, Fulfilled, Stop;
    StopIdles(s, now);
    OpenedRun(Stop(s, now).(water := 0), QUICK_SCHEDULE, s.quick, false, now, xs);
  }

  /** A quick run asked for by web waters each zone for the minutes posted, or those left
      from before. */
  lemma PostedRun(s: State, edits: map<nat, u8>, now: Moment, xs: seq<Timed>)
    requires Inv(s) && s.running
    requires AllQuiet(xs) && Steady(now.ms, Polls(xs), MAX_GAP)
    ensures var before := Stop(s, now).log;
            var d := seq(MAX_ZONES, i requires 0 <= i < MAX_ZONES => if i in edits then edits[i] else s.quick[i]);
            var r := RunUntilIdle(Step(s, Input.QuickRun(edits, -1), now), xs);
            if FirstFrom(d, 0, s.cfg.numZones) < 0 then r == Stop(s, now).(quick := d, water := 0)
            else
              && before <= r.log
              && Fulfilled(Plan(s.cfg, QUICK_SCHEDULE, d, false, now.Millis()), [now] + Polls(xs),
                           r.log[|before|..], r.schedule == NO_SCHEDULE)
  {
    hide Open, RunUntilIdle, Fulfilled, Stop, Polls;
    StopIdles(s, now);
    var s1 := WithQuick(Stop(s, now), edits);
    SettingsKeep(Stop(s, now), s1);
    assert Stop(s1, now) == s1 by { IdleStop(s1, now); }
    if FirstFrom(s1.quick, 0, s.cfg.numZones) >= 0 {
      QuickRun(s1, now, xs);
    } else {
      NothingToOpen(s1.(water := 0), now);
      IdleRun(StartQuick(s1, now), xs);
    }
  }

  /** A stored schedule asked for by web: it is run if it exists, is enabled and waters
      something; otherwise what ran is over. */
  lemma PostedStored(s: State, edits: map<nat, u8>, k: u8, now: Moment, xs: seq<Timed>)
    requires Inv(s) && s.running && AllQuiet(xs) && Steady(now.ms, Polls(xs), MAX_GAP)
    ensures var before := Stop(s, now).log;
            var r := Step(s, Input.QuickRun(edits, k), now);
            if k < 4 && s.table[k].enabled && FirstFrom(s.table[k].duration, 0, s.cfg.numZones) >= 0 then
              var e := RunUntilIdle(r, xs);
              && before <= e.log && r.schedule == k
              && Fulfilled(Plan(s.cfg, k, s.table[k].duration, s.table[k].wadj, now.Millis()), [now] + Polls(xs),
                           e.log[|before|..], e.schedule == NO_SCHEDULE)
            else r.schedule == NO_SCHEDULE && r.log == before
  {
    hide Open, RunUntilIdle, Fulfilled, Stop, Polls;
    StopIdles(s, now);
    var s1 := WithQuick(Stop(s, now), edits);
    SettingsKeep(Stop(s, now), s1);
    assert Stop(s1, now) == s1 by { IdleStop(s1, now); }
    if k < 4 && s.table[k].enabled {
      OpenedSchedule(s1.(water := 0), k, s.table[k].duration, s.table[k].wadj, now);
      if FirstFrom(s.table[k].duration, 0, s.cfg.numZones) >= 0 { StoredRun(s1, k, now, xs); }
    }
  }

  lemma OpenedSchedule(s: State, id: int, d: seq<u8>, adj: bool, now: Moment)
    requires |d| == MAX_ZONES
    ensures var r := Open(s, id, d, adj, now);
            if FirstFrom(d, 0, s.cfg.numZones) >= 0 then r.schedule == id else r == s
  {
    hide RouteOf, Accepts, ZoneMinutes;
  }

  lemma NothingToOpen(s: State, now: Moment)
    requires FirstFrom(s.quick, 0, s.cfg.numZones) < 0
    ensures Open(s, QUICK_SCHEDULE, s.quick, false, now) == s
  {}

  lemma IdleRun(s: State, xs: seq<Timed>)
    requires s.schedule == NO_SCHEDULE
    ensures RunUntilIdle(s, xs) == s
  {}

  /** Every started schedule becomes idle: polled at most `gap` apart for longer than
      the budget of all zones, it is over, after at most 2 * numZones changes of the
      current zone. */
  lemma ScheduleEnds(s: State, id: int, d: seq<u8>, adj: bool, now: Moment, xs: seq<Timed>, gap: nat)
    requires Startable(s, id, d, adj) && AllQuiet(xs) && gap <= MAX_GAP && Steady(now.ms, Polls(xs), gap)
    ensures var r := Open(s, id, d, adj, now);
            && (LastMs(now.ms, Polls(xs)) > now.ms + Budget(s.cfg.numZones, 0, gap) ==>
                  RunUntilIdle(r, xs).schedule == NO_SCHEDULE)
            && ZoneChanges(r, xs) <= 2 * s.cfg.numZones
  {
    hide Open, InZone, PlanOf, RunToIdle, RunUntilIdle, ZoneChanges, Changes, Idle, Durations;
    var z := FirstFrom(d, 0, s.cfg.numZones);
    Opened1(s, id, d, adj, now);
    var r := Open(s, id, d, adj, now);
    ZoneEnds(r, now.ms, now.ms, Polls(xs), gap);
    BudgetFalls(s.cfg.numZones, 0, z, gap);
    RunsLikePolls(r, r, xs);
    ChangesLikePolls(r, r, xs);
  }
}
