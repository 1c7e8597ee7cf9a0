/** What every operation leaves behind: log entries stamped with the time of the
    call, and no output switched off behind the back of its board. */
module Traces {
  import opened Words
  import opened Site
  import opened Scheduler
  import opened ZoneProtocol
  import opened OutputType
  import opened Runs

  predicate Stamped(e: Event, ms: nat)
  {
    e.Begin? || e.On? || e.Off? || e.Reset? ==> e.ms == ms
  }

  /** The log grew by entries of this moment. */
  ghost predicate Logged(s: State, r: State, ms: nat)
  {
    s.log <= r.log && forall i | |s.log| <= i < |r.log| :: Stamped(r.log[i], ms)
  }

  /** The boards are as they were, and outputs that do not obey stayed energised. */
  ghost predicate DeafKept(s: State, r: State)
  {
    && r.cfg.boards == s.cfg.boards && r.cfg.stations == s.cfg.stations
    && forall o | o in s.outputs && !Accepts(s.cfg, o) :: o in r.outputs
  }

  ghost predicate Traced(s: State, r: State, ms: nat)
  {
    Logged(s, r, ms) && DeafKept(s, r)
  }

  lemma AcceptsKept(c: Config, d: Config, o: Route)
    requires c.boards == d.boards && c.stations == d.stations
    ensures Accepts(c, o) == Accepts(d, o)
  {}

  lemma LogChain(s: State, t: State, r: State, ms: nat)
    requires Logged(s, t, ms) && Logged(t, r, ms)
    ensures Logged(s, r, ms)
  {
    forall i | |s.log| <= i < |r.log| ensures Stamped(r.log[i], ms) {
      if i < |t.log| { assert r.log[i] == t.log[i]; }
    }
  }

  lemma Chain(s: State, t: State, r: State, ms: nat)
    requires Traced(s, t, ms) && Traced(t, r, ms)
    ensures Traced(s, r, ms)
  {
    LogChain(s, t, r, ms);
    forall o | o in s.outputs && !Accepts(s.cfg, o) ensures o in r.outputs {
      AcceptsKept(s.cfg, t.cfg, o);
    }
  }

  /** Registers, cache, zone names and stored schedules leave no trace. */
  lemma Silent(s: State, r: State, ms: nat)
    requires r.log == s.log && r.outputs == s.outputs
    requires r.cfg.boards == s.cfg.boards && r.cfg.stations == s.cfg.stations
    ensures Traced(s, r, ms)
  {}

  /** One entry of this moment. */
  lemma OneEntry(s: State, e: Event, ms: nat)
    requires Stamped(e, ms)
    ensures Traced(s, s.(log := s.log + [e]), ms)
  {}

  // ----- what stopping logs -----

  /** Stopping an active schedule logs the closing of its current zone, if the command is
      carried out, and exactly one schedule record; stopping an idle unit logs nothing. */
  lemma StopRecords(s: State, now: Moment)
    ensures var r := Stop(s, now);
            if s.schedule == NO_SCHEDULE then r == s
            else
              var closing := if s.zone >= 0 && Accepts(s.cfg, RouteOf(s.cfg, s.zone)) then
                               [Off(s.zone, RouteOf(s.cfg, s.zone), now.ms)] else [];
              && |r.log| == |s.log| + |closing| + 1 && r.schedule == NO_SCHEDULE && r.zone == NO_ZONE
              && r.log[..|r.log| - 1] == s.log + closing
              && r.log[|r.log| - 1] == SchedLog(s.schedule, Minutes(now, s.startSched), Wrap16(s.water / 100))
  {
    hide RouteOf, Minutes;
  }

  /** The command that closes zone `z` is in the log after position `from`. */
  ghost predicate OffSent(log: seq<Event>, from: nat, c: Config, z: nat, ms: nat)
  {
    exists k :: from <= k < |log| && log[k] == Off(z, RouteOf(c, z), ms)
  }

  lemma {:induction false} AllOffFromReaches(s: State, i: nat, now: Moment, z: nat)
    requires i <= s.cfg.numZones && z < s.cfg.numZones && Accepts(s.cfg, RouteOf(s.cfg, z))
    ensures var r := TurnOffFrom(s, i, now);
            && (z < i ==> r.cache[z] == s.cache[z])
            && (z >= i ==> if s.cache[z] == ZONE_STATE_OFF then r.cache[z] == ZONE_STATE_OFF
                           else !ShowsOn(r, z) && OffSent(r.log, |s.log|, s.cfg, z, now.ms))
    decreases s.cfg.numZones - i
  {
    hide RouteOf, Accepts;
    if i < s.cfg.numZones {
      var t := if s.cache[i] != ZONE_STATE_OFF then TurnOff(s, i, now) else s;
      AllOffFromReaches(t, i + 1, now, z);
      if i == z && s.cache[z] != ZONE_STATE_OFF {
        var r := TurnOffFrom(t, i + 1, now);
        assert t.log[|s.log|] == Off(z, RouteOf(s.cfg, z), now.ms) == r.log[|s.log|];
      } else if i < z && s.cache[z] != ZONE_STATE_OFF {
        var r := TurnOffFrom(t, i + 1, now);
        var k :| |t.log| <= k < |r.log| && r.log[k] == Off(z, RouteOf(t.cfg, z), now.ms);
      }
    }
  }

  /** Switching everything off sends every zone that is not OFF its closing command, those
      of other stations included, and no zone that can be commanded shows as on. */
  lemma AllOffReaches(s: State, now: Moment, z: nat)
    requires z < s.cfg.numZones && Accepts(s.cfg, RouteOf(s.cfg, z))
    ensures !ShowsOn(TurnOffAll(s, now), z)
    ensures s.cache[z] != ZONE_STATE_OFF ==> OffSent(TurnOffAll(s, now).log, |s.log|, s.cfg, z, now.ms)
  {
    hide RouteOf, Accepts;
    AllOffFromReaches(s, 0, now, z);
  }

  /** So does clearing before a start. */
  lemma ClearReaches(s: State, now: Moment, z: nat)
    requires z < s.cfg.numZones && Accepts(s.cfg, RouteOf(s.cfg, z))
    ensures !ShowsOn(Clear(s, now), z)
  {
    hide RouteOf, Accepts, Stop, TurnOffAll;
    AllOffReaches(Stop(s, now), now, z);
  }

  // ----- the operations -----

  lemma TurnOnTraced(s: State, z: nat, mins: u8, now: Moment)
    requires z < MAX_ZONES
    ensures Traced(s, TurnOn(s, z, mins, now), now.ms)
  {
    hide RouteOf, Accepts;
  }

  lemma TurnOffTraced(s: State, z: nat, now: Moment)
    requires z < MAX_ZONES
    ensures Traced(s, TurnOff(s, z, now), now.ms)
  {
    hide RouteOf, Accepts;
  }

  lemma {:induction false} TurnOffFromTraced(s: State, z: nat, now: Moment)
    requires z <= s.cfg.numZones
    ensures Traced(s, TurnOffFrom(s, z, now), now.ms)
    decreases s.cfg.numZones - z
  {
    hide TurnOff, Traced;
    if z == s.cfg.numZones {
      Silent(s, s, now.ms);
    } else {
      var t := if s.cache[z] != ZONE_STATE_OFF then TurnOff(s, z, now) else s;
      Silent(s, s, now.ms);
      TurnOffTraced(s, z, now);
      TurnOffFromTraced(t, z + 1, now);
      Chain(s, t, TurnOffFrom(s, z, now), now.ms);
    }
  }

  lemma TurnOffAllTraced(s: State, now: Moment)
    ensures Traced(s, TurnOffAll(s, now), now.ms)
  {
    hide TurnOffFrom, Traced;
    TurnOffFromTraced(s, 0, now);
    Silent(TurnOffFrom(s, 0, now), TurnOffAll(s, now), now.ms);
    Chain(s, TurnOffFrom(s, 0, now), TurnOffAll(s, now), now.ms);
  }

  lemma LogScheduleTraced(s: State, now: Moment)
    ensures Traced(s, LogSchedule(s, now), now.ms)
  {
    hide Minutes, Accepts;
  }

  lemma StopTraced(s: State, now: Moment)
    ensures Traced(s, Stop(s, now), now.ms)
  {
    hide TurnOff, LogSchedule, Traced;
    Silent(s, s, now.ms);
    if s.schedule != NO_SCHEDULE {
      var s1 := if s.zone >= 0 then TurnOff(s, s.zone, now) else s;
      if s.zone >= 0 { TurnOffTraced(s, s.zone, now); }
      var s2 := s1.(zone := NO_ZONE);
      Silent(s1, s2, now.ms);
      Chain(s, s1, s2, now.ms);
      LogScheduleTraced(s2, now);
      Chain(s, s2, LogSchedule(s2, now), now.ms);
      Silent(LogSchedule(s2, now), Stop(s, now), now.ms);
      Chain(s, LogSchedule(s2, now), Stop(s, now), now.ms);
    }
  }

  lemma OpenTraced(s: State, id: int, d: seq<u8>, adj: bool, now: Moment)
    requires |d| == MAX_ZONES
    ensures Traced(s, Open(s, id, d, adj, now), now.ms)
  {
    hide TurnOn, ZoneMinutes, Traced;
    Silent(s, s, now.ms);
    var z := FirstFrom(d, 0, s.cfg.numZones);
    if z >= 0 {
      var mins := ZoneMinutes(s, d, adj, z, now);
      var s1 := s.(log := s.log + [Begin(id, now.ms)]);
      var s2 := s1.(schedule := id, startSched := now.Millis(), zone := z, startZone := now.Millis(), zoneMins := mins);
      OneEntry(s, Begin(id, now.ms), now.ms);
      Silent(s1, s2, now.ms);
      Chain(s, s1, s2, now.ms);
      TurnOnTraced(s2, z, mins, now);
      Chain(s, s2, TurnOn(s2, z, mins, now), now.ms);
    }
  }

  lemma StartQuickTraced(s: State, now: Moment)
    ensures Traced(s, StartQuick(s, now), now.ms)
  {
    hide Stop, Open, Traced;
    var s1 := Stop(s, now).(water := 0);
    StopTraced(s, now);
    Silent(Stop(s, now), s1, now.ms);
    Chain(s, Stop(s, now), s1, now.ms);
    OpenTraced(s1, QUICK_SCHEDULE, s1.quick, false, now);
    Chain(s, s1, StartQuick(s, now), now.ms);
  }

  lemma StartStoredTraced(s: State, id: u8, now: Moment)
    ensures Traced(s, StartStored(s, id, now), now.ms)
  {
    hide Stop, Open, Traced;
    var s1 := Stop(s, now).(water := 0);
    StopTraced(s, now);
    Silent(Stop(s, now), s1, now.ms);
    Chain(s, Stop(s, now), s1, now.ms);
    if id < MAX_SCHEDULES && s1.table[id].enabled {
      OpenTraced(s1, id, s1.table[id].duration, s1.table[id].wadj, now);
      Chain(s, s1, StartStored(s, id, now), now.ms);
    }
  }

  lemma AfterDelayTraced(s: State, now: Moment)
    ensures Traced(s, AfterDelay(s, now), now.ms)
  {
    hide Stop, TurnOn, ZoneMinutes, Traced;
    if s.nextZone < 0 {
      StopTraced(s, now);
    } else if !SchedulePresent(s) {
      Silent(s, s.(zone := NO_ZONE), now.ms);
      StopTraced(s.(zone := NO_ZONE), now);
      Chain(s, s.(zone := NO_ZONE), AfterDelay(s, now), now.ms);
    } else {
      var z := s.nextZone;
      var mins := ZoneMinutes(s, Durations(s), Adjusted(s), z, now);
      var s1 := s.(zone := z, nextZone := -1, startZone := now.Millis(), zoneMins := mins);
      Silent(s, s1, now.ms);
      TurnOnTraced(s1, z, mins, now);
      Chain(s, s1, AfterDelay(s, now), now.ms);
    }
  }

  lemma LogZoneTraced(s: State, now: Moment)
    requires s.zone >= 0
    ensures Traced(s, LogZone(s, now), now.ms) && LogZone(s, now).zone == s.zone
  {
    hide Minutes, WaterOf, Accepts;
  }

  lemma AfterZoneTraced(s: State, now: Moment)
    requires s.zone >= 0
    ensures Traced(s, AfterZone(s, now), now.ms)
  {
    hide LogZone, TurnOff, Stop, FirstFrom, Traced;
    LogZoneTraced(s, now);
    var s1 := TurnOff(LogZone(s, now), s.zone, now);
    TurnOffTraced(LogZone(s, now), s.zone, now);
    Chain(s, LogZone(s, now), s1, now.ms);
    var r := AfterZone(s, now);
    var z := if SchedulePresent(s) then FirstFrom(Durations(s), s.zone + 1, s.cfg.numZones) else -1;
    if z >= 0 {
      Silent(s1, r, now.ms);
      Chain(s, s1, r, now.ms);
    } else {
      Silent(s1, s1.(zone := NO_ZONE), now.ms);
      StopTraced(s1.(zone := NO_ZONE), now);
      Chain(s, s1, s1.(zone := NO_ZONE), now.ms);
      Chain(s, s1.(zone := NO_ZONE), r, now.ms);
    }
  }

  lemma PollTraced(s: State, now: Moment)
    ensures Traced(s, Poll(s, now), now.ms)
  {
    hide Stop, StartStored, NextStart, AfterDelay, AfterZone, Elapsed, Traced;
    Silent(s, s, now.ms);
    StopTraced(s, now);
    if s.running && s.schedule == NO_SCHEDULE {
      var c := CheckPause(s, now);
      Silent(s, c, now.ms);
      var e := NextStart(s, now);
      if e.Some? {
        StartStoredTraced(c, Wrap8(e.sched), now);
        Chain(s, c, StartStored(c, Wrap8(e.sched), now), now.ms);
      }
    } else if s.zone == DELAY {
      AfterDelayTraced(s, now);
    } else if s.zone >= 0 {
      AfterZoneTraced(s, now);
    }
  }

  lemma StopPollTraced(s: State, now: Moment)
    ensures Traced(s, Poll(Stop(s, now), now), now.ms)
  {
    hide Stop, Poll, Traced;
    StopTraced(s, now);
    PollTraced(Stop(s, now), now);
    Chain(s, Stop(s, now), Poll(Stop(s, now), now), now.ms);
  }

  lemma SetPauseTraced(s: State, mins: int, now: Moment)
    ensures Traced(s, SetPause(s, mins, now), now.ms)
  {
    hide Stop, Poll, PauseEnd, Traced;
    Silent(s, s, now.ms);
    StopTraced(s, now);
    var s1 := if mins != 0 && s.running then Stop(s, now) else s;
    var s2 := s1.(endPause := if mins == 0 then 0 else PauseEnd(mins, now));
    Silent(s1, s2, now.ms);
    Chain(s, s1, s2, now.ms);
    PollTraced(s2, now);
    Chain(s, s2, Poll(s2, now), now.ms);
  }

  lemma StartZoneTraced(s: State, station: nat, channel: u8, mins: u8, now: Moment)
    requires station < MAX_STATIONS
    ensures Traced(s, StartZone(s, station, channel, mins, now), now.ms)
  {
    hide Stop, TurnOffAll, ActiveZone, StartQuick, Poll, Target, Traced;
    Silent(s, s, now.ms);
    var z := Target(s, station, channel);
    if z >= 0 {
      var s1 := Stop(s, now);
      var c := Clear(s, now);
      StopTraced(s, now);
      TurnOffAllTraced(s1, now);
      if c != s1 { Chain(s, s1, c, now.ms); }
      var q := QuickOnly(c, z, mins);
      Silent(c, q, now.ms);
      Chain(s, c, q, now.ms);
      StartQuickTraced(q, now);
      Chain(s, q, StartQuick(q, now), now.ms);
      PollTraced(StartQuick(q, now), now);
      Chain(s, StartQuick(q, now), Poll(StartQuick(q, now), now), now.ms);
    }
  }

  lemma {:induction false} StartEachTraced(s: State, m: ZonesSet, i: nat, now: Moment)
    requires m.to < MAX_STATIONS
    ensures Traced(s, StartEach(s, m, i, now), now.ms)
    decreases m.first + m.num - i
  {
    hide RemoteStart, Traced;
    Silent(s, s, now.ms);
    if i < m.first + m.num {
      var t := if Bit(m.data, i) then RemoteStart(s, m.to, Wrap8(i), m.ttr, now) else s;
      RemoteStartTraced(s, m.to, Wrap8(i), m.ttr, now);
      StartEachTraced(t, m, i + 1, now);
      Chain(s, t, StartEach(t, m, i + 1, now), now.ms);
    }
  }

  lemma RemoteStartTraced(s: State, station: nat, channel: u8, ttr: u8, now: Moment)
    requires station < MAX_STATIONS
    ensures Traced(s, RemoteStart(s, station, channel, ttr, now), now.ms)
  {
    hide StartZone, Traced;
    StartZoneTraced(s, station, channel, Wrap8(ttr + 1), now);
  }

  lemma HandleSetTraced(s: State, m: ZonesSet, now: Moment)
    ensures Traced(s, HandleSet(s, m, now), now.ms)
  {
    hide StartEach, TurnOffAll, SetAccepted, Traced;
    Silent(s, s, now.ms);
    TurnOffAllTraced(s, now);
    if SetAccepted(s, m) {
      AcceptedStation(s, m);
      StartEachTraced(s, m, m.first, now);
    }
  }

  lemma AcceptedStation(s: State, m: ZonesSet)
    requires SetAccepted(s, m)
    ensures m.to < MAX_STATIONS
  {}

  // ----- one input, and any number -----

  /** Every input but new settings. */
  lemma StepTraced(s: State, x: Input, now: Moment)
    requires !x.SaveSettings?
    ensures Traced(s, Step(s, x, now), now.ms)
  {
    hide Poll, Stop, StartQuick, StartStored, StartZone, TurnOffAll, HandleSet, Report, SetPause, Tick, CheckPause,
         Traced, PauseEnd;
    Silent(s, s, now.ms);
    match x
    case PollNow => PollTraced(s, now);
    case QuickRun(edits, sched) =>
      var s1 := WithQuick(Stop(s, now), edits);
      StopTraced(s, now);
      Silent(Stop(s, now), s1, now.ms);
      Chain(s, Stop(s, now), s1, now.ms);
      StartQuickTraced(s1, now);
      StartStoredTraced(s1, Wrap8(sched), now);
      Chain(s, s1, Step(s, x, now), now.ms);
    case Manual(st, ch, mins) => if st < MAX_STATIONS { StartZoneTraced(s, st, ch, mins, now); }
    case AllOff => TurnOffAllTraced(s, now);
    case ZonesSetFrame(m) => HandleSetTraced(s, m, now);
    case ReportFrame(m) => CacheOnly(s, m, now);
    case Pause(minutes) => SetPauseTraced(s, minutes, now);
    case Switch(on) => Silent(s, Step(s, x, now), now.ms);
    case SaveSchedule(k, entry) =>
      if k <= s.numSchedules && k < MAX_SCHEDULES {
        var s1 := s.(table := s.table[k := entry], numSchedules := Max(s.numSchedules, k + 1));
        Silent(s, s1, now.ms);
        StopPollTraced(s1, now);
        Chain(s, s1, Poll(Stop(s1, now), now), now.ms);
      }
    case DeleteSchedule(k) =>
      if k < s.numSchedules {
        var s1 := Shifted(s, k);
        Silent(s, s1, now.ms);
        StopPollTraced(s1, now);
        Chain(s, s1, Poll(Stop(s1, now), now), now.ms);
      }
    case EditZones(zones) => Silent(s, Step(s, x, now), now.ms);
    case StatusPage => PageSilent(s, now);
    case Second => TickSilent(s, now);
  }

  lemma CacheOnly(s: State, m: ZonesReport, now: Moment)
    ensures Traced(s, HandleReport(s, m), now.ms)
  {}

  lemma PageSilent(s: State, now: Moment)
    ensures Traced(s, CheckPause(s, now), now.ms)
  {
    hide RemainingPause;
  }

  lemma TickSilent(s: State, now: Moment)
    ensures Traced(s, Tick(s), now.ms)
  {}

  lemma {:induction false} SetUpLogged(s: State, types: seq<u8>, now: Moment)
    ensures Logged(s, SetOutputTypes(s, types, now), now.ms)
    decreases |types|
  {
    if types != [] {
      var t := SetOutputType(s, types[0], now);
      assert Logged(s, t, now.ms);
      hide SetOutputType;
      SetUpLogged(t, types[1..], now);
      LogChain(s, t, SetOutputTypes(s, types, now), now.ms);
    }
  }

  /** Every input logs with its own time. */
  lemma StepLogged(s: State, x: Input, now: Moment)
    ensures Logged(s, Step(s, x, now), now.ms)
  {
    hide Poll, Stop, SetOutputTypes, Step, Logged;
    if x.SaveSettings? {
      var t := SetOutputTypes(s, x.types, now);
      SetUpLogged(s, x.types, now);
      var r := Seasoned(t, x.seasonal);
      SettingsStep(s, x, now);
      StopPollTraced(r, now);
      SeasonedLogged(t, x.seasonal, now);
      assert Logged(r, Poll(Stop(r, now), now), now.ms);
      LogChain(s, t, r, now.ms);
      LogChain(s, r, Poll(Stop(r, now), now), now.ms);
    } else {
      StepTraced(s, x, now);
    }
  }

  lemma SeasonedLogged(s: State, seasonal: u8, now: Moment)
    ensures Logged(s, Seasoned(s, seasonal), now.ms)
  {}

  lemma SettingsStep(s: State, x: Input, now: Moment)
    requires x.SaveSettings?
    ensures var r := Seasoned(SetOutputTypes(s, x.types, now), x.seasonal);
            Step(s, x, now) == if r.running then Poll(Stop(r, now), now) else r
  {
    hide Poll, Stop, SetOutputTypes;
  }

  /** An output that has gone deaf stays energised until the settings change again,
      whatever happens: no poll, no button and no frame closes the valve. */
  lemma {:induction false} DeafForGood(s: State, xs: seq<Timed>, o: Route)
    requires o in s.outputs && !Accepts(s.cfg, o) && forall i | 0 <= i < |xs| :: !xs[i].input.SaveSettings?
    ensures o in Run(s, xs).outputs && !Accepts(Run(s, xs).cfg, o)
    decreases |xs|
  {
    hide Step, Accepts;
    if xs != [] {
      StepTraced(s, xs[0].input, xs[0].now);
      AcceptsKept(s.cfg, Step(s, xs[0].input, xs[0].now).cfg, o);
      DeafForGood(Step(s, xs[0].input, xs[0].now), xs[1..], o);
    }
  }
}
