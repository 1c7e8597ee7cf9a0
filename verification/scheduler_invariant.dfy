/** What every operation of the scheduler keeps. */
module SchedulerInvariant {
  import opened Words
  import opened Site
  import opened Scheduler

  // ----- readings of the event log -----

  /** What one event does to the set of energised local outputs. */
  function Drive(on: set<Route>, e: Event): set<Route>
  {
    match e
    case On(_, r, _, _) => if r.Local() then on + {r} else on
    case Off(_, r, _) => on - {r}
    case Reset(off, _) => on - off
    case _ => on
  }

  /** Local outputs left energised by the commands in the log. */
  ghost function Energised(log: seq<Event>): set<Route>
  {
    if log == [] then {} else Drive(Energised(log[..|log| - 1]), log[|log| - 1])
  }

  /** No local output is ever energised while another one is. */
  ghost predicate Interlocked(log: seq<Event>)
  {
    log == [] ||
    (var before := log[..|log| - 1];
     var e := log[|log| - 1];
     Interlocked(before) && (e.On? && e.route.Local() ==> Energised(before) == {}))
  }

  function Meter(used: nat, e: Event): nat
  {
    if e.Begin? then 0 else if e.ZoneLog? then used + e.water else used
  }

  /** Water of the zone records since the last schedule began. */
  ghost function Used(log: seq<Event>): nat
  {
    if log == [] then 0 else Meter(Used(log[..|log| - 1]), log[|log| - 1])
  }

  /** Every schedule record reports the sum of its zone records, divided once. */
  ghost predicate Honest(log: seq<Event>)
  {
    log == [] ||
    (var before := log[..|log| - 1];
     var e := log[|log| - 1];
     Honest(before) && (e.SchedLog? ==> e.water == Used(before) / 100))
  }

  /** The last opening of a local output. */
  datatype Start = NeverOn | OnAt(route: Route, mins: u8, ms: nat)

  ghost function LastOn(log: seq<Event>): Start
  {
    if log == [] then NeverOn
    else
      var e := log[|log| - 1];
      if e.On? && e.route.Local() then OnAt(e.route, e.mins, e.ms) else LastOn(log[..|log| - 1])
  }

  lemma Append(log: seq<Event>, e: Event)
    ensures Energised(log + [e]) == Drive(Energised(log), e)
    ensures Interlocked(log + [e]) <==>
            Interlocked(log) && (e.On? && e.route.Local() ==> Energised(log) == {})
    ensures Used(log + [e]) == Meter(Used(log), e)
    ensures Honest(log + [e]) <==>
            Honest(log) && (e.SchedLog? ==> e.water == Used(log) / 100)
    ensures LastOn(log + [e]) == if e.On? && e.route.Local() then OnAt(e.route, e.mins, e.ms) else LastOn(log)
  {
    assert (log + [e])[..|log|] == log;
  }

  // ----- the invariant -----

  /** The special values of the schedule and zone registers fit together. */
  ghost predicate Registers(s: State)
  {
    && (s.schedule == NO_SCHEDULE || s.schedule == QUICK_SCHEDULE || 0 <= s.schedule < MAX_SCHEDULES)
    && (s.schedule == NO_SCHEDULE <==> s.zone == NO_ZONE)
    && -2 <= s.zone < s.cfg.numZones
    && (s.zone == DELAY ==> 0 <= s.nextZone < s.cfg.numZones)
  }

  predicate GoodCell(x: u8)
  {
    || x == ZONE_STATE_OFF || x == ZONE_STATE_RUNNING
    || ZONE_STATE_STARTING < x <= ZONE_STATE_STARTING + ZONE_STATE_TIMEOUT
    || ZONE_STATE_STOPPING < x <= ZONE_STATE_STOPPING + ZONE_STATE_TIMEOUT
  }

  ghost predicate Cells(s: State)
  {
    forall z | 0 <= z < MAX_ZONES :: GoodCell(s.cache[z])
  }

  /** Every local zone is OFF in the cache, and no output is energised. */
  ghost predicate Shut(s: State)
  {
    && Cells(s)
    && (forall z | 0 <= z < s.cfg.numZones && IsLocalZone(s.cfg, z) :: s.cache[z] == ZONE_STATE_OFF)
    && s.outputs == {} == Energised(s.log) && Interlocked(s.log)
  }

  ghost function OpenRoutes(s: State): set<Route>
  {
    if 0 <= s.zone && IsLocalZone(s.cfg, s.zone) && s.cache[s.zone] != ZONE_STATE_OFF
    then {RouteOf(s.cfg, s.zone)} else {}
  }

  /** The registers hold the minutes and the time of the opening of an open valve. */
  ghost predicate OnRecord(s: State)
  {
    s.outputs != {} ==>
      var on := LastOn(s.log);
      on.OnAt? && s.outputs == {on.route} && s.zoneMins == on.mins && s.startZone == Wrap32(on.ms)
  }

  /** At most one local zone is not OFF; if one is, it is the current zone, its
      route is open for commands, and exactly its output is energised. */
  ghost predicate Valves(s: State)
  {
    && Cells(s)
    && (forall z | 0 <= z < s.cfg.numZones && IsLocalZone(s.cfg, z) && s.cache[z] != ZONE_STATE_OFF ::
          z == s.zone && s.cache[z] == ZONE_STATE_RUNNING
          && RouteOf(s.cfg, z).Local() && Accepts(s.cfg, RouteOf(s.cfg, z)))
    && s.outputs == OpenRoutes(s) == Energised(s.log) && Interlocked(s.log) && OnRecord(s)
  }

  ghost predicate WaterExact(s: State)
  {
    Honest(s.log) && (s.schedule != NO_SCHEDULE ==> s.water == Used(s.log))
  }

  /** Zones of the current schedule already passed. */
  ghost function Passed(s: State): nat
  {
    if s.zone >= 0 then s.zone else if s.zone == DELAY && s.nextZone >= 0 then s.nextZone else 0
  }

  ghost predicate WaterBounded(s: State)
  {
    s.schedule != NO_SCHEDULE ==> Used(s.log) <= 0xFFFF * Passed(s)
  }

  /** What the schedule's record will report fits its 16 bits. */
  ghost predicate WaterFits(s: State)
  {
    s.schedule != NO_SCHEDULE ==> Used(s.log) <= 0xFFFF * MAX_ZONES
  }

  /** Enough for a stop to shut everything: at most the current zone is lit, and at most
      its output is energised, which then obeys. */
  ghost predicate Closable(s: State)
  {
    && Cells(s)
    && (forall z | 0 <= z < s.cfg.numZones && IsLocalZone(s.cfg, z) && s.cache[z] != ZONE_STATE_OFF ::
          z == s.zone && RouteOf(s.cfg, z).Local())
    && (s.outputs == {} ||
        (s.zone >= 0 && s.outputs == {RouteOf(s.cfg, s.zone)} && Accepts(s.cfg, RouteOf(s.cfg, s.zone))))
    && s.outputs == Energised(s.log) && Interlocked(s.log)
  }

  ghost predicate Inv(s: State)
  {
    Registers(s) && Valves(s) && WaterExact(s) && WaterBounded(s)
  }

  /** No schedule is active, every local zone is shut. */
  ghost predicate Idle(s: State)
  {
    s.schedule == NO_SCHEDULE && s.zone == NO_ZONE && Shut(s) && WaterExact(s)
  }

  /** What the invariant does not depend on. */
  lemma SettingsKeep(s: State, r: State)
    requires Inv(s)
    requires r == s.(table := r.table, numSchedules := r.numSchedules, running := r.running, quick := r.quick,
                     endPause := r.endPause)
             || r == s.(cfg := s.cfg.(seasonal := r.cfg.seasonal))
    ensures Inv(r)
  {
    assert forall z | 0 <= z < s.cfg.numZones ::
        IsLocalZone(r.cfg, z) == IsLocalZone(s.cfg, z) && RouteOf(r.cfg, z) == RouteOf(s.cfg, z)
        && Accepts(r.cfg, RouteOf(r.cfg, z)) == Accepts(s.cfg, RouteOf(s.cfg, z));
  }

  // ----- single zones -----

  lemma TurnOffFrame(s: State, z: nat, now: Moment)
    requires z < MAX_ZONES && Cells(s)
    ensures var r := TurnOff(s, z, now);
            && r == s.(cache := r.cache, outputs := r.outputs, log := r.log)
            && Cells(r)
            && (forall y | 0 <= y < MAX_ZONES && y != z :: r.cache[y] == s.cache[y])
            && (RouteOf(s.cfg, z).Local() ==> r.cache[z] == ZONE_STATE_OFF)
            && (RouteOf(s.cfg, z).NoRoute? ==> r == s)
            && Used(r.log) == Used(s.log) && (Honest(r.log) <==> Honest(s.log))
            && (Interlocked(r.log) <==> Interlocked(s.log)) && LastOn(r.log) == LastOn(s.log)
            && (s.outputs == Energised(s.log) ==> r.outputs == Energised(r.log))
            && r.outputs == if Accepts(s.cfg, RouteOf(s.cfg, z)) then s.outputs - {RouteOf(s.cfg, z)} else s.outputs
  {
    Append(s.log, Off(z, RouteOf(s.cfg, z), now.ms));
  }

  lemma TurnOffKeeps(s: State, z: nat, now: Moment)
    requires Valves(s) && z < s.cfg.numZones && (z == s.zone || s.cache[z] != ZONE_STATE_OFF)
    ensures var r := TurnOff(s, z, now);
            && Valves(r) && r == s.(cache := r.cache, outputs := r.outputs, log := r.log)
            && (forall y | 0 <= y < MAX_ZONES && y != z :: r.cache[y] == s.cache[y])
            && (IsLocalZone(s.cfg, z) ==> r.cache[z] == ZONE_STATE_OFF)
            && Used(r.log) == Used(s.log) && (Honest(r.log) <==> Honest(s.log))
  {
    TurnOffFrame(s, z, now);
  }

  lemma TurnOffFromKeeps(s: State, z: nat, now: Moment)
    requires Valves(s) && z <= s.cfg.numZones
    requires forall y | 0 <= y < z && IsLocalZone(s.cfg, y) :: s.cache[y] == ZONE_STATE_OFF
    ensures var r := TurnOffFrom(s, z, now);
            && Shut(r) && r == s.(cache := r.cache, outputs := r.outputs, log := r.log)
            && Used(r.log) == Used(s.log) && (Honest(r.log) <==> Honest(s.log))
    decreases s.cfg.numZones - z
  {
    if z < s.cfg.numZones {
      if s.cache[z] != ZONE_STATE_OFF { TurnOffKeeps(s, z, now); }
      TurnOffFromKeeps(if s.cache[z] != ZONE_STATE_OFF then TurnOff(s, z, now) else s, z + 1, now);
    }
  }

  lemma TurnOffAllIdles(s: State, now: Moment)
    requires Inv(s)
    ensures Idle(TurnOffAll(s, now)) && Inv(TurnOffAll(s, now)) && TurnOffAll(s, now).quick == s.quick
    ensures TurnOffAll(s, now).endPause == s.endPause
  {
    TurnOffFromKeeps(s, 0, now);
  }

  lemma TurnOnKeeps(s: State, z: nat, mins: u8, now: Moment)
    requires Shut(s) && z < s.cfg.numZones && s.zone == z && s.zoneMins == mins && s.startZone == now.Millis()
    ensures var r := TurnOn(s, z, mins, now);
            && Valves(r) && r == s.(cache := r.cache, outputs := r.outputs, log := r.log)
            && Used(r.log) == Used(s.log) && (Honest(r.log) <==> Honest(s.log))
  {
    Append(s.log, On(z, RouteOf(s.cfg, z), mins, now.ms));
  }

  // ----- schedules -----

  lemma RecordIdles(s: State, now: Moment)
    requires Shut(s) && WaterExact(s) && WaterFits(s) && s.schedule != NO_SCHEDULE && s.zone == NO_ZONE
    ensures var r := LogSchedule(s, now).(schedule := NO_SCHEDULE, water := 0);
            Idle(r) && Inv(r) && r.quick == s.quick && r.endPause == s.endPause
  {
    hide Minutes, Wrap16, Shut, WaterExact, Inv;
    var r := LogSchedule(s, now).(schedule := NO_SCHEDULE, water := 0);
    RecordShut(s, r, SchedLog(s.schedule, Minutes(now, s.startSched), Wrap16(s.water / 100)));
    IdleIsInv(r);
  }

  lemma RecordShut(s: State, r: State, e: Event)
    requires Shut(s) && WaterExact(s) && WaterFits(s) && s.schedule != NO_SCHEDULE
    requires e.SchedLog? && e.water == Wrap16(s.water / 100)
    requires r == s.(log := s.log + [e], schedule := NO_SCHEDULE, water := 0)
    ensures Shut(r) && WaterExact(r)
  {
    hide GoodCell, Wrap16;
    Append(s.log, e);
    QuotientFits(s.water);
  }

  lemma IdleIsInv(s: State)
    requires Idle(s)
    ensures Inv(s)
  {
    hide GoodCell, RouteOf, Accepts, Energised, Interlocked, Honest, Used;
  }

  lemma QuotientFits(used: nat)
    ensures used <= 0xFFFF * MAX_ZONES ==> Wrap16(used / 100) == used / 100
  {}

  lemma StopIdles(s: State, now: Moment)
    requires Closable(s) && WaterExact(s) && WaterFits(s) && s.zone < s.cfg.numZones
    requires s.schedule == NO_SCHEDULE ==> s.zone == NO_ZONE
    ensures Idle(Stop(s, now)) && Inv(Stop(s, now))
    ensures Stop(s, now).quick == s.quick && Stop(s, now).endPause == s.endPause
  {
    hide TurnOff, LogSchedule;
    if s.schedule != NO_SCHEDULE {
      if s.zone >= 0 { TurnOffFrame(s, s.zone, now); }
      var s1 := (if s.zone >= 0 then TurnOff(s, s.zone, now) else s).(zone := NO_ZONE);
      assert Shut(s1);
      RecordIdles(s1, now);
    }
  }

  lemma OpenKeeps(s: State, id: int, d: seq<u8>, adj: bool, now: Moment)
    requires |d| == MAX_ZONES && Idle(s) && s.water == 0
    requires id == QUICK_SCHEDULE || 0 <= id < MAX_SCHEDULES
    ensures Inv(Open(s, id, d, adj, now))
  {
    hide ZoneMinutes;
    var z := FirstFrom(d, 0, s.cfg.numZones);
    if z >= 0 {
      var mins := ZoneMinutes(s, d, adj, z, now);
      var s1 := s.(schedule := id, startSched := now.Millis(), zone := z, startZone := now.Millis(),
                   zoneMins := mins, log := s.log + [Begin(id, now.ms)]);
      Append(s.log, Begin(id, now.ms));
      TurnOnKeeps(s1, z, mins, now);
    }
  }

  lemma StartQuickKeeps(s: State, now: Moment)
    requires Inv(s)
    ensures Inv(StartQuick(s, now))
  {
    StopIdles(s, now);
    var s1 := Stop(s, now).(water := 0);
    OpenKeeps(s1, QUICK_SCHEDULE, s1.quick, false, now);
  }

  lemma StartStoredKeeps(s: State, id: u8, now: Moment)
    requires Inv(s)
    ensures Inv(StartStored(s, id, now))
  {
    StopIdles(s, now);
    var s1 := Stop(s, now).(water := 0);
    if id < MAX_SCHEDULES { OpenKeeps(s1, id, s1.table[id].duration, s1.table[id].wadj, now); }
  }

  // ----- the poll -----

  lemma AfterDelayKeeps(s: State, now: Moment)
    requires Inv(s) && s.zone == DELAY
    ensures Inv(AfterDelay(s, now))
  {
    hide ZoneMinutes;
    if !SchedulePresent(s) {
      StopIdles(s.(zone := NO_ZONE), now);
    } else {
      var z := s.nextZone;
      var mins := ZoneMinutes(s, Durations(s), Adjusted(s), z, now);
      TurnOnKeeps(s.(zone := z, nextZone := -1, startZone := now.Millis(), zoneMins := mins), z, mins, now);
    }
  }

  lemma ChargeKeeps(s: State, d: int, w: u16)
    requires Inv(s) && s.zone >= 0
    ensures var r := Charge(s, d, w);
            && Valves(r) && WaterExact(r) && r == s.(water := r.water, log := r.log)
            && Used(r.log) <= 0xFFFF * (s.zone + 1)
  {
    hide Valves, WaterExact, WaterBounded;
    ChargedValves(s, d, w);
    ChargedWater(s, d, w);
  }

  lemma ChargedValves(s: State, d: int, w: u16)
    requires Valves(s) && s.zone >= 0
    ensures Valves(Charge(s, d, w))
  {
    hide GoodCell;
    Append(s.log, ZoneLog(s.zone, d, w, s.schedule));
  }

  lemma ChargedWater(s: State, d: int, w: u16)
    requires Registers(s) && WaterExact(s) && WaterBounded(s) && s.zone >= 0
    ensures var r := Charge(s, d, w); WaterExact(r) && Used(r.log) <= 0xFFFF * (s.zone + 1)
  {
    Append(s.log, ZoneLog(s.zone, d, w, s.schedule));
    assert Used(s.log) + w < TWO32;
  }

  lemma ZoneClosedKeeps(s: State, d: int, w: u16, now: Moment)
    requires Inv(s) && s.zone >= 0
    ensures var r := TurnOff(Charge(s, d, w), s.zone, now);
            && Valves(r.(zone := NO_ZONE)) && Valves(r.(zone := DELAY)) && WaterExact(r)
            && Used(r.log) <= 0xFFFF * (s.zone + 1)
            && r == s.(water := r.water, cache := r.cache, outputs := r.outputs, log := r.log)
  {
    ChargeKeeps(s, d, w);
    TurnOffKeeps(Charge(s, d, w), s.zone, now);
  }

  lemma AfterZoneKeeps(s: State, now: Moment)
    requires Inv(s) && s.zone >= 0
    ensures Inv(AfterZone(s, now))
  {
    hide Minutes, WaterOf, TurnOff, Charge, Stop;
    var d := Minutes(now, s.startZone);
    var w := WaterOf(d, s.cfg.zones[s.zone].flow);
    ZoneClosedKeeps(s, d, w, now);
    var s1 := TurnOff(Charge(s, d, w), s.zone, now);
    StopIdles(s1.(zone := NO_ZONE), now);
  }

  lemma PollKeeps(s: State, now: Moment)
    requires Inv(s)
    ensures Inv(Poll(s, now))
  {
    hide Stop, NextStart, AfterDelay, AfterZone, StartStored;
    if !s.running { StopIdles(s, now); }
    else if s.schedule == NO_SCHEDULE {
      StartStoredKeeps(CheckPause(s, now), Wrap8(if NextStart(s, now).Some? then NextStart(s, now).sched else 0), now);
    }
    else if s.zone == DELAY { AfterDelayKeeps(s, now); }
    else { AfterZoneKeeps(s, now); }
  }

  lemma SetPauseKeeps(s: State, mins: int, now: Moment)
    requires Inv(s)
    ensures Inv(SetPause(s, mins, now))
  {
    hide Poll, PauseEnd, Stop, Inv;
    if mins == 0 {
      SettingsKeep(s, s.(endPause := 0));
      PollKeeps(s.(endPause := 0), now);
    } else {
      StopKeeps(s, now);
      var s1 := if s.running then Stop(s, now) else s;
      SettingsKeep(s1, s1.(endPause := PauseEnd(mins, now)));
      PollKeeps(s1.(endPause := PauseEnd(mins, now)), now);
    }
  }

  lemma StopKeeps(s: State, now: Moment)
    requires Inv(s)
    ensures Inv(Stop(s, now)) && Idle(Stop(s, now))
  {
    StopIdles(s, now);
  }

  lemma ClearIdles(s: State, now: Moment)
    requires Inv(s)
    ensures Idle(Clear(s, now)) && Inv(Clear(s, now)) && Clear(s, now).quick == s.quick
    ensures Clear(s, now).endPause == s.endPause
  {
    StopIdles(s, now);
    TurnOffAllIdles(Stop(s, now), now);
  }

  lemma StartZoneKeeps(s: State, station: nat, channel: u8, mins: u8, now: Moment)
    requires Inv(s) && station < MAX_STATIONS
    ensures Inv(StartZone(s, station, channel, mins, now))
  {
    var z := Target(s, station, channel);
    if z >= 0 {
      hide Clear, StartQuick, Poll;
      ClearIdles(s, now);
      var s2 := QuickOnly(Clear(s, now), z, mins);
      StartQuickKeeps(s2, now);
      PollKeeps(StartQuick(s2, now), now);
    }
  }

  // ----- status cache -----

  lemma TickKeeps(s: State)
    requires Inv(s)
    ensures Inv(Tick(s))
  {
    assert forall z | 0 <= z < MAX_ZONES :: GoodCell(Tick(s).cache[z]);
  }

  lemma ReportKeeps(s: State, station: nat, status: u8)
    requires Inv(s) && Tiled(s.cfg) && !IsLocalStation(s.cfg, station)
    ensures Inv(Report(s, station, status))
  {
    if station < MAX_STATIONS {
      var st := s.cfg.stations[station];
      if st.valid && st.enabled {
        forall i | st.startZone <= i < st.startZone + st.channels
          ensures i < s.cfg.numZones && s.cfg.zones[i].station == station
        {
          assert Owns(s.cfg, station, i - st.startZone);
        }
      }
    }
  }

  /** The heart of the matter in one line: never two valves of this unit at once. */
  lemma AtMostOneValve(s: State)
    requires Inv(s)
    ensures |s.outputs| <= 1
    ensures s.schedule == NO_SCHEDULE || s.zone == DELAY ==> s.outputs == {}
    ensures forall a, b | 0 <= a < s.cfg.numZones && 0 <= b < s.cfg.numZones
              && IsLocalZone(s.cfg, a) && IsLocalZone(s.cfg, b)
              && s.cache[a] != ZONE_STATE_OFF && s.cache[b] != ZONE_STATE_OFF :: a == b == s.zone
  {
  }
}
