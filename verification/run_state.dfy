/** The run-state object itself: fields updated in place, loops over the zones.
    Every method is proved to do to the object what the function of the same purpose
    in Scheduler does to its value. */
module RunStateObject {
  import opened Words
  import opened Site
  import opened Scheduler
  import NextEvent

  class RunState {
    var cfg: Config
    var table: seq<Schedule>
    var numSchedules: nat
    var running: bool

    var schedule: int
    var zone: int
    var nextZone: int
    var startZone: u32
    var zoneMins: u8
    var startSched: u32
    var endPause: u32
    var water: u32

    const quick: array<u8>
    const cache: array<u8>
    var outputs: set<Route>
    ghost var log: seq<Event>

    ghost predicate Valid()
      reads this, quick, cache
    {
      && quick != cache && quick.Length == MAX_ZONES && cache.Length == MAX_ZONES
      && |table| == MAX_SCHEDULES && numSchedules <= MAX_SCHEDULES
      && zone < MAX_ZONES && nextZone < MAX_ZONES
    }

    /** The value of the object. */
    ghost function Model(): State
      requires Valid()
      reads this, quick, cache
    {
      State(cfg, table, numSchedules, running, schedule, zone, nextZone, startZone, zoneMins,
            startSched, endPause, water, quick[..], cache[..], outputs, log)
    }

    constructor (cfg: Config, table: seq<Schedule>, numSchedules: nat, running: bool)
      requires |table| == MAX_SCHEDULES && numSchedules <= MAX_SCHEDULES
      ensures Valid() && fresh(quick) && fresh(cache)
      ensures this.cfg == cfg && this.table == table && this.numSchedules == numSchedules && this.running == running
      ensures schedule == NO_SCHEDULE && zone == NO_ZONE && endPause == 0 && outputs == {} && log == []
      ensures forall i | 0 <= i < MAX_ZONES :: quick[i] == 0 && cache[i] == ZONE_STATE_OFF
    {
      this.cfg, this.table, this.numSchedules, this.running := cfg, table, numSchedules, running;
      schedule, zone, nextZone := NO_SCHEDULE, NO_ZONE, 0;
      startZone, zoneMins, startSched, endPause, water := 0, 0, 0, 0, 0;
      quick := new u8[MAX_ZONES](_ => 0);
      cache := new u8[MAX_ZONES](_ => ZONE_STATE_OFF);
      outputs, log := {}, [];
    }

    // ----- single zones -----

    method TurnOnZone(z: nat, ttr: u8, now: Moment)
      requires Valid() && z < MAX_ZONES
      modifies this`outputs, this`log, cache
      ensures Valid() && Model() == TurnOn(old(Model()), z, ttr, now)
    {
      hide RouteOf, Accepts;
      var r := RouteOf(cfg, z);
      if !Accepts(cfg, r) { return; }
      if r.Local() {
        outputs := outputs + {r};
        cache[z] := ZONE_STATE_RUNNING;
      } else {
        cache[z] := ZONE_STATE_STARTING + ZONE_STATE_TIMEOUT;
      }
      log := log + [On(z, r, ttr, now.ms)];
      assert cache[..] == old(cache[..])[z := cache[z]];
    }

    method TurnOffZone(z: nat, now: Moment)
      requires Valid() && z < MAX_ZONES
      modifies this`outputs, this`log, cache
      ensures Valid() && Model() == TurnOff(old(Model()), z, now)
    {
      hide RouteOf, Accepts;
      var r := RouteOf(cfg, z);
      var ok := Accepts(cfg, r);
      if ok {
        outputs := outputs - {r};
        log := log + [Off(z, r, now.ms)];
      }
      if r.Local() {
        cache[z] := ZONE_STATE_OFF;
      } else if ok {
        cache[z] := ZONE_STATE_STOPPING + ZONE_STATE_TIMEOUT;
      }
      assert cache[..] == old(cache[..])[z := cache[z]];
    }

    /** The first zone that is not OFF, or -1. */
    method ActiveZoneNum() returns (z: int)
      requires Valid()
      ensures z == ActiveZone(Model())
      ensures z >= 0 ==> z < cfg.numZones && cache[z] != ZONE_STATE_OFF
      ensures z == -1 <==> (forall i | 0 <= i < cfg.numZones :: cache[i] == ZONE_STATE_OFF)
    {
      var i := 0;
      while i < cfg.numZones
        invariant 0 <= i <= cfg.numZones
        invariant FirstFrom(cache[..], 0, cfg.numZones) == FirstFrom(cache[..], i, cfg.numZones)
        invariant forall k | 0 <= k < i :: cache[k] == ZONE_STATE_OFF
      {
        if cache[i] != ZONE_STATE_OFF { return i; }
        i := i + 1;
      }
      return -1;
    }

    method TurnOffZonesWorker(now: Moment)
      requires Valid()
      modifies this`outputs, this`log, this`zone, this`schedule, cache
      ensures Valid() && Model() == TurnOffAll(old(Model()), now)
    {
      hide TurnOff;
      var i := 0;
      while i < cfg.numZones
        invariant 0 <= i <= cfg.numZones && Valid()
        invariant TurnOffFrom(Model(), i, now) == TurnOffFrom(old(Model()), 0, now)
        invariant cfg == old(cfg) && table == old(table) && zone == old(zone) && schedule == old(schedule)
      {
        if cache[i] != ZONE_STATE_OFF { TurnOffZone(i, now); }
        i := i + 1;
      }
      zone := NO_ZONE;
      if schedule != NO_SCHEDULE { schedule := NO_SCHEDULE; }
    }

    // ----- logging -----

    method LogEvent(now: Moment)
      requires Valid() && zone >= 0
      modifies this`water, this`log
      ensures Valid() && Model() == LogZone(old(Model()), now)
    {
      hide WaterOf, Minutes;
      var duration := Minutes(now, startZone);
      var used := WaterOf(duration, cfg.zones[zone].flow);
      water := Wrap32(water + used);
      log := log + [ZoneLog(zone, duration, used, schedule)];
    }

    method LogScheduleEvent(now: Moment)
      requires Valid()
      modifies this`log
      ensures Valid() && Model() == LogSchedule(old(Model()), now)
    {
      hide Minutes;
      if schedule != NO_SCHEDULE {
        log := log + [SchedLog(schedule, Minutes(now, startSched), Wrap16(water / 100))];
      }
    }

    // ----- schedules -----

    method StopSchedule(now: Moment)
      requires Valid()
      modifies this, cache
      ensures Valid() && Model() == Stop(old(Model()), now)
    {
      hide TurnOff, LogSchedule;
      if schedule != NO_SCHEDULE {
        if zone >= 0 { TurnOffZone(zone, now); }
        zone := NO_ZONE;
        LogScheduleEvent(now);
        schedule, water := NO_SCHEDULE, 0;
      }
    }

    /** The search both starts and the end of a zone share. */
    method FirstWatered(d: seq<u8>, from: nat) returns (z: int)
      requires Valid() && |d| == MAX_ZONES
      ensures z == FirstFrom(d, from, cfg.numZones)
      ensures z >= 0 ==> from <= z < cfg.numZones && d[z] != 0 && forall i | from <= i < z :: d[i] == 0
      ensures z == -1 <==> (forall i | from <= i < cfg.numZones :: d[i] == 0)
    {
      var i := from;
      while i < cfg.numZones
        invariant from <= i
        invariant FirstFrom(d, from, cfg.numZones) == FirstFrom(d, i, cfg.numZones)
        invariant forall k | from <= k < i && k < cfg.numZones :: d[k] == 0
      {
        if d[i] != 0 { return i; }
        i := i + 1;
      }
      return -1;
    }

    method OpenSchedule(id: int, d: seq<u8>, adj: bool, now: Moment)
      requires Valid() && |d| == MAX_ZONES
      modifies this, cache
      ensures Valid() && Model() == Open(old(Model()), id, d, adj, now)
    {
      hide TurnOn, Adjust, FirstFrom;
      var i := FirstWatered(d, 0);
      if i < 0 { return; }
      schedule, startSched, log := id, now.Millis(), log + [Begin(id, now.ms)];
      RunZone(i, if adj then Adjust(d[i], cfg.seasonal, now.wu) else d[i], now);
    }

    /** Makes `z` the running zone and opens it. */
    method RunZone(z: nat, mins: u8, now: Moment)
      requires Valid() && z < MAX_ZONES
      modifies this, cache
      ensures Valid()
      ensures Model() == TurnOn(old(Model()).(zone := z, startZone := now.Millis(), zoneMins := mins), z, mins, now)
    {
      hide TurnOn;
      zone, startZone, zoneMins := z, now.Millis(), mins;
      TurnOnZone(z, mins, now);
    }

    method StartSchedule(quickSched: bool, id: u8, now: Moment)
      requires Valid()
      modifies this, cache
      ensures Valid()
      ensures Model() == if quickSched then StartQuick(old(Model()), now) else StartStored(old(Model()), id, now)
    {
      hide Stop, Open;
      StopSchedule(now);
      water := 0;
      if quickSched {
        OpenSchedule(QUICK_SCHEDULE, quick[..], false, now);
      } else if id < MAX_SCHEDULES && table[id].enabled {
        OpenSchedule(id, table[id].duration, table[id].wadj, now);
      }
    }

    // ----- the poll -----

    /** Reading the pause clears it once less than a minute is left. */
    method GetRemainingPauseTime(now: Moment) returns (rt: int)
      requires Valid()
      modifies this`endPause
      ensures Valid() && rt == RemainingPause(old(Model()), now) && Model() == CheckPause(old(Model()), now)
    {
      hide Elapsed, Int16;
      if endPause == 0 { return 0; }
      rt := Max(Int16(Elapsed(endPause, now.Millis()) / 60000), 0);
      if rt == 0 { endPause := 0; }
    }

    method GetNextEvent(now: Moment) returns (e: NextEvent.Event)
      requires Valid()
      modifies this`endPause
      ensures Valid()
      ensures !running ==> e.None? && Model() == old(Model())
      ensures running ==> e == NextStart(old(Model()), now) && Model() == CheckPause(old(Model()), now)
    {
      hide RemainingPause, CheckPause, NextEvent.Next;
      if !running { return NextEvent.None; }
      var rt := GetRemainingPauseTime(now);
      e := NextEvent.Search(table[..numSchedules], now, Int16(now.minute + rt));
    }

    method EndDelay(now: Moment)
      requires Valid()
      modifies this, cache
      ensures Valid() && Model() == AfterDelay(old(Model()), now)
    {
      hide Stop, TurnOn, Adjust;
      if nextZone < 0 { StopSchedule(now); return; }
      var d, adj := quick[..], false;
      if schedule != QUICK_SCHEDULE {
        if !(0 <= schedule < MAX_SCHEDULES && table[schedule].enabled) {
          zone := NO_ZONE;
          StopSchedule(now);
          return;
        }
        d, adj := table[schedule].duration, table[schedule].wadj;
      }
      var z := nextZone;
      nextZone := -1;
      RunZone(z, if adj then Adjust(d[z], cfg.seasonal, now.wu) else d[z], now);
    }

    method EndZone(now: Moment)
      requires Valid() && zone >= 0
      modifies this, cache
      ensures Valid() && Model() == AfterZone(old(Model()), now)
    {
      hide Stop, TurnOff, LogZone, FirstFrom;
      ghost var before := Model();
      LogEvent(now);
      LogKeepsRegisters(before, now);
      TurnOffZone(zone, now);
      TurnOffKeepsRegisters(LogZone(before, now), before.zone, now);
      var d := quick[..];
      if schedule != QUICK_SCHEDULE {
        if !(0 <= schedule < MAX_SCHEDULES && table[schedule].enabled) {
          zone := NO_ZONE;
          StopSchedule(now);
          return;
        }
        d := table[schedule].duration;
      }
      var i := FirstWatered(d, zone + 1);
      if i >= 0 {
        nextZone := i;
        zone := DELAY;
        startZone := now.Millis();
        return;
      }
      zone := NO_ZONE;
      StopSchedule(now);
    }

    method ProcessScheduledEvents(now: Moment)
      requires Valid()
      modifies this, cache
      ensures Valid() && Model() == Poll(old(Model()), now)
    {
      hide Stop, AfterDelay, AfterZone, StartStored, NextStart, CheckPause;
      if !running {
        if schedule != NO_SCHEDULE { StopSchedule(now); } else { StopWhenIdle(Model(), now); }
        return;
      }
      if schedule != NO_SCHEDULE {
        if zone == DELAY {
          if Elapsed(now.Millis(), startZone) < DELAY_BETWEEN_ZONES { return; }
          EndDelay(now);
        } else if zone >= 0 {
          if Elapsed(now.Millis(), startZone) / 60000 < zoneMins { return; }
          EndZone(now);
        } else {
          StopSchedule(now);
        }
      } else {
        var e := GetNextEvent(now);
        if e.Some? && e.time == now.minute { StartSchedule(false, Wrap8(e.sched), now); }
      }
    }

    method SetPauseMinutes(mins: int, now: Moment)
      requires Valid()
      modifies this, cache
      ensures Valid() && Model() == SetPause(old(Model()), mins, now)
    {
      hide Poll, Stop;
      if mins == 0 {
        if endPause != 0 {
          endPause := 0;
          ProcessScheduledEvents(now);
        }
      } else {
        if running { StopSchedule(now); }
        endPause := Wrap32(now.Millis() + Wrap32(Wrap32(mins) * 60000));
        if endPause == 0 { endPause := 1; }
        ProcessScheduledEvents(now);
      }
    }

    // ----- manual and remote starts -----

    method StartZoneWorker(station: nat, channel: u8, mins: u8, now: Moment) returns (ok: bool)
      requires Valid() && station < MAX_STATIONS
      modifies this, cache, quick
      ensures Valid() && Model() == StartZone(old(Model()), station, channel, mins, now)
      ensures ok <==> Target(old(Model()), station, channel) >= 0
    {
      hide Stop, TurnOffAll, StartQuick, Poll, QuickOnly, ActiveZone;
      var st := cfg.stations[station];
      if !st.enabled || !st.valid { return false; }
      if channel > st.channels { return false; }
      var ch := Wrap8(st.startZone + channel);
      if ch >= cfg.numZones { return false; }
      StopSchedule(now);
      var active := ActiveZoneNum();
      if active != -1 { TurnOffZonesWorker(now); }
      SetQuickOnly(ch, mins);
      StartSchedule(true, 0, now);
      ProcessScheduledEvents(now);
      return true;
    }

    method SetQuickOnly(z: nat, mins: u8)
      requires Valid() && z < cfg.numZones
      modifies quick
      ensures Valid() && Model() == QuickOnly(old(Model()), z, mins)
    {
      var n := 0;
      while n < cfg.numZones
        invariant 0 <= n <= cfg.numZones
        invariant forall i | 0 <= i < MAX_ZONES :: quick[i] == if i < n then 0 else old(quick[i])
      {
        quick[n] := 0;
        n := n + 1;
      }
      quick[z] := mins;
      assert quick[..] == QuickOnly(old(Model()), z, mins).quick;
    }

    method RemoteStartZone(station: nat, channel: u8, ttr: u8, now: Moment) returns (ok: bool)
      requires Valid() && station < MAX_STATIONS
      modifies this, cache, quick
      ensures Valid() && Model() == RemoteStart(old(Model()), station, channel, ttr, now)
      ensures ok <==> Target(old(Model()), station, channel) >= 0
    {
      ok := StartZoneWorker(station, channel, Wrap8(ttr + 1), now);
    }

    // ----- the output type -----

    /** Sets up both boards for a new output type; cache and registers stay. */
    method SetOT(ot: u8, now: Moment)
      requires Valid()
      modifies this`cfg, this`outputs, this`log
      ensures Valid() && Model() == SetOutputType(old(Model()), ot, now)
    {
      var b := cfg.boards;
      if ot == b.outputType { return; }
      cfg := cfg.(boards := b.(outputType := ot));
      if b.parallelChannels != 0 { cfg := cfg.(boards := cfg.boards.(parallelReady := true)); }
      if b.serialChannels != 0 { cfg := cfg.(boards := cfg.boards.(serialReady := true)); }
      var off := set r | r in outputs && ResetBy(b, ot, r);
      outputs := outputs - off;
      if off != {} { log := log + [Reset(off, now.ms)]; }
    }

    // ----- status cache -----

    /** Once a second. */
    method ZoneHandlerLoop()
      requires Valid()
      modifies cache
      ensures Valid() && Model() == Tick(old(Model()))
    {
      var i := 0;
      while i < cfg.numZones
        invariant 0 <= i <= cfg.numZones
        invariant forall k | 0 <= k < MAX_ZONES ::
                    cache[k] == if k < i then TickCell(old(cache[..])[k]) else old(cache[..])[k]
      {
        var z := cache[i];
        if z != ZONE_STATE_OFF && z != ZONE_STATE_RUNNING {
          var t := z % 16;
          if (z / 16) % 2 == 1 {
            cache[i] := if t > 1 then ZONE_STATE_STARTING + (t - 1) else ZONE_STATE_OFF;
          } else if (z / 32) % 2 == 1 {
            cache[i] := if t > 1 then ZONE_STATE_STOPPING + (t - 1) else ZONE_STATE_OFF;
          }
        }
        i := i + 1;
      }
      assert cache[..] == Tick(old(Model())).cache;
    }

    /** The block of the station must lie inside the cache. */
    method ReportStationZonesStatus(station: nat, status: u8)
      requires Valid()
      requires station < MAX_STATIONS ==> cfg.stations[station].startZone + cfg.stations[station].channels <= MAX_ZONES
      modifies cache
      ensures Valid() && Model() == Report(old(Model()), station, status)
    {
      if station >= MAX_STATIONS { return; }
      var st := cfg.stations[station];
      if !st.valid || !st.enabled { return; }
      var i := 0;
      while i < st.channels
        invariant 0 <= i <= st.channels
        invariant forall k | 0 <= k < MAX_ZONES ::
                    cache[k] == if st.startZone <= k < st.startZone + i
                                then (if Bit(status, k - st.startZone) then ZONE_STATE_RUNNING else ZONE_STATE_OFF)
                                else old(cache[..])[k]
      {
        cache[st.startZone + i] := if Bit(status, i) then ZONE_STATE_RUNNING else ZONE_STATE_OFF;
        i := i + 1;
      }
      assert cache[..] == Report(old(Model()), station, status).cache;
    }
  }

  lemma LogKeepsRegisters(s: State, now: Moment)
    requires s.zone >= 0
    ensures var r := LogZone(s, now); r == s.(water := r.water, log := r.log)
  {
    hide Minutes, WaterOf;
  }

  lemma TurnOffKeepsRegisters(s: State, z: nat, now: Moment)
    requires z < MAX_ZONES
    ensures var r := TurnOff(s, z, now); r == s.(cache := r.cache, outputs := r.outputs, log := r.log)
  {}

  lemma StopWhenIdle(s: State, now: Moment)
    requires s.schedule == NO_SCHEDULE
    ensures Stop(s, now) == s
  {}
}
