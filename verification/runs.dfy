/** Whole runs: every way the outside world can touch the scheduler, and what holds
    after any number of such touches in any order. */
module Runs {
  import opened Words
  import opened Site
  import opened Scheduler
  import opened SchedulerInvariant
  import opened ZoneProtocol
  import opened OutputType

  datatype Input =
    | PollNow                                        // one turn of the main loop
    | QuickRun(edits: map<nat, u8>, sched: int)      // web: durations, and -1 or a schedule number
    | Manual(station: u8, channel: u8, mins: u8)     // local buttons
    | AllOff                                         // local buttons
    | ZonesSetFrame(set_: ZonesSet)                  // radio, from a master
    | ReportFrame(report: ZonesReport)               // radio, from a remote
    | Pause(minutes: int)
    | Switch(on: bool)                               // run schedules on or off; the web polls next
    | SaveSchedule(k: nat, entry: Schedule)
    | DeleteSchedule(k: nat)
    | SaveSettings(seasonal: u8, types: seq<u8>)     // seasonal percentage, new output types if any
    | EditZones(zones: seq<Zone>)                    // names, enable flags, flow rates
    | StatusPage                                     // web: reads the remaining pause
    | Second                                         // the once-a-second tick

  function WithQuick(s: State, edits: map<nat, u8>): State
  {
    s.(quick := seq(MAX_ZONES, i requires 0 <= i < MAX_ZONES => if i in edits then edits[i] else s.quick[i]))
  }

  function StopAndPoll(s: State, now: Moment): State
  {
    if s.running then Poll(Stop(s, now), now) else s
  }

  function Seasoned(s: State, seasonal: u8): State
  {
    s.(cfg := s.cfg.(seasonal := seasonal))
  }

  /** The table after the entries from `k` on have moved down one slot. */
  function Shifted(s: State, k: nat): State
    requires k < s.numSchedules
  {
    s.(table := seq(MAX_SCHEDULES, i requires 0 <= i < MAX_SCHEDULES =>
                 if k <= i < s.numSchedules - 1 then s.table[i + 1] else s.table[i]),
       numSchedules := s.numSchedules - 1)
  }

  function Step(s: State, x: Input, now: Moment): State
  {
    match x
    case PollNow => Poll(s, now)
    case QuickRun(edits, sched) =>
      var s1 := WithQuick(Stop(s, now), edits);
      if sched == -1 then StartQuick(s1, now) else StartStored(s1, Wrap8(sched), now)
    case Manual(st, ch, mins) => if st < MAX_STATIONS then StartZone(s, st, ch, mins, now) else s
    case AllOff => TurnOffAll(s, now)
    case ZonesSetFrame(m) => HandleSet(s, m, now)
    case ReportFrame(m) => HandleReport(s, m)
    case Pause(minutes) => SetPause(s, minutes, now)
    case Switch(on) => s.(running := on)
    case SaveSchedule(k, entry) =>
      if k > s.numSchedules || k >= MAX_SCHEDULES then s
      else
        var s1 := s.(table := s.table[k := entry], numSchedules := Max(s.numSchedules, k + 1));
        if s.running && s.schedule == k then Poll(Stop(s1, now), now) else s1
    case DeleteSchedule(k) => if k < s.numSchedules then StopAndPoll(Shifted(s, k), now) else s
    case SaveSettings(seasonal, types) => StopAndPoll(Seasoned(SetOutputTypes(s, types, now), seasonal), now)
    case EditZones(zones) => if |zones| == MAX_ZONES then s.(cfg := s.cfg.(zones := zones)) else s
    case StatusPage => CheckPause(s, now)
    case Second => Tick(s)
  }

  /** Three demands of the code on its surroundings. A report must not come in the
      name of a station wired to this very unit. An edit keeps station and channel
      of every zone, and does not disable a zone whose valve is open on this unit. A
      new output type does not strand an open valve. */
  predicate Admissible(s: State, x: Input, now: Moment)
  {
    && (x.ReportFrame? ==> !IsLocalStation(s.cfg, x.report.from))
    && (x.SaveSettings? ==> SettingsSafe(s, x.types, now))
    && (x.EditZones? && |x.zones| == MAX_ZONES ==> EditAllowed(s, x.zones))
  }

  predicate EditAllowed(s: State, zones: seq<Zone>)
    requires |zones| == MAX_ZONES
  {
    SameWiring(s, zones) && LitEnabled(s, zones)
  }

  /** Stations and channels are as they were. */
  predicate SameWiring(s: State, zones: seq<Zone>)
    requires |zones| == MAX_ZONES
  {
    forall z | 0 <= z < MAX_ZONES ::
      zones[z].station == s.cfg.zones[z].station && zones[z].channel == s.cfg.zones[z].channel
  }

  predicate LitEnabled(s: State, zones: seq<Zone>)
    requires |zones| == MAX_ZONES
  {
    0 <= s.zone && IsLocalZone(s.cfg, s.zone) && s.cache[s.zone] != ZONE_STATE_OFF ==> zones[s.zone].enabled
  }

  datatype Timed = Timed(input: Input, now: Moment)

  function Run(s: State, xs: seq<Timed>): State
    decreases |xs|
  {
    if xs == [] then s else Run(Step(s, xs[0].input, xs[0].now), xs[1..])
  }

  predicate AllAdmissible(s: State, xs: seq<Timed>)
    decreases |xs|
  {
    xs == [] ||
    (Admissible(s, xs[0].input, xs[0].now) && AllAdmissible(Step(s, xs[0].input, xs[0].now), xs[1..]))
  }

  /** The state right after power-up: everything off, nothing logged. */
  ghost predicate Boot(s: State)
  {
    && Tiled(s.cfg)
    && s.schedule == NO_SCHEDULE && s.zone == NO_ZONE && s.endPause == 0
    && (forall z | 0 <= z < MAX_ZONES :: s.cache[z] == ZONE_STATE_OFF)
    && s.outputs == {} && s.log == []
  }

  lemma EditKeeps(s: State, zones: seq<Zone>)
    requires Inv(s) && Tiled(s.cfg) && |zones| == MAX_ZONES && EditAllowed(s, zones)
    ensures var r := s.(cfg := s.cfg.(zones := zones)); Inv(r) && Tiled(r.cfg)
  {
    var r := s.(cfg := s.cfg.(zones := zones));
    EditExactly(s, zones);
    TiledAfterEdit(s.cfg, r.cfg);
  }

  /** An edit of names, enable flags and flow rates keeps the invariant exactly if it
      leaves the zone enabled whose valve is open. */
  lemma EditExactly(s: State, zones: seq<Zone>)
    requires Inv(s) && |zones| == MAX_ZONES && SameWiring(s, zones)
    ensures Inv(s.(cfg := s.cfg.(zones := zones))) <==> LitEnabled(s, zones)
  {
    hide Energised, Interlocked, Honest, Used, GoodCell;
    var r := s.(cfg := s.cfg.(zones := zones));
    forall z | 0 <= z < s.cfg.numZones
      ensures IsLocalZone(r.cfg, z) == IsLocalZone(s.cfg, z)
      ensures zones[z].enabled && RouteOf(s.cfg, z) != NoRoute ==> RouteOf(r.cfg, z) == RouteOf(s.cfg, z)
      ensures !zones[z].enabled ==> RouteOf(r.cfg, z) == NoRoute
      ensures Accepts(r.cfg, RouteOf(s.cfg, z)) == Accepts(s.cfg, RouteOf(s.cfg, z))
    {}
  }

  lemma TiledAfterEdit(c: Config, d: Config)
    requires Tiled(c) && d == c.(zones := d.zones)
    requires forall z | 0 <= z < MAX_ZONES ::
               d.zones[z].station == c.zones[z].station && d.zones[z].channel == c.zones[z].channel
    ensures Tiled(d)
  {
    forall st, i | 0 <= st < MAX_STATIONS && d.stations[st].valid && d.stations[st].enabled
                   && 0 <= i < d.stations[st].channels
      ensures Owns(d, st, i)
    {
      assert Owns(c, st, i);
    }
  }

  lemma StopAndPollKeeps(s: State, now: Moment)
    requires Inv(s)
    ensures Inv(StopAndPoll(s, now))
  {
    hide Poll, Stop;
    StopIdles(s, now);
    PollKeeps(Stop(s, now), now);
  }

  lemma SeasonedKeeps(s: State, seasonal: u8)
    requires Closable(s) && WaterExact(s) && WaterFits(s) && s.zone < s.cfg.numZones
    ensures var r := Seasoned(s, seasonal);
            Closable(r) && WaterExact(r) && WaterFits(r) && r.zone < r.cfg.numZones
  {}

  lemma NewSettingsKeep(s: State, seasonal: u8, types: seq<u8>, now: Moment)
    requires Inv(s) && SettingsSafe(s, types, now)
    ensures Inv(Step(s, SaveSettings(seasonal, types), now))
  {
    hide Stop, Poll, Inv, Closable, WaterExact, WaterFits, Registers, SetOutputTypes, Valves, Accepts;
    var t := SetOutputTypes(s, types, now);
    AllSetUp(s, types, now);
    var r := Seasoned(t, seasonal);
    if s.running {
      SafeIsClosable(s, t);
      SeasonedKeeps(t, seasonal);
      RegistersAgree(s);
      StopIdles(r, now);
      PollKeeps(Stop(r, now), now);
    } else {
      SameOutputsKeep(s, t);
      SettingsKeep(t, r);
    }
  }

  lemma RegistersAgree(s: State)
    requires Inv(s)
    ensures s.schedule == NO_SCHEDULE ==> s.zone == NO_ZONE
  {}

  lemma StepKeeps(s: State, x: Input, now: Moment)
    requires Inv(s) && Admissible(s, x, now) && Tiled(s.cfg)
    ensures Inv(Step(s, x, now))
  {
    hide Poll, Stop, StartQuick, StartStored, StartZone, TurnOffAll, HandleSet, Report, SetPause, Tick, Inv,
         Tiled, StopAndPoll, SetOutputTypes;
    match x
    case PollNow => PollKeeps(s, now);
    case QuickRun(edits, sched) =>
      StopKeeps(s, now);
      SettingsKeep(Stop(s, now), WithQuick(Stop(s, now), edits));
      StartQuickKeeps(WithQuick(Stop(s, now), edits), now);
      StartStoredKeeps(WithQuick(Stop(s, now), edits), Wrap8(sched), now);
    case Manual(st, ch, mins) => if st < MAX_STATIONS { StartZoneKeeps(s, st, ch, mins, now); }
    case AllOff => TurnOffAllIdles(s, now);
    case ZonesSetFrame(m) => HandleSetKeeps(s, m, now);
    case ReportFrame(m) => ReportKeeps(s, m.from, m.data);
    case Pause(minutes) => SetPauseKeeps(s, minutes, now);
    case Switch(on) => SettingsKeep(s, s.(running := on));
    case SaveSchedule(k, entry) =>
      if k <= s.numSchedules && k < MAX_SCHEDULES {
        var s1 := s.(table := s.table[k := entry], numSchedules := Max(s.numSchedules, k + 1));
        SettingsKeep(s, s1);
        StopKeeps(s1, now);
        PollKeeps(Stop(s1, now), now);
      }
    case DeleteSchedule(k) =>
      if k < s.numSchedules {
        SettingsKeep(s, Shifted(s, k));
        StopAndPollKeeps(Shifted(s, k), now);
      }
    case SaveSettings(seasonal, types) => NewSettingsKeep(s, seasonal, types, now);
    case EditZones(zones) => if |zones| == MAX_ZONES { EditKeeps(s, zones); }
    case StatusPage => SettingsKeep(s, CheckPause(s, now));
    case Second => TickKeeps(s);
  }

  /** An edit is the only input that touches the zone table. */
  lemma StepTiled(s: State, x: Input, now: Moment)
    requires Tiled(s.cfg) && Admissible(s, x, now)
    ensures Tiled(Step(s, x, now).cfg)
  {
    hide Poll, Stop, StartQuick, StartStored, StartZone, TurnOffAll, HandleSet, Report, SetPause, Tick, Tiled;
    var c := Step(s, x, now).cfg;
    if x.EditZones? && |x.zones| == MAX_ZONES {
      TiledAfterEdit(s.cfg, c);
    } else if x.SaveSettings? {
      AllSetUp(s, x.types, now);
      assert c == s.cfg.(boards := c.boards, seasonal := x.seasonal);
      SettingsKeepTiling(s.cfg, c);
    } else {
      assert c == s.cfg;
    }
  }

  lemma SettingsKeepTiling(c: Config, d: Config)
    requires Tiled(c) && d == c.(boards := d.boards, seasonal := d.seasonal)
    ensures Tiled(d)
  {
    forall st, i | 0 <= st < MAX_STATIONS && c.stations[st].valid && c.stations[st].enabled
                   && 0 <= i < c.stations[st].channels
      ensures Owns(d, st, i)
    {
      assert Owns(c, st, i);
    }
  }

  /** The invariant holds after any admissible run from any state that has it. */
  lemma {:induction false} RunKeeps(s: State, xs: seq<Timed>)
    requires Inv(s) && Tiled(s.cfg) && AllAdmissible(s, xs)
    ensures Inv(Run(s, xs)) && Tiled(Run(s, xs).cfg)
    decreases |xs|
  {
    hide Step, Inv, Tiled;
    if xs != [] {
      StepKeeps(s, xs[0].input, xs[0].now);
      StepTiled(s, xs[0].input, xs[0].now);
      RunKeeps(Step(s, xs[0].input, xs[0].now), xs[1..]);
    }
  }

  /** Whatever happens after power-up, polls, buttons, web requests, frames in any
      order and at any times: never two valves of this unit at once, neither in the
      cache nor on the outputs nor at any point of the command history; an open
      valve is the current zone of an active schedule; the registers are consistent;
      every schedule record reports the water of its own zone records. */
  lemma SafeFromBoot(s: State, xs: seq<Timed>)
    requires Boot(s) && AllAdmissible(s, xs)
    ensures var r := Run(s, xs);
            && |r.outputs| <= 1 && (r.schedule == NO_SCHEDULE ==> r.outputs == {})
            && (forall z | 0 <= z < r.cfg.numZones && IsLocalZone(r.cfg, z) && r.cache[z] != ZONE_STATE_OFF ::
                  z == r.zone && r.schedule != NO_SCHEDULE && r.outputs == {RouteOf(r.cfg, z)})
            && Interlocked(r.log) && r.outputs == Energised(r.log)
            && Registers(r) && Honest(r.log)
  {
    RunKeeps(s, xs);
    AtMostOneValve(Run(s, xs));
  }

  // ----- what the inputs ask for -----

  /** The stored schedules in use. */
  function Stored(s: State): seq<Schedule> { s.table[..s.numSchedules] }

  /** Edits do what they say, whatever they start or stop besides: a saved schedule takes
      its place or is appended, a deleted one is gone, new settings are in force. */
  lemma EditsTake(s: State, x: Input, now: Moment)
    ensures var r := Step(s, x, now);
            var list := Stored(s);
            && Stored(r) == (match x
                             case SaveSchedule(k, entry) =>
                               if k < |list| then list[k := entry]
                               else if k == |list| && k < 4 then list + [entry] else list
                             case DeleteSchedule(k) => if k < |list| then list[..k] + list[k + 1..] else list
                             case _ => list)
            && r.running == (if x.Switch? then x.on else s.running)
            && r.cfg.zones == (if x.EditZones? && |x.zones| == MAX_ZONES then x.zones else s.cfg.zones)
            && r.cfg.seasonal == (if x.SaveSettings? then x.seasonal else s.cfg.seasonal)
            && r.cfg.boards.outputType ==
                 (if x.SaveSettings? && x.types != [] then x.types[|x.types| - 1] else s.cfg.boards.outputType)
  {
    hide Poll, Stop, StartQuick, StartStored, StartZone, TurnOffAll, HandleSet, HandleReport, SetPause, Tick,
         CheckPause, SetOutputTypes;
    match x
    case DeleteSchedule(k) => if k < s.numSchedules { ShiftedIsDeletion(s, k); }
    case SaveSettings(seasonal, types) => AllSetUp(s, types, now); LastType(s, types, now);
    case _ =>
  }

  lemma ShiftedIsDeletion(s: State, k: nat)
    requires k < s.numSchedules
    ensures Stored(Shifted(s, k)) == Stored(s)[..k] + Stored(s)[k + 1..]
  {}

  lemma {:induction false} LastType(s: State, types: seq<u8>, now: Moment)
    ensures SetOutputTypes(s, types, now).cfg.boards.outputType ==
            if types == [] then s.cfg.boards.outputType else types[|types| - 1]
    decreases |types|
  {
    if types != [] {
      LastType(SetOutputType(s, types[0], now), types[1..], now);
      assert SetOutputType(s, types[0], now).cfg.boards.outputType == types[0];
    }
  }

  /** A start by the local buttons runs exactly the asked channel of a station in use; for
      a station not in use or a channel number beyond it nothing happens. */
  lemma ButtonStarts(s: State, st: u8, ch: u8, mins: u8, now: Moment)
    requires Inv(s) && Tiled(s.cfg) && s.running && st < MAX_STATIONS && mins > 0
    ensures var x := s.cfg.stations[st];
            var r := Step(s, Manual(st, ch, mins), now);
            && (x.valid && x.enabled && ch < x.channels ==>
                  OwnZone(s.cfg, st, ch) && JustStarted(r, x.startZone + ch, mins, now) && Inv(r))
            && (!(x.valid && x.enabled && ch <= x.channels) ==> r == s)
  {
    hide StartZone, Inv, Tiled, JustStarted, Target;
    var x := s.cfg.stations[st];
    if x.valid && x.enabled && ch < x.channels {
      EightChannels(s.cfg, st);
      OwnChannel(s.cfg, st, ch);
      TargetOf(s, st, ch);
      OneZoneManual(s, st, ch, mins, now);
    } else {
      TargetIsOwn(s, st, ch);
      NoTarget(s, st, ch, mins, now);
    }
  }

  lemma NoTarget(s: State, st: u8, ch: u8, mins: u8, now: Moment)
    requires st < MAX_STATIONS
    ensures Target(s, st, ch) < 0 ==> StartZone(s, st, ch, mins, now) == s
  {}

  /** With schedules off, every poll leaves the unit idle, whatever was asked for since. */
  lemma OffMeansIdle(s: State, xs: seq<Timed>, now: Moment)
    requires Inv(s) && Tiled(s.cfg) && !s.running && AllAdmissible(s, xs)
    requires forall i | 0 <= i < |xs| :: xs[i].input != Switch(true)
    ensures Idle(Poll(Run(s, xs), now))
  {
    hide Run, Inv, AllAdmissible, Stop, Idle;
    RunKeeps(s, xs);
    StaysOff(s, xs);
    StopKeeps(Run(s, xs), now);
  }

  lemma {:induction false} StaysOff(s: State, xs: seq<Timed>)
    requires !s.running && forall i | 0 <= i < |xs| :: xs[i].input != Switch(true)
    ensures !Run(s, xs).running
    decreases |xs|
  {
    hide Step;
    if xs != [] {
      EditsTake(s, xs[0].input, xs[0].now);
      assert xs[0].input.Switch? ==> !xs[0].input.on;
      StaysOff(Step(s, xs[0].input, xs[0].now), xs[1..]);
    }
  }

  /** A report that is taken shows: the channels of its station are RUNNING or OFF, bit by
      bit. */
  lemma ReportShows(s: State, m: ZonesReport, i: nat, now: Moment)
    requires Tiled(s.cfg) && m.from <= 9 && m.first + m.num <= s.cfg.numZones
    requires s.cfg.stations[m.from].valid && s.cfg.stations[m.from].enabled && i < s.cfg.stations[m.from].channels
    ensures var z := s.cfg.stations[m.from].startZone + i;
            && z < s.cfg.numZones
            && ZoneState(Step(s, ReportFrame(m), now), z) ==
               if Bit(m.data, i) then ZONE_STATE_RUNNING else ZONE_STATE_OFF
  {
    hide Bit;
    assert Owns(s.cfg, m.from, i);
  }

  /** The button for everything off leaves no schedule and no valve of this unit. */
  lemma AllOffIdles(s: State, now: Moment)
    requires Inv(s)
    ensures Idle(Step(s, AllOff, now))
  {
    TurnOffAllIdles(s, now);
  }

  // ----- edits of a running schedule -----

  /** Some schedule record was written between two logs. */
  ghost predicate Ended(a: seq<Event>, b: seq<Event>)
  {
    exists i :: |a| <= i < |b| && b[i].SchedLog?
  }

  lemma StopEnds(s: State, now: Moment, r: State)
    requires s.schedule != NO_SCHEDULE && Onward(Stop(s, now), r)
    ensures Ended(s.log, r.log)
  {
    hide RouteOf, Accepts, Minutes;
    var l := Stop(s, now).log;
    assert l[|l| - 1].SchedLog? && r.log[|l| - 1] == l[|l| - 1];
  }

  /** No input changes the durations and flags of a stored schedule while it runs: an
      edit or a deletion first ends it with its record. */
  lemma PlanStaysFixed(s: State, x: Input, now: Moment)
    requires s.running && 0 <= s.schedule < MAX_SCHEDULES
    ensures var r := Step(s, x, now);
            r.table[s.schedule] == s.table[s.schedule] || Ended(s.log, r.log)
  {
    hide Poll, Stop, StartQuick, StartStored, StartZone, TurnOffAll, HandleSet, HandleReport, SetPause, Tick, Ended,
         SetOutputTypes, CheckPause;
    match x
    case SaveSchedule(k, entry) =>
      if k == s.schedule && k <= s.numSchedules {
        var s1 := s.(table := s.table[k := entry], numSchedules := Max(s.numSchedules, k + 1));
        StopEnds(s1, now, Poll(Stop(s1, now), now));
      }
    case DeleteSchedule(k) =>
      if k < s.numSchedules {
        var s1 := Shifted(s, k);
        StopEnds(s1, now, Poll(Stop(s1, now), now));
      }
    case SaveSettings(seasonal, types) => AllSetUp(s, types, now);
    case _ =>
  }

  /** Saving another schedule than the running one, or with schedules off, touches nothing
      but the table. */
  lemma SavedElsewhere(s: State, k: nat, entry: Schedule, now: Moment)
    requires !s.running || k != s.schedule
    ensures var r := Step(s, SaveSchedule(k, entry), now);
            r == s.(table := r.table, numSchedules := r.numSchedules)
  {}

  // ----- why the three demands are needed -----

  /** A settings request keeps the invariant exactly if it strands no valve. */
  lemma NewOutputType(s: State, seasonal: u8, types: seq<u8>, now: Moment)
    requires Inv(s)
    ensures Inv(Step(s, SaveSettings(seasonal, types), now)) <==> SettingsSafe(s, types, now)
  {
    hide Stop, Poll, Inv, SetOutputTypes, Accepts;
    var t := SetOutputTypes(s, types, now);
    AllSetUp(s, types, now);
    var r := Seasoned(t, seasonal);
    if SettingsSafe(s, types, now) {
      NewSettingsKeep(s, seasonal, types, now);
    } else if s.running {
      var o :| o in t.outputs && !Accepts(t.cfg, o);
      assert !Accepts(r.cfg, o) by { SameBoards(t, seasonal, o); }
      DeafStays(r, o, now);
      DeafIsNotInv(Poll(Stop(r, now), now), o);
    } else if Inv(r) {
      SettingsKeep(r, t);
      OnlySameOutputsKeep(s, t);
    }
  }

  lemma SameBoards(s: State, seasonal: u8, r: Route)
    ensures Accepts(Seasoned(s, seasonal).cfg, r) == Accepts(s.cfg, r)
  {}

  /** Disabling the running zone: stopping the schedule then closes the valve exactly
      if the zone is still enabled; otherwise the unit is idle with water flowing. */
  lemma EditOfRunningZone(s: State, zones: seq<Zone>, now: Moment)
    requires Inv(s) && |zones| == MAX_ZONES && SameWiring(s, zones)
    requires s.zone >= 0 && IsLocalZone(s.cfg, s.zone) && s.cache[s.zone] != ZONE_STATE_OFF
    ensures var r := Stop(s.(cfg := s.cfg.(zones := zones)), now);
            r.schedule == NO_SCHEDULE && (r.outputs == {} <==> zones[s.zone].enabled)
  {
    hide Minutes, Interlocked, Honest, Energised;
    var z := s.zone;
    var c := s.cfg.(zones := zones);
    assert RouteOf(c, z) == if zones[z].enabled then RouteOf(s.cfg, z) else NoRoute;
    assert RouteOf(s.cfg, z) in s.outputs;
  }

  /** A report in the name of a local station keeps the invariant exactly if it says
      of every channel what is the case. */
  lemma ReportOfOwnStation(s: State, st: nat, status: u8)
    requires Inv(s) && Tiled(s.cfg) && IsLocalStation(s.cfg, st)
    requires s.cfg.stations[st].valid && s.cfg.stations[st].enabled
    ensures Inv(Report(s, st, status)) <==>
            (forall i | 0 <= i < s.cfg.stations[st].channels :: TrueBit(s, st, status, i))
  {
    hide Interlocked, Honest, Energised, Used;
    var r := Report(s, st, status);
    var a, n := s.cfg.stations[st].startZone, s.cfg.stations[st].channels;
    forall i | 0 <= i < n
      ensures a + i < s.cfg.numZones && IsLocalZone(s.cfg, a + i)
      ensures Inv(r) ==> TrueBit(s, st, status, i)
    {
      assert Owns(s.cfg, st, i);
    }
    if forall i | 0 <= i < n :: TrueBit(s, st, status, i) {
      forall z | 0 <= z < MAX_ZONES ensures r.cache[z] == s.cache[z] {
        if a <= z < a + n { assert TrueBit(s, st, status, z - a); }
      }
      assert r.cache == s.cache;
      assert r == s;
    }
  }

  predicate TrueBit(s: State, st: nat, status: u8, i: nat)
    requires st < MAX_STATIONS
  {
    var z := s.cfg.stations[st].startZone + i;
    z < MAX_ZONES && (Bit(status, i) <==> s.cache[z] != ZONE_STATE_OFF)
  }
}
