/** The scheduler as a state machine: what each operation of the run-state object
    does to the state, as functions on values. */
module Scheduler {
  import opened Words
  import opened Site
  import NextEvent

  const ZONE_STATE_OFF: u8 := 0
  const ZONE_STATE_STARTING: u8 := 0x10
  const ZONE_STATE_STOPPING: u8 := 0x20
  const ZONE_STATE_RUNNING: u8 := 0xF0
  const ZONE_STATE_TIMEOUT: u8 := 5

  const DELAY_BETWEEN_ZONES: nat := 5000
  const QUICK_SCHEDULE: int := 100

  const NO_SCHEDULE: int := -1
  const NO_ZONE: int := -1
  const DELAY: int := -2

  /** Everything the scheduler makes visible outside: valve commands that were
      carried out, and log records. `Begin` marks the start of a schedule, `Reset` a
      set-up of the boards that drove the outputs `off` to their off level. */
  datatype Event =
    | Begin(schedule: int, ms: nat)
    | On(zone: nat, route: Route, mins: u8, ms: nat)
    | Off(zone: nat, route: Route, ms: nat)
    | ZoneLog(zone: nat, duration: int, water: u16, schedule: int)
    | SchedLog(schedule: int, duration: int, water: u16)
    | Reset(off: set<Route>, ms: nat)

  datatype StateRecord = State(
    cfg: Config,
    table: seq<Schedule>,      // the stored schedules, all MAX_SCHEDULES slots
    numSchedules: nat,
    running: bool,             // GetRunSchedules()
    schedule: int,             // m_iSchedule
    zone: int,                 // m_iZone
    nextZone: int,             // m_iNextZone
    startZone: u32,            // m_startZoneMillis
    zoneMins: u8,              // m_zoneMins
    startSched: u32,           // m_startSchedMillis
    endPause: u32,             // m_endPauseMillis
    water: u32,                // m_iWaterUsed
    quick: seq<u8>,            // quickSchedule.zone_duration
    cache: seq<u8>,            // zoneStateCache
    outputs: set<Route>,       // energised channels of the two local boards
    log: seq<Event>)

  type State = s: StateRecord |
    && |s.table| == MAX_SCHEDULES && s.numSchedules <= MAX_SCHEDULES
    && |s.quick| == MAX_ZONES && |s.cache| == MAX_ZONES
    && s.zone < MAX_ZONES && s.nextZone < MAX_ZONES
    witness State(
      Config(0, seq(64, _ => Zone(false, 0, 0, 0)),
             seq(16, _ => Station(false, false, false, false, 0, 0, 0, 0)),
             Boards(false, 0, 0, false, 0), 100),
      seq(4, _ => Schedule(false, false, false, 0, [-1, -1, -1, -1], seq(64, _ => 0))),
      0, false, -1, -1, -1, 0, 0, 0, 0, 0, seq(64, _ => 0), seq(64, _ => 0), {}, [])

  /** Scheduling reads the settings in the store and never writes them, and it only
      ever adds to the log. */
  predicate Onward(s: State, r: State)
  {
    && r.cfg == s.cfg && r.table == s.table && r.numSchedules == s.numSchedules && r.running == s.running
    && s.log <= r.log
  }

  // ----- single zones -----

  function TurnOn(s: State, z: nat, mins: u8, now: Moment): (r: State)
    requires z < MAX_ZONES
    ensures Onward(s, r)
  {
    var r := RouteOf(s.cfg, z);
    if !Accepts(s.cfg, r) then s
    else s.(
      cache := s.cache[z := if r.Local() then ZONE_STATE_RUNNING else ZONE_STATE_STARTING + ZONE_STATE_TIMEOUT],
      outputs := if r.Local() then s.outputs + {r} else s.outputs,
      log := s.log + [On(z, r, mins, now.ms)])
  }

  /** A local zone is marked OFF whether or not the board obeys; a remote one only
      if its station is in use; a zone without a route is refused. */
  function TurnOff(s: State, z: nat, now: Moment): (r: State)
    requires z < MAX_ZONES
    ensures Onward(s, r)
  {
    var r := RouteOf(s.cfg, z);
    var s1 := if !Accepts(s.cfg, r) then s
              else s.(outputs := s.outputs - {r}, log := s.log + [Off(z, r, now.ms)]);
    if r.Local() then s1.(cache := s.cache[z := ZONE_STATE_OFF])
    else if Accepts(s.cfg, r) then s1.(cache := s.cache[z := ZONE_STATE_STOPPING + ZONE_STATE_TIMEOUT])
    else s1
  }

  /** Index of the first zone that is not OFF, or -1. */
  function ActiveZone(s: State): int
  {
    FirstFrom(s.cache, 0, s.cfg.numZones)
  }

  function TurnOffFrom(s: State, z: nat, now: Moment): (r: State)
    requires z <= s.cfg.numZones
    ensures Onward(s, r)
    decreases s.cfg.numZones - z
  {
    if z == s.cfg.numZones then s
    else TurnOffFrom(if s.cache[z] != ZONE_STATE_OFF then TurnOff(s, z, now) else s, z + 1, now)
  }

  function TurnOffAll(s: State, now: Moment): (r: State)
    ensures Onward(s, r)
  {
    TurnOffFrom(s, 0, now).(zone := NO_ZONE, schedule := NO_SCHEDULE)
  }

  // ----- schedules -----

  function Minutes(now: Moment, start: u32): int
  {
    Int16(Elapsed(now.Millis(), start) / 60000)
  }

  /** Water of one zone run, in hundredths of a gallon, cut to 16 bits. */
  function WaterOf(duration: int, flow: u16): u16
  {
    Wrap16(Wrap32(Wrap32(duration) * flow))
  }

  function LogZone(s: State, now: Moment): (r: State)
    requires 0 <= s.zone
    ensures Onward(s, r)
  {
    var d := Minutes(now, s.startZone);
    Charge(s, d, WaterOf(d, s.cfg.zones[s.zone].flow))
  }

  /** Adds one zone record of `w` hundredths of a gallon. */
  function Charge(s: State, d: int, w: u16): (r: State)
    requires 0 <= s.zone
    ensures Onward(s, r)
  {
    s.(water := Wrap32(s.water + w), log := s.log + [ZoneLog(s.zone, d, w, s.schedule)])
  }

  function LogSchedule(s: State, now: Moment): (r: State)
    ensures Onward(s, r)
  {
    if s.schedule == NO_SCHEDULE then s
    else s.(log := s.log + [SchedLog(s.schedule, Minutes(now, s.startSched), Wrap16(s.water / 100))])
  }

  function Stop(s: State, now: Moment): (r: State)
    ensures Onward(s, r)
  {
    if s.schedule == NO_SCHEDULE then s
    else
      var s1 := if s.zone >= 0 then TurnOff(s, s.zone, now) else s;
      LogSchedule(s1.(zone := NO_ZONE), now).(schedule := NO_SCHEDULE, water := 0)
  }

  /** Minutes adjusted by the seasonal and weather scales, at most 254. */
  function Adjust(mins: u8, seasonal: u8, wu: Scale): u8
  {
    Min((mins * (seasonal * wu / 100) + 50) / 100, 254)
  }

  function ZoneMinutes(s: State, d: seq<u8>, adj: bool, z: nat, now: Moment): u8
    requires |d| == MAX_ZONES && z < MAX_ZONES
  {
    if adj then Adjust(d[z], s.cfg.seasonal, now.wu) else d[z]
  }

  /** Opens a schedule with durations `d` at its first watered zone, if it has one. */
  function Open(s: State, id: int, d: seq<u8>, adj: bool, now: Moment): (r: State)
    requires |d| == MAX_ZONES
    ensures Onward(s, r)
  {
    var z := FirstFrom(d, 0, s.cfg.numZones);
    if z < 0 then s
    else
      var mins := ZoneMinutes(s, d, adj, z, now);
      TurnOn(s.(schedule := id, startSched := now.Millis(), zone := z, startZone := now.Millis(),
                zoneMins := mins, log := s.log + [Begin(id, now.ms)]), z, mins, now)
  }

  function StartQuick(s: State, now: Moment): (r: State)
    ensures Onward(s, r)
  {
    var s1 := Stop(s, now).(water := 0);
    Open(s1, QUICK_SCHEDULE, s1.quick, false, now)
  }

  /** A schedule number outside the store, or a disabled schedule, starts nothing. */
  function StartStored(s: State, id: u8, now: Moment): (r: State)
    ensures Onward(s, r)
  {
    var s1 := Stop(s, now).(water := 0);
    if id >= MAX_SCHEDULES || !s1.table[id].enabled then s1
    else Open(s1, id, s1.table[id].duration, s1.table[id].wadj, now)
  }

  // ----- the poll -----

  predicate SchedulePresent(s: State)
  {
    s.schedule == QUICK_SCHEDULE || (0 <= s.schedule < MAX_SCHEDULES && s.table[s.schedule].enabled)
  }

  function Durations(s: State): (d: seq<u8>)
    ensures |d| == MAX_ZONES
  {
    if 0 <= s.schedule < MAX_SCHEDULES then s.table[s.schedule].duration else s.quick
  }

  predicate Adjusted(s: State)
  {
    0 <= s.schedule < MAX_SCHEDULES && s.table[s.schedule].wadj
  }

  /** The inter-zone delay is over: start the remembered zone. */
  function AfterDelay(s: State, now: Moment): (r: State)
    ensures Onward(s, r)
  {
    if s.nextZone < 0 then Stop(s, now)
    else if !SchedulePresent(s) then Stop(s.(zone := NO_ZONE), now)
    else
      var z := s.nextZone;
      var mins := ZoneMinutes(s, Durations(s), Adjusted(s), z, now);
      TurnOn(s.(zone := z, nextZone := -1, startZone := now.Millis(), zoneMins := mins), z, mins, now)
  }

  /** The running zone is done: log it, close it, and delay or finish. */
  function AfterZone(s: State, now: Moment): (r: State)
    requires 0 <= s.zone
    ensures Onward(s, r)
  {
    var s1 := TurnOff(LogZone(s, now), s.zone, now);
    var z := if SchedulePresent(s) then FirstFrom(Durations(s), s.zone + 1, s.cfg.numZones) else -1;
    if z >= 0 then s1.(nextZone := z, zone := DELAY, startZone := now.Millis())
    else Stop(s1.(zone := NO_ZONE), now)
  }

  function RemainingPause(s: State, now: Moment): int
  {
    if s.endPause == 0 then 0 else Max(Int16(Elapsed(s.endPause, now.Millis()) / 60000), 0)
  }

  /** Reading the remaining pause clears a pause that has less than a minute left. */
  function CheckPause(s: State, now: Moment): (r: State)
    ensures Onward(s, r)
  {
    if s.endPause != 0 && RemainingPause(s, now) == 0 then s.(endPause := 0) else s
  }

  function NextStart(s: State, now: Moment): NextEvent.Event
  {
    NextEvent.Next(s.table[..s.numSchedules], now, Int16(now.minute + RemainingPause(s, now)))
  }

  function IdlePoll(s: State, now: Moment): (r: State)
    ensures Onward(s, r)
  {
    var e := NextStart(s, now);
    var s1 := CheckPause(s, now);
    if e.Some? && e.time == now.minute then StartStored(s1, Wrap8(e.sched), now) else s1
  }

  function Poll(s: State, now: Moment): (r: State)
    ensures Onward(s, r)
  {
    if !s.running then Stop(s, now)
    else if s.schedule == NO_SCHEDULE then IdlePoll(s, now)
    else if s.zone == DELAY then
      if Elapsed(now.Millis(), s.startZone) < DELAY_BETWEEN_ZONES then s else AfterDelay(s, now)
    else if s.zone >= 0 then
      if Elapsed(now.Millis(), s.startZone) / 60000 < s.zoneMins then s else AfterZone(s, now)
    else Stop(s, now)
  }

  /** Clock reading at which a pause ends; never 0, which means no pause. */
  function PauseEnd(mins: int, now: Moment): u32
  {
    var end := Wrap32(now.Millis() + Wrap32(Wrap32(mins) * 60000));
    if end == 0 then 1 else end
  }

  function SetPause(s: State, mins: int, now: Moment): (r: State)
    ensures Onward(s, r)
  {
    if mins == 0 then
      if s.endPause != 0 then Poll(s.(endPause := 0), now) else s
    else
      var s1 := if s.running then Stop(s, now) else s;
      Poll(s1.(endPause := PauseEnd(mins, now)), now)
  }

  // ----- manual and remote starts -----

  function QuickOnly(s: State, z: nat, mins: u8): (r: State)
    requires z < s.cfg.numZones
    ensures Onward(s, r)
  {
    s.(quick := seq(MAX_ZONES, i requires 0 <= i < MAX_ZONES =>
                 if i == z then mins else if i < s.cfg.numZones then 0 else s.quick[i]))
  }

  /** The zone a start request addresses, or -1. The channel check lets
      `channel == channels` through. */
  function Target(s: State, station: nat, channel: u8): (z: int)
    requires station < MAX_STATIONS
    ensures -1 <= z < s.cfg.numZones
  {
    var st := s.cfg.stations[station];
    if !st.enabled || !st.valid || channel > st.channels then -1
    else
      var ch := Wrap8(st.startZone + channel);
      if ch >= s.cfg.numZones then -1 else ch
  }

  /** Ends the current schedule, then closes whatever is still not OFF. */
  function Clear(s: State, now: Moment): (r: State)
    ensures Onward(s, r)
  {
    var s1 := Stop(s, now);
    if ActiveZone(s1) != -1 then TurnOffAll(s1, now) else s1
  }

  function StartZone(s: State, station: nat, channel: u8, mins: u8, now: Moment): (r: State)
    requires station < MAX_STATIONS
    ensures Onward(s, r)
  {
    var z := Target(s, station, channel);
    if z < 0 then s
    else
      Poll(StartQuick(QuickOnly(Clear(s, now), z, mins), now), now)
  }

  /** A start asked for by the master runs one minute longer, in one byte. */
  function RemoteStart(s: State, station: nat, channel: u8, ttr: u8, now: Moment): (r: State)
    requires station < MAX_STATIONS
    ensures Onward(s, r)
  {
    StartZone(s, station, channel, Wrap8(ttr + 1), now)
  }

  // ----- the output type -----

  /** Setting up the boards for type `ot` drives output `r` off: all channels of the
      serial board, those of the parallel board only for a direct type. */
  predicate ResetBy(b: Boards, ot: u8, r: Route)
  {
    match r
    case Parallel(ch) => Direct(ot) && ch < b.parallelChannels
    case Serial(ch) => ch < b.serialChannels
    case _ => false
  }

  /** A new output type sets up both boards again, if they have channels; the old one
      changes nothing. The cache and the registers are not told. */
  function SetOutputType(s: State, ot: u8, now: Moment): State
  {
    var b := s.cfg.boards;
    if ot == b.outputType then s
    else
      var off := set r | r in s.outputs && ResetBy(b, ot, r);
      s.(cfg := s.cfg.(boards := b.(outputType := ot,
                                    parallelReady := b.parallelReady || b.parallelChannels != 0,
                                    serialReady := b.serialReady || b.serialChannels != 0)),
         outputs := s.outputs - off,
         log := if off == {} then s.log else s.log + [Reset(off, now.ms)])
  }

  // ----- status cache -----

  /** One second passes for a zone in transition. */
  function TickCell(x: u8): u8
  {
    if x == ZONE_STATE_OFF || x == ZONE_STATE_RUNNING then x
    else if (x / 16) % 2 == 1 then
      if x % 16 > 1 then ZONE_STATE_STARTING + (x % 16 - 1) else ZONE_STATE_OFF
    else if (x / 32) % 2 == 1 then
      if x % 16 > 1 then ZONE_STATE_STOPPING + (x % 16 - 1) else ZONE_STATE_OFF
    else x
  }

  function Tick(s: State): (r: State)
    ensures Onward(s, r)
  {
    s.(cache := seq(MAX_ZONES, i requires 0 <= i < MAX_ZONES =>
                 if i < s.cfg.numZones then TickCell(s.cache[i]) else s.cache[i]))
  }

  /** The cells of a station's block take the bits of `status`; the first and
      number-of-zones fields of the report are not looked at. */
  function Report(s: State, station: nat, status: u8): (r: State)
    ensures Onward(s, r)
  {
    if station >= MAX_STATIONS then s
    else
      var st := s.cfg.stations[station];
      if !st.valid || !st.enabled then s
      else s.(cache := seq(MAX_ZONES, i requires 0 <= i < MAX_ZONES =>
                        if st.startZone <= i < st.startZone + st.channels
                        then if Bit(status, i - st.startZone) then ZONE_STATE_RUNNING else ZONE_STATE_OFF
                        else s.cache[i]))
  }

  /** State nibble of a zone, numbered from 0. */
  function ZoneState(s: State, z: nat): u8
  {
    if z >= s.cfg.numZones then ZONE_STATE_OFF else s.cache[z] / 16 * 16
  }
}
