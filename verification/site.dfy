/** What the firmware knows about its site: stations, zones, stored schedules and
    the output boards; and what one call learns from the outside world. */
module Site {
  import opened Words

  const MAX_STATIONS: nat := 16
  const MAX_ZONES: nat := 64
  const MAX_SCHEDULES: nat := 4

  const NETWORK_ID_LOCAL_PARALLEL: u8 := 0
  const NETWORK_ID_LOCAL_SERIAL: u8 := 1
  const NETWORK_ID_XBEE: u8 := 10
  const NETWORK_ID_MOTEINORF: u8 := 11

  datatype Station = Station(
    valid: bool, enabled: bool, rstatus: bool, rcontrol: bool,
    network: u8, channels: u8, startZone: u8, address: u16)

  datatype Zone = Zone(enabled: bool, station: u8, channel: u8, flow: u16)

  /** The two local boards: how many channels, and whether they are up. */
  datatype Boards = Boards(
    parallelReady: bool, parallelChannels: u8, outputType: u8,
    serialReady: bool, serialChannels: u8)

  const OT_DIRECT_POS: u8 := 1
  const OT_DIRECT_NEG: u8 := 2

  /** Output types under which the parallel board carries out commands. */
  predicate Direct(ot: u8) { ot == OT_DIRECT_POS || ot == OT_DIRECT_NEG }

  datatype ConfigRecord = Config(
    numZones: nat, zones: seq<Zone>, stations: seq<Station>, boards: Boards, seasonal: u8)

  type Config = c: ConfigRecord |
    |c.zones| == MAX_ZONES && |c.stations| == MAX_STATIONS && c.numZones <= MAX_ZONES
    witness Config(0, seq(64, _ => Zone(false, 0, 0, 0)),
                   seq(16, _ => Station(false, false, false, false, 0, 0, 0, 0)),
                   Boards(false, 0, 0, false, 0), 100)

  /** `day` is the union of a weekday mask and a day interval. A start time of -1 is unused. */
  datatype ScheduleRecord = Schedule(
    enabled: bool, interval: bool, wadj: bool, day: u8, time: seq<int>, duration: seq<u8>)

  type Schedule = r: ScheduleRecord |
    && |r.time| == 4 && |r.duration| == MAX_ZONES
    && (forall j | 0 <= j < 4 :: -0x8000 <= r.time[j] < 0x8000)
    && (r.interval ==> r.day != 0)
    witness Schedule(false, false, false, 0, [-1, -1, -1, -1], seq(64, _ => 0))

  type MinuteOfDay = m: int | 0 <= m < 1440
  type Weekday = w: int | 1 <= w <= 7 witness 1
  type Scale = w: int | 0 <= w <= 200

  /** One reading of the outside world: true milliseconds since boot, the wall
      clock, and the weather service's scale. */
  datatype Moment = Moment(ms: nat, minute: MinuteOfDay, weekday: Weekday, days: nat, wu: Scale)
  {
    /** What `millis()` returns. */
    function Millis(): u32 { Wrap32(ms) }
  }

  /** Where the commands of a zone go. */
  datatype Route =
    | NoRoute
    | Parallel(chan: u8)
    | Serial(chan: u8)
    | Remote(station: u8, channel: u8)
  {
    predicate Local() { Parallel? || Serial? }
  }

  function RouteOf(c: Config, z: nat): Route
  {
    if z >= c.numZones then NoRoute
    else
      var zone := c.zones[z];
      if !zone.enabled || zone.station >= MAX_STATIONS then NoRoute
      else
        var st := c.stations[zone.station];
        if !st.enabled then NoRoute
        else if st.network == NETWORK_ID_LOCAL_PARALLEL then Parallel(Wrap8(st.address + zone.channel))
        else if st.network == NETWORK_ID_LOCAL_SERIAL then Serial(Wrap8(st.address + zone.channel))
        else if st.network == NETWORK_ID_XBEE || st.network == NETWORK_ID_MOTEINORF then
          Remote(zone.station, zone.channel)
        else NoRoute
  }

  /** Whether a command sent along `r` is reported as carried out. A remote command
      always is once its station is in use: the packet layer reports success whatever
      became of the packet. */
  predicate Accepts(c: Config, r: Route)
  {
    match r
    case NoRoute => false
    case Parallel(ch) => c.boards.parallelReady && ch <= c.boards.parallelChannels && Direct(c.boards.outputType)
    case Serial(ch) => c.boards.serialReady && ch < c.boards.serialChannels
    case Remote(st, _) => st < MAX_STATIONS && c.stations[st].valid && c.stations[st].enabled
  }

  predicate IsLocalStation(c: Config, st: nat)
  {
    st < MAX_STATIONS
    && (c.stations[st].network == NETWORK_ID_LOCAL_PARALLEL || c.stations[st].network == NETWORK_ID_LOCAL_SERIAL)
  }

  /** A zone wired to this unit, whether or not it is enabled now. */
  predicate IsLocalZone(c: Config, z: nat)
  {
    z < c.numZones && IsLocalStation(c, c.zones[z].station)
  }

  /** The zone table as the loader generates it: every enabled station owns the
      block of zones [startZone, startZone + channels), and every zone points back. */
  ghost predicate Tiled(c: Config)
  {
    && (forall z | 0 <= z < c.numZones ::
          var zone := c.zones[z];
          zone.station < MAX_STATIONS
          && zone.channel < c.stations[zone.station].channels
          && z == c.stations[zone.station].startZone + zone.channel)
    && (forall st | 0 <= st < MAX_STATIONS && c.stations[st].valid && c.stations[st].enabled ::
          c.stations[st].channels <= 8
          && forall i | 0 <= i < c.stations[st].channels :: Owns(c, st, i))
  }

  ghost predicate Owns(c: Config, st: nat, i: nat)
    requires st < MAX_STATIONS
  {
    var z := c.stations[st].startZone + i;
    z < c.numZones && c.zones[z].station == st && c.zones[z].channel == i
  }

  /** Index of the first non-zero entry of `d[from..to]`, or -1. */
  function FirstFrom(d: seq<u8>, from: nat, to: nat): (i: int)
    requires to <= |d|
    ensures i == -1 || from <= i < to
    ensures i >= 0 ==> d[i] != 0 && (forall k | from <= k < i :: d[k] == 0)
    ensures i == -1 ==> (forall k | from <= k < to :: d[k] == 0)
    decreases if from < to then to - from else 0
  {
    if from >= to then -1 else if d[from] != 0 then from else FirstFrom(d, from + 1, to)
  }
}
