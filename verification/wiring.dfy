/** Which output a zone is wired to: zones and board channels, without routes. */
module Wiring {
  import opened Words
  import opened Site
  import opened Scheduler
  import opened SchedulerInvariant
  import opened Undisturbed
  import opened Timetable
  import opened ZoneProtocol
  import opened Runs
  import opened QuietRuns
  import SerialBoard

  /** Station `st` is one of this unit, in use. */
  predicate Wired(c: Config, st: nat)
  {
    IsLocalStation(c, st) && c.stations[st].valid && c.stations[st].enabled
  }

  /** Channel `i` of a station: its number on the board is the station's address plus
      `i`, in one byte. */
  function ChannelNumber(st: Station, i: nat): u8 { (st.address + i) % 0x100 }

  /** Channel `n` of the board that network number 0 or 1 names. */
  function BoardChannel(network: u8, n: u8): Route
  {
    if network == 0 then Parallel(n) else Serial(n)
  }

  /** The board of the station carries out commands for its channel `i`. The check of
      the parallel board lets one channel too many through. */
  predicate Obeys(c: Config, st: Station, i: nat)
  {
    var n := ChannelNumber(st, i);
    if st.network == 0 then
      c.boards.parallelReady && n <= c.boards.parallelChannels && (c.boards.outputType == 1 || c.boards.outputType == 2)
    else c.boards.serialReady && n < c.boards.serialChannels
  }

  /** The zone of channel `i`. */
  function ZoneOf(st: Station, i: nat): nat { st.startZone + i }

  function LocalZone(c: Config, st: nat, i: nat): (z: nat)
    requires Tiled(c) && Wired(c, st) && i < c.stations[st].channels
    ensures z == ZoneOf(c.stations[st], i) < c.numZones
  {
    assert Owns(c, st, i);
    c.stations[st].startZone + i
  }

  lemma LocalRoute(c: Config, st: nat, i: nat)
    requires Tiled(c) && Wired(c, st) && i < c.stations[st].channels
    ensures var s := c.stations[st];
            var z := ZoneOf(s, i);
            && z < c.numZones && IsLocalZone(c, z)
            && (c.zones[z].enabled ==>
                  RouteOf(c, z) == BoardChannel(s.network, ChannelNumber(s, i))
                  && (Accepts(c, RouteOf(c, z)) <==> Obeys(c, s, i)))
            && (!c.zones[z].enabled ==> RouteOf(c, z) == NoRoute)
  {
    assert Owns(c, st, i);
  }

  /** Opening and closing the zone of channel `i` of a local station switches exactly the
      board channel at the station's address plus `i`, if zone and board let it. */
  lemma SwitchesItsChannel(s: State, st: nat, i: nat, mins: u8, now: Moment)
    requires Tiled(s.cfg) && Wired(s.cfg, st) && i < s.cfg.stations[st].channels
    ensures ZoneOf(s.cfg.stations[st], i) < s.cfg.numZones
    ensures var x := s.cfg.stations[st];
            var z := ZoneOf(x, i);
            var out := BoardChannel(x.network, ChannelNumber(x, i));
            var works := s.cfg.zones[z].enabled && Obeys(s.cfg, x, i);
            && TurnOn(s, z, mins, now).outputs == s.outputs + (if works then {out} else {})
            && TurnOff(s, z, now).outputs == s.outputs - (if works then {out} else {})
            && TurnOn(s, z, mins, now).log == s.log + (if works then [On(z, out, mins, now.ms)] else [])
            && TurnOff(s, z, now).log == s.log + (if works then [Off(z, out, now.ms)] else [])
            && TurnOn(s, z, mins, now).cache == (if works then s.cache[z := ZONE_STATE_RUNNING] else s.cache)
            && TurnOff(s, z, now).cache ==
                 (if s.cfg.zones[z].enabled then s.cache[z := ZONE_STATE_OFF] else s.cache)
  {
    assert !Accepts(s.cfg, NoRoute) && s.log + [] == s.log;
    hide Obeys, ChannelNumber, Tiled, RouteOf, Accepts;
    LocalRoute(s.cfg, st, i);
  }

  /** A zone of a station reached by radio has its commands sent to that station and
      channel, if zone and station are in use; they touch no output of this unit. */
  lemma SendsToItsChannel(s: State, z: nat, mins: u8, now: Moment)
    requires z < s.cfg.numZones && s.cfg.zones[z].station < MAX_STATIONS
    requires var n := s.cfg.stations[s.cfg.zones[z].station].network; n == 10 || n == 11
    ensures var zone := s.cfg.zones[z];
            var st := s.cfg.stations[zone.station];
            var out := Remote(zone.station, zone.channel);
            var works := zone.enabled && st.enabled && st.valid;
            && TurnOn(s, z, mins, now).log == s.log + (if works then [On(z, out, mins, now.ms)] else [])
            && TurnOff(s, z, now).log == s.log + (if works then [Off(z, out, now.ms)] else [])
            && TurnOn(s, z, mins, now).outputs == s.outputs
            && (forall o: Route | o.Local() :: o in TurnOff(s, z, now).outputs <==> o in s.outputs)
            && (works ==> ShowsOn(TurnOn(s, z, mins, now), z) && !ShowsOn(TurnOff(s, z, now), z))
            && (!works ==> TurnOn(s, z, mins, now) == s == TurnOff(s, z, now))
  {}

  /** Nothing happens to a zone that is switched off or does not exist, whose station is
      disabled, or whose network is none of the four. */
  lemma NoWayNoEffect(s: State, z: nat, mins: u8, now: Moment)
    requires z < MAX_ZONES
    requires z >= s.cfg.numZones || !s.cfg.zones[z].enabled || s.cfg.zones[z].station >= MAX_STATIONS
             || (var st := s.cfg.stations[s.cfg.zones[z].station]; !st.enabled || st.network !in {0, 1, 10, 11})
    ensures TurnOn(s, z, mins, now) == s == TurnOff(s, z, now)
  {}

  /** Two zones share an output or a remote channel exactly if they belong to different
      stations of one local board whose channel numbers coincide. */
  lemma SharedOutput(c: Config, y: nat, z: nat)
    requires Tiled(c) && y < c.numZones && z < c.numZones && y != z
    requires RouteOf(c, y) != NoRoute && RouteOf(c, z) != NoRoute
    ensures var a, b := c.zones[y].station, c.zones[z].station;
            RouteOf(c, y) == RouteOf(c, z) <==>
            && a != b && IsLocalStation(c, a) && IsLocalStation(c, b) && c.stations[a].network == c.stations[b].network
            && ChannelNumber(c.stations[a], c.zones[y].channel) == ChannelNumber(c.stations[b], c.zones[z].channel)
  {
    var a, b := c.zones[y].station, c.zones[z].station;
    if a == b {
      assert c.zones[y].channel != c.zones[z].channel;
      NumbersApart(c.stations[a], c.zones[y].channel, c.zones[z].channel);
    }
  }

  /** Channels of one station never share a number. */
  lemma NumbersApart(st: Station, i: nat, j: nat)
    requires i < j < i + 0x100 || j < i < j + 0x100
    ensures ChannelNumber(st, i) != ChannelNumber(st, j)
  {
    var a, b := st.address + i, st.address + j;
    assert a == 0x100 * (a / 0x100) + a % 0x100 && b == 0x100 * (b / 0x100) + b % 0x100;
  }

  /** A request to start channel `ch` of a local station under remote control opens the
      channel at the station's address plus `ch`, if zone and board let it, and leaves
      every other output of the unit closed. */
  lemma RequestOpens(s: State, st: u8, ch: u8, ttr: u8, now: Moment)
    requires Inv(s) && Tiled(s.cfg) && s.running && Wired(s.cfg, st) && s.cfg.stations[st].rcontrol
    requires ch < s.cfg.stations[st].channels && 1 <= ttr <= 254
    ensures ZoneOf(s.cfg.stations[st], ch) < s.cfg.numZones
    ensures var x := s.cfg.stations[st];
            Step(s, ZonesSetFrame(ForceSingleZone(st, ch, ttr)), now).outputs ==
            if s.cfg.zones[ZoneOf(x, ch)].enabled && Obeys(s.cfg, x, ch)
            then {BoardChannel(x.network, ChannelNumber(x, ch))} else {}
  {
    hide Obeys, ChannelNumber, HandleSet, AnswerSet, RouteOf, Accepts;
    OneChannelRequest(s, st, ch, ttr, now);
    LocalRoute(s.cfg, st, ch);
  }

  // ----- a schedule over one station -----

  /** Where the opening commands of a log went, in order. */
  function Openings(es: seq<Event>): seq<Route>
  {
    if es == [] then [] else (if es[0].On? then [es[0].route] else []) + Openings(es[1..])
  }

  function Closings(es: seq<Event>): seq<Route>
  {
    if es == [] then [] else (if es[0].Off? then [es[0].route] else []) + Closings(es[1..])
  }

  function Routes(c: Config, zs: seq<nat>): seq<Route>
  {
    seq(|zs|, k requires 0 <= k < |zs| => RouteOf(c, zs[k]))
  }

  lemma {:induction false} RoutesRead(pl: Plan, seen: seq<Moment>, r: Summary, es: seq<Event>)
    requires |pl.d| == MAX_ZONES && forall e | e in es :: Planned(pl, seen, e)
    ensures Routes(pl.cfg, Read(r, es).ons) == Routes(pl.cfg, r.ons) + Openings(es)
    ensures Routes(pl.cfg, Read(r, es).offs) == Routes(pl.cfg, r.offs) + Closings(es)
    decreases |es|
  {
    hide RouteOf, Planned, Note, Routes;
    if es == [] {
      assert Routes(pl.cfg, r.ons) + [] == Routes(pl.cfg, r.ons);
      assert Routes(pl.cfg, r.offs) + [] == Routes(pl.cfg, r.offs);
    } else {
      RoutesRead(pl, seen, Note(r, es[0]), es[1..]);
      RoutesNoted(pl, seen, r, es[0]);
      Regroup(Routes(pl.cfg, r.ons), if es[0].On? then [es[0].route] else [], Openings(es[1..]));
      Regroup(Routes(pl.cfg, r.offs), if es[0].Off? then [es[0].route] else [], Closings(es[1..]));
    }
  }

  lemma Regroup(a: seq<Route>, b: seq<Route>, c: seq<Route>)
    ensures a + b + c == a + (b + c)
  {}

  lemma RoutesNoted(pl: Plan, seen: seq<Moment>, r: Summary, e: Event)
    requires |pl.d| == MAX_ZONES && Planned(pl, seen, e)
    ensures Routes(pl.cfg, Note(r, e).ons) == Routes(pl.cfg, r.ons) + (if e.On? then [e.route] else [])
    ensures Routes(pl.cfg, Note(r, e).offs) == Routes(pl.cfg, r.offs) + (if e.Off? then [e.route] else [])
  {
    hide RouteOf, PlanMinutes, Paced;
  }

  /** Zones `from` to `to`, `to` not included. */
  function Range(from: nat, to: nat): seq<nat>
    requires from <= to
  {
    seq(to - from, k requires 0 <= k < to - from => from + k)
  }

  lemma {:induction false} WateredRange(pl: Plan, a: nat, b: nat, z: nat)
    requires |pl.d| == MAX_ZONES && z <= pl.cfg.numZones && a <= b <= pl.cfg.numZones
    requires forall y | z <= y < pl.cfg.numZones :: pl.d[y] != 0 <==> a <= y < b
    requires forall y | a <= y < b :: Accepts(pl.cfg, RouteOf(pl.cfg, y))
    ensures Watered(pl, z) == if z <= a then Range(a, b) else if z <= b then Range(z, b) else []
    decreases pl.cfg.numZones - z
  {
    hide RouteOf, Accepts, Own, Watered, Range;
    EmptyRange(b);
    if z < pl.cfg.numZones {
      WateredOne(pl, z);
      WateredRange(pl, a, b, z + 1);
      if a <= z < b { RangeGrows(z, b); }
    } else {
      NoneWatered(pl, z);
    }
  }

  lemma WateredOne(pl: Plan, z: nat)
    requires |pl.d| == MAX_ZONES && z < pl.cfg.numZones
    ensures pl.d[z] == 0 ==> Watered(pl, z) == Watered(pl, z + 1)
    ensures pl.d[z] != 0 && Accepts(pl.cfg, RouteOf(pl.cfg, z)) ==> Watered(pl, z) == [z] + Watered(pl, z + 1)
  {
    hide RouteOf, Accepts;
    assert [] + Watered(pl, z + 1) == Watered(pl, z + 1);
  }

  lemma NoneWatered(pl: Plan, z: nat)
    requires |pl.d| == MAX_ZONES && z >= pl.cfg.numZones
    ensures Watered(pl, z) == []
  {}

  lemma RangeGrows(z: nat, b: nat)
    requires z < b
    ensures Range(z, b) == [z] + Range(z + 1, b)
  {}

  lemma EmptyRange(b: nat)
    ensures Range(b, b) == []
  {}

  /** The channels of station `st`, from its address on. */
  function ChannelsOf(st: Station): seq<Route>
  {
    seq(st.channels, i requires 0 <= i < st.channels => BoardChannel(st.network, ChannelNumber(st, i)))
  }

  /** Schedule durations `d` water exactly the zones of station `st`. */
  predicate Waters(c: Config, d: seq<u8>, st: nat)
    requires st < MAX_STATIONS && |d| == MAX_ZONES
  {
    forall z | 0 <= z < c.numZones :: d[z] != 0 <==> c.zones[z].station == st
  }

  lemma StationBlock(c: Config, st: nat)
    requires Tiled(c) && Wired(c, st) && c.stations[st].channels > 0
    requires forall z | 0 <= z < c.numZones && c.zones[z].station == st :: c.zones[z].enabled
    requires forall i | 0 <= i < c.stations[st].channels :: Obeys(c, c.stations[st], i)
    ensures var a := c.stations[st].startZone;
            var b := a + c.stations[st].channels;
            && b <= c.numZones
            && (forall z | 0 <= z < c.numZones :: c.zones[z].station == st <==> a <= z < b)
            && (forall z | a <= z < b :: Accepts(c, RouteOf(c, z)))
            && Routes(c, Range(a, b)) == ChannelsOf(c.stations[st])
  {
    hide RouteOf, Accepts, Obeys, ChannelNumber, Tiled;
    var x := c.stations[st];
    var a := x.startZone;
    StationZone(c, st, a + x.channels - 1);
    forall z | a <= z < a + x.channels
      ensures z < c.numZones && c.zones[z].station == st && Accepts(c, RouteOf(c, z))
      ensures RouteOf(c, z) == BoardChannel(x.network, ChannelNumber(x, z - a))
    {
      StationZone(c, st, z);
    }
    forall z | 0 <= z < c.numZones && c.zones[z].station == st ensures a <= z < a + x.channels {
      InBlock(c, z);
    }
    assert Routes(c, Range(a, a + x.channels)) == ChannelsOf(x);
  }

  lemma InBlock(c: Config, z: nat)
    requires Tiled(c) && z < c.numZones
    ensures c.zones[z].station < MAX_STATIONS
    ensures var st := c.stations[c.zones[z].station]; st.startZone <= z < st.startZone + st.channels
  {}

  lemma StationZone(c: Config, st: nat, z: nat)
    requires Tiled(c) && Wired(c, st)
    requires c.stations[st].startZone <= z < c.stations[st].startZone + c.stations[st].channels
    requires forall y | 0 <= y < c.numZones && c.zones[y].station == st :: c.zones[y].enabled
    requires forall i | 0 <= i < c.stations[st].channels :: Obeys(c, c.stations[st], i)
    ensures z < c.numZones && c.zones[z].station == st && Accepts(c, RouteOf(c, z))
    ensures var x := c.stations[st]; RouteOf(c, z) == BoardChannel(x.network, ChannelNumber(x, z - x.startZone))
  {
    hide RouteOf, Accepts, Obeys, ChannelNumber;
    assert Owns(c, st, z - c.stations[st].startZone);
    LocalRoute(c, st, z - c.stations[st].startZone);
  }

  /** A stored schedule over all zones of one local station, run to its end, energises
      and de-energises each channel of the station once, in order: channel address,
      address + 1, and so on, of the board that its network number names. */
  lemma StationSchedule(s: State, id: u8, st: nat, now: Moment, xs: seq<Timed>)
    requires Inv(s) && Tiled(s.cfg) && s.running && id < MAX_SCHEDULES && s.table[id].enabled
    requires Wired(s.cfg, st) && s.cfg.stations[st].channels > 0 && Waters(s.cfg, s.table[id].duration, st)
    requires forall z | 0 <= z < s.cfg.numZones && s.cfg.zones[z].station == st :: s.cfg.zones[z].enabled
    requires forall i | 0 <= i < s.cfg.stations[st].channels :: Obeys(s.cfg, s.cfg.stations[st], i)
    requires AllQuiet(xs) && Steady(now.ms, Polls(xs), MAX_GAP)
    requires RunUntilIdle(StartStored(s, id, now), xs).schedule == NO_SCHEDULE
    ensures var before := Stop(s, now).log;
            var log := RunUntilIdle(StartStored(s, id, now), xs).log;
            && before <= log
            && Openings(log[|before|..]) == ChannelsOf(s.cfg.stations[st]) == Closings(log[|before|..])
  {
    hide RunUntilIdle, StartStored, Stop, Obeys, RouteOf, Accepts, Inv, Tiled, ChannelsOf, Read, Planned, Prompt,
         Recorded, Polls, Openings, Closings;
    var d := s.table[id].duration;
    var a := s.cfg.stations[st].startZone;
    StationBlock(s.cfg, st);
    assert d[a] != 0;
    var pl := Plan(s.cfg, id, d, s.table[id].wadj, now.Millis());
    StoredRun(s, id, now, xs);
    var before := Stop(s, now).log;
    var added := RunUntilIdle(StartStored(s, id, now), xs).log[|before|..];
    RoutesRead(pl, [now] + Polls(xs), EMPTY, added);
    WateredRange(pl, a, a + s.cfg.stations[st].channels, 0);
    assert [] + Watered(pl, 0) == Watered(pl, 0);
    assert Routes(s.cfg, []) == [];
    assert [] + Openings(added) == Openings(added) && [] + Closings(added) == Closings(added);
  }

  // ----- the serial board -----

  /** The channels on at the serial board are the serial outputs of the state. */
  ghost predicate Mirrors(b: SerialBoard.LocalBoardSerial, s: State)
    reads b, b.outState
  {
    && b.Valid() && b.ready == s.cfg.boards.serialReady && b.numChannels == s.cfg.boards.serialChannels
    && forall n: u8 :: Serial(n) in s.outputs <==> n as nat in b.Channels()
  }

  /** Opening a zone of a serial station drives the board; with the pins showing what
      the board records, the valve's pin follows. */
  method DriveOn(b: SerialBoard.LocalBoardSerial, s: State, st: nat, i: nat, mins: u8, now: Moment)
    requires Mirrors(b, s) && Tiled(s.cfg) && Wired(s.cfg, st) && i < s.cfg.stations[st].channels
    requires s.cfg.stations[st].network == 1 && s.cfg.zones[LocalZone(s.cfg, st, i)].enabled
    modifies b, b.outState
    ensures Mirrors(b, TurnOn(s, LocalZone(s.cfg, st, i), mins, now))
  {
    hide Tiled, RouteOf, Accepts;
    SwitchesItsChannel(s, st, i, mins, now);
    var ok := b.ChannelOn(ChannelNumber(s.cfg.stations[st], i));
  }

  method DriveOff(b: SerialBoard.LocalBoardSerial, s: State, st: nat, i: nat, now: Moment)
    requires Mirrors(b, s) && Tiled(s.cfg) && Wired(s.cfg, st) && i < s.cfg.stations[st].channels
    requires s.cfg.stations[st].network == 1 && s.cfg.zones[LocalZone(s.cfg, st, i)].enabled
    modifies b, b.outState
    ensures Mirrors(b, TurnOff(s, LocalZone(s.cfg, st, i), now))
  {
    hide Tiled, RouteOf, Accepts;
    SwitchesItsChannel(s, st, i, 0, now);
    var ok := b.ChannelOff(ChannelNumber(s.cfg.stations[st], i));
  }
}
