/** The zone table that the configuration loader generates from the stations. */
module ZoneTable {
  import opened Words
  import opened Site
  import opened Memory
  import opened Settings

  const DEFAULT_FLOW: u16 := 100

  // ----- zones and channels, both ways -----

  /** Number of channels with zones, for each station. */
  type Counts = c: seq<nat> | |c| == MAX_STATIONS witness seq(16, _ => 0)

  /** Zones of the stations before `st`. */
  function Start(c: Counts, st: nat): nat
    requires st <= MAX_STATIONS
  {
    if st == 0 then 0 else Start(c, st - 1) + c[st - 1]
  }

  function Total(c: Counts): nat { Start(c, MAX_STATIONS) }

  lemma {:induction false} StartGrows(c: Counts, a: nat, b: nat)
    requires a < b <= MAX_STATIONS
    ensures Start(c, a) + c[a] <= Start(c, b)
  {
    if a < b - 1 { StartGrows(c, a, b - 1); }
  }

  /** The station and channel of zone `z`, searched from station `st` on. */
  function OwnerFrom(c: Counts, z: nat, st: nat): (o: (nat, nat))
    requires st <= MAX_STATIONS && Start(c, st) <= z < Total(c)
    ensures o.0 < MAX_STATIONS && o.1 < c[o.0] && Start(c, o.0) + o.1 == z
    decreases MAX_STATIONS - st
  {
    if z < Start(c, st) + c[st] then (st, z - Start(c, st)) else OwnerFrom(c, z, st + 1)
  }

  function Owner(c: Counts, z: nat): (o: (nat, nat))
    requires z < Total(c)
    ensures o.0 < MAX_STATIONS && o.1 < c[o.0] && Start(c, o.0) + o.1 == z
  {
    OwnerFrom(c, z, 0)
  }

  /** Zone numbers below the total and (station, channel) pairs are in one-to-one
      correspondence: Owner and Start + channel undo each other. */
  lemma OwnerIsInverse(c: Counts, st: nat, j: nat)
    requires st < MAX_STATIONS && j < c[st]
    ensures var z := Start(c, st) + j; z < Total(c) && Owner(c, z) == (st, j)
  {
    hide OwnerFrom, Start;
    StartGrows(c, st, MAX_STATIONS);
    var z := Start(c, st) + j;
    var (a, b) := Owner(c, z);
    if a < st { StartGrows(c, a, st); }
    if st < a { StartGrows(c, st, a); }
  }

  // ----- generation -----

  predicate InUse(s: FullStation) { Bit(s.flags, 0) && Bit(s.flags, 1) }

  function CountsOf(m: Mem): Counts
  {
    seq(MAX_STATIONS, st requires 0 <= st < MAX_STATIONS =>
      if InUse(StationAt(m, st)) then StationAt(m, st).channels as nat else 0)
  }

  /** The record of zone `z`: written if the save was let through by the zone count
      on record before, otherwise still the old one. */
  function Generated(m0: Mem, name: Name, z: nat, st: nat, j: nat): FullZone
    requires z < MAX_ZONES && st < 0x100 && j < 0x100
  {
    if z < NumZonesOf(m0) then FullZone(true, st, j, DEFAULT_FLOW, name) else ZoneAt(m0, z)
  }

  /** Station `st` points at its first zone, if it has one. */
  function Pointed(m0: Mem, st: nat): FullStation
    requires st < MAX_STATIONS && Total(CountsOf(m0)) <= MAX_ZONES
  {
    var c := CountsOf(m0);
    if c[st] == 0 then StationAt(m0, st)
    else
      StartGrows(c, st, MAX_STATIONS);
      StationAt(m0, st).(startZone := Start(c, st))
  }

  predicate IsTableSlot(s: Slot) { s.ZoneSlot? || s.StationSlot? || s == Setting(NumZones) }

  ghost predicate ZoneDone(m0: Mem, m: Mem, labels: seq<Name>, z: nat)
    requires |labels| == MAX_ZONES && z < Total(CountsOf(m0)) <= MAX_ZONES
  {
    var (st, j) := Owner(CountsOf(m0), z);
    j < 0x100 && ZoneAt(m, z) == Generated(m0, labels[z], z, st, j)
  }

  /** The zones before `z` are done, the others untouched; the stations before `st`
      are pointed, the others untouched; nothing else has changed. */
  ghost predicate Progress(m0: Mem, m: Mem, labels: seq<Name>, z: nat, st: nat)
    requires |labels| == MAX_ZONES && z <= Total(CountsOf(m0)) <= MAX_ZONES && st <= MAX_STATIONS
  {
    && NumZonesOf(m) == NumZonesOf(m0)
    && (forall y | 0 <= y < z :: ZoneDone(m0, m, labels, y))
    && (forall y | z <= y < MAX_ZONES :: ZoneAt(m, y) == ZoneAt(m0, y))
    && (forall a | 0 <= a < st :: StationAt(m, a) == Pointed(m0, a))
    && (forall a | st <= a < MAX_STATIONS :: StationAt(m, a) == StationAt(m0, a))
    && SameBut(m0, m, IsTableSlot)
  }

  lemma PointStep(m0: Mem, a: Mem, b: Mem, labels: seq<Name>, z: nat, st: nat)
    requires |labels| == MAX_ZONES && z <= Total(CountsOf(m0)) <= MAX_ZONES && st < MAX_STATIONS
    requires Progress(m0, a, labels, z, st)
    requires SameBut(a, b, (t: Slot) => t == StationSlot(st)) && StationAt(b, st) == Pointed(m0, st)
    ensures Progress(m0, b, labels, z, st + 1)
  {
    hide Read, UnpackZone, UnpackStation, CountsOf, Pointed, Generated, Owner;
    forall y | 0 <= y < z ensures ZoneDone(m0, b, labels, y) {
      assert ZoneDone(m0, a, labels, y);
    }
  }

  lemma ZoneStep(m0: Mem, a: Mem, b: Mem, labels: seq<Name>, z: nat, st: nat, j: nat)
    requires |labels| == MAX_ZONES && z < Total(CountsOf(m0)) <= MAX_ZONES && st < MAX_STATIONS
    requires Progress(m0, a, labels, z, st + 1) && Owner(CountsOf(m0), z) == (st, j) && j < 0x100
    requires var zone := FullZone(true, st, j, DEFAULT_FLOW, labels[z]);
             b == if z < NumZonesOf(a) then Write(a, ZoneSlot(z), PackZone(zone)) else a
    ensures Progress(m0, b, labels, z + 1, st + 1)
  {
    hide Read, Write, UnpackZone, UnpackStation, PackZone, CountsOf, Pointed, Owner;
    ZoneSaved(a, z, FullZone(true, st, j, DEFAULT_FLOW, labels[z]));
    forall y | 0 <= y <= z ensures ZoneDone(m0, b, labels, y) {
      if y < z { assert ZoneDone(m0, a, labels, y); }
    }
  }

  lemma SkipStep(m0: Mem, m: Mem, labels: seq<Name>, z: nat, st: nat)
    requires |labels| == MAX_ZONES && z <= Total(CountsOf(m0)) <= MAX_ZONES && st < MAX_STATIONS
    requires Progress(m0, m, labels, z, st) && CountsOf(m0)[st] == 0
    ensures Progress(m0, m, labels, z, st + 1)
  {
    hide Read, UnpackZone, UnpackStation, CountsOf, Generated, Owner;
  }

  method GenerateZones(store: Store, labels: seq<Name>)
    requires store.Valid() && |labels| == MAX_ZONES && Total(CountsOf(store.Mem())) <= MAX_ZONES
    modifies store.data
    ensures NumZonesOf(store.Mem()) == Total(CountsOf(old(store.Mem())))
    ensures forall st | 0 <= st < MAX_STATIONS :: StationAt(store.Mem(), st) == Pointed(old(store.Mem()), st)
    ensures forall z | 0 <= z < Total(CountsOf(old(store.Mem()))) :: ZoneDone(old(store.Mem()), store.Mem(), labels, z)
    ensures forall z | Total(CountsOf(old(store.Mem()))) <= z < MAX_ZONES ::
              ZoneAt(store.Mem(), z) == ZoneAt(old(store.Mem()), z)
    ensures SameBut(old(store.Mem()), store.Mem(), IsTableSlot)
  {
    hide Read, Write, UnpackStation, PackStation, UnpackZone, PackZone, Generated, Progress, CountsOf, Owner, ZoneDone;
    ghost var m0 := store.Mem();
    ghost var c := CountsOf(m0);
    var zoneIndex := 0;
    var st := 0;
    ProgressBegins(m0, labels);
    while st < MAX_STATIONS
      invariant 0 <= st <= MAX_STATIONS && zoneIndex == Start(c, st) <= Total(c)
      invariant Progress(m0, store.Mem(), labels, zoneIndex, st)
    {
      var bytes := store.LoadBlock(StationSlot(st));
      var station := UnpackStation(bytes);
      ghost var m := store.Mem();
      StationUntouched(m0, m, labels, zoneIndex, st);
      StartGrows(c, st, MAX_STATIONS);
      StartGrows(c, st, st + 1);
      if Bit(station.flags, 0) && Bit(station.flags, 1) && station.channels > 0 {
        station := station.(startZone := zoneIndex);
        store.SaveStation(st, station);
        StationSaved(m, st, station);
        PointStep(m0, m, store.Mem(), labels, zoneIndex, st);
        var j := 0;
        while j < station.channels
          invariant 0 <= j <= station.channels == c[st] && zoneIndex == Start(c, st) + j
          invariant Progress(m0, store.Mem(), labels, zoneIndex, st + 1)
        {
          m := store.Mem();
          store.SaveZone(zoneIndex, FullZone(true, st, j, DEFAULT_FLOW, labels[zoneIndex]));
          OwnerIsInverse(c, st, j);
          ZoneStep(m0, m, store.Mem(), labels, zoneIndex, st, j);
          zoneIndex := zoneIndex + 1;
          j := j + 1;
        }
      } else {
        SkipStep(m0, m, labels, zoneIndex, st);
      }
      st := st + 1;
    }
    ghost var m := store.Mem();
    store.SaveBlock(Setting(NumZones), [zoneIndex]);
    WriteReads(m, Setting(NumZones), [zoneIndex]);
    TableEnds(m0, m, store.Mem(), labels);
  }

  lemma ProgressBegins(m: Mem, labels: seq<Name>)
    requires |labels| == MAX_ZONES && Total(CountsOf(m)) <= MAX_ZONES
    ensures Progress(m, m, labels, 0, 0)
  {
    hide Read, UnpackZone, UnpackStation, CountsOf;
  }

  lemma StationUntouched(m0: Mem, m: Mem, labels: seq<Name>, z: nat, st: nat)
    requires |labels| == MAX_ZONES && z <= Total(CountsOf(m0)) <= MAX_ZONES && st < MAX_STATIONS
    requires Progress(m0, m, labels, z, st)
    ensures var s := StationAt(m, st);
            s == StationAt(m0, st) && CountsOf(m0)[st] == (if InUse(s) then s.channels as nat else 0)
            && (CountsOf(m0)[st] > 0 ==> Start(CountsOf(m0), st) < 0x100
                                         && Pointed(m0, st) == s.(startZone := Start(CountsOf(m0), st)))
  {
    hide Read, UnpackZone, UnpackStation, Owner;
    StartGrows(CountsOf(m0), st, MAX_STATIONS);
  }

  lemma TableEnds(m0: Mem, a: Mem, b: Mem, labels: seq<Name>)
    requires |labels| == MAX_ZONES && Total(CountsOf(m0)) <= MAX_ZONES
    requires Progress(m0, a, labels, Total(CountsOf(m0)), MAX_STATIONS)
    requires SameBut(a, b, (t: Slot) => t == Setting(NumZones))
    ensures forall st | 0 <= st < MAX_STATIONS :: StationAt(b, st) == Pointed(m0, st)
    ensures forall z | 0 <= z < Total(CountsOf(m0)) :: ZoneDone(m0, b, labels, z)
    ensures forall z | Total(CountsOf(m0)) <= z < MAX_ZONES :: ZoneAt(b, z) == ZoneAt(m0, z)
    ensures SameBut(m0, b, IsTableSlot)
  {
    hide Read, UnpackZone, UnpackStation, CountsOf, Pointed, Generated, Owner;
    forall z | 0 <= z < Total(CountsOf(m0)) ensures ZoneDone(m0, b, labels, z) {
      assert ZoneDone(m0, a, labels, z);
    }
  }

  // ----- what the scheduler sees -----

  function StationView(s: FullStation): Station
  {
    Station(Bit(s.flags, 0), Bit(s.flags, 1), Bit(s.flags, 2), Bit(s.flags, 3), s.network, s.channels,
            s.startZone, s.address)
  }

  /** The flag byte as the settings write it: valid 1, enabled 2, may report 4, may be
      controlled 8. */
  lemma FlagsSeen(s: FullStation, valid: bool, enabled: bool, rstatus: bool, rcontrol: bool, rest: nat)
    requires s.flags == (if valid then 1 else 0) + (if enabled then 2 else 0) + (if rstatus then 4 else 0)
                        + (if rcontrol then 8 else 0) + 16 * rest
    ensures StationView(s) == Station(valid, enabled, rstatus, rcontrol, s.network, s.channels, s.startZone, s.address)
    ensures InUse(s) <==> valid && enabled
  {
    var f3 := (if rcontrol then 1 else 0) + 2 * rest;
    var f2 := (if rstatus then 1 else 0) + 2 * f3;
    var f1 := (if enabled then 1 else 0) + 2 * f2;
    assert s.flags == (if valid then 1 else 0) + 2 * f1;
    assert s.flags / 2 == f1 && f1 / 2 == f2 && f2 / 2 == f3;
    assert Bit(s.flags, 0) == valid && Bit(f1, 0) == enabled && Bit(f2, 0) == rstatus && Bit(f3, 0) == rcontrol;
    assert Bit(s.flags, 1) == Bit(f1, 0);
    assert Bit(s.flags, 2) == Bit(f1, 1) == Bit(f2, 0);
    assert Bit(s.flags, 3) == Bit(f1, 2) == Bit(f2, 1) == Bit(f3, 0);
  }

  function ZoneView(z: FullZone): Zone { Zone(z.enabled, z.station, z.channel, z.flow) }

  function View(m: Mem, boards: Boards, seasonal: u8): Config
    requires NumZonesOf(m) <= MAX_ZONES
  {
    Config(NumZonesOf(m),
           seq(MAX_ZONES, z requires 0 <= z < MAX_ZONES => ZoneView(ZoneAt(m, z))),
           seq(MAX_STATIONS, st requires 0 <= st < MAX_STATIONS => StationView(StationAt(m, st))),
           boards, seasonal)
  }

  /** A zone or station that is saved is what the scheduler then sees under its number;
      nothing else changes for it. */
  lemma SavedZoneSeen(m: Mem, num: nat, z: FullZone, boards: Boards, seasonal: u8)
    requires num < NumZonesOf(m) <= MAX_ZONES
    ensures var r := Write(m, ZoneSlot(num), PackZone(z));
            NumZonesOf(r) == NumZonesOf(m) &&
            View(r, boards, seasonal) ==
              View(m, boards, seasonal).(zones := View(m, boards, seasonal).zones
                                                  [num := Zone(z.enabled, z.station, z.channel, z.flow)])
  {
    hide Read, Write, UnpackZone, PackZone, UnpackStation;
    var r := Write(m, ZoneSlot(num), PackZone(z));
    ZoneSaved(m, num, z);
    var a, b := View(m, boards, seasonal), View(r, boards, seasonal);
    assert forall st | 0 <= st < MAX_STATIONS :: StationAt(r, st) == StationAt(m, st);
    assert b.stations == a.stations;
    assert b.zones == a.zones[num := Zone(z.enabled, z.station, z.channel, z.flow)];
  }

  lemma SavedStationSeen(m: Mem, num: nat, st: FullStation, boards: Boards, seasonal: u8)
    requires num < MAX_STATIONS && NumZonesOf(m) <= MAX_ZONES
    ensures var r := Write(m, StationSlot(num), PackStation(st));
            NumZonesOf(r) == NumZonesOf(m) &&
            View(r, boards, seasonal) ==
              View(m, boards, seasonal).(stations := View(m, boards, seasonal).stations[num := StationView(st)])
  {
    hide Read, Write, UnpackZone, UnpackStation, PackStation, StationView;
    var r := Write(m, StationSlot(num), PackStation(st));
    StationSaved(m, num, st);
    var a, b := View(m, boards, seasonal), View(r, boards, seasonal);
    assert forall z | 0 <= z < MAX_ZONES :: ZoneAt(r, z) == ZoneAt(m, z);
    assert b.zones == a.zones;
    assert b.stations == a.stations[num := StationView(st)];
  }

  /** Zone `z` was left out by the save guard, and its old record names another owner. */
  predicate Stale(m0: Mem, z: nat)
    requires z < Total(CountsOf(m0)) <= MAX_ZONES
  {
    && z >= NumZonesOf(m0)
    && (ZoneAt(m0, z).station, ZoneAt(m0, z).channel) != Owner(CountsOf(m0), z)
  }

  /** Exactly when the generated table is the tiling the scheduler relies on: no
      record was left stale. In particular whenever the new zone count does not
      exceed the one on record before the load. */
  lemma TableTiles(m0: Mem, m: Mem, labels: seq<Name>, boards: Boards, seasonal: u8)
    requires |labels| == MAX_ZONES && Total(CountsOf(m0)) <= MAX_ZONES
    requires forall st | 0 <= st < MAX_STATIONS :: StationAt(m0, st).channels <= 8
    requires NumZonesOf(m) == Total(CountsOf(m0))
    requires forall st | 0 <= st < MAX_STATIONS :: StationAt(m, st) == Pointed(m0, st)
    requires forall z | 0 <= z < Total(CountsOf(m0)) :: ZoneDone(m0, m, labels, z)
    ensures Tiled(View(m, boards, seasonal)) <==>
            (forall z | 0 <= z < Total(CountsOf(m0)) :: !Stale(m0, z))
    ensures Total(CountsOf(m0)) <= NumZonesOf(m0) ==> Tiled(View(m, boards, seasonal))
  {
    hide Read, UnpackZone, UnpackStation, Owner, Start, Stale;
    var c := CountsOf(m0);
    var v := View(m, boards, seasonal);
    forall z | 0 <= z < Total(c)
      ensures !Stale(m0, z) <==> ZoneRight(m0, m, z)
      ensures v.zones[z] == ZoneView(ZoneAt(m, z))
    {
      ZoneIsRight(m0, m, labels, z);
    }
    forall st | 0 <= st < MAX_STATIONS
      ensures v.stations[st].valid && v.stations[st].enabled ==>
                v.stations[st].channels == c[st] && (c[st] > 0 ==> v.stations[st].startZone == Start(c, st))
      ensures c[st] > 0 ==> v.stations[st].valid && v.stations[st].enabled && v.stations[st].channels <= 8
    {
      assert v.stations[st] == StationView(Pointed(m0, st));
    }
    if Tiled(v) {
      forall z | 0 <= z < Total(c) ensures !Stale(m0, z) {
        var (st, j) := Owner(c, z);
        assert Owns(v, st, j);
      }
    }
    if forall z | 0 <= z < Total(c) :: !Stale(m0, z) {
      forall st, i | 0 <= st < MAX_STATIONS && v.stations[st].valid && v.stations[st].enabled
                     && 0 <= i < v.stations[st].channels
        ensures Owns(v, st, i)
      {
        OwnerIsInverse(c, st, i);
        assert !Stale(m0, Start(c, st) + i);
      }
      assert Tiled(v);
    }
    forall z | 0 <= z < Total(c) && Total(c) <= NumZonesOf(m0) ensures !Stale(m0, z) {
      ZoneIsRight(m0, m, labels, z);
    }
  }

  /** The record of zone `z` names its owner. */
  predicate ZoneRight(m0: Mem, m: Mem, z: nat)
    requires z < Total(CountsOf(m0)) <= MAX_ZONES
  {
    (ZoneAt(m, z).station, ZoneAt(m, z).channel) == Owner(CountsOf(m0), z)
  }

  lemma ZoneIsRight(m0: Mem, m: Mem, labels: seq<Name>, z: nat)
    requires |labels| == MAX_ZONES && z < Total(CountsOf(m0)) <= MAX_ZONES && ZoneDone(m0, m, labels, z)
    ensures ZoneRight(m0, m, z) <==> !Stale(m0, z)
    ensures z < NumZonesOf(m0) ==> !Stale(m0, z)
  {
    hide Read, UnpackZone, CountsOf, Owner;
  }
}
