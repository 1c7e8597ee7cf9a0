/** The settings store: records saved and loaded byte by byte, and the list of
    stored schedules. */
module Settings {
  import opened Words
  import opened Site
  import opened Memory

  function NumZonesOf(m: Mem): u8 { Read(m, Setting(NumZones))[0] }

  function NumSchedulesOf(m: Mem): u8 { Read(m, Setting(ScheduleCount))[0] }

  function ScheduleAt(m: Mem, i: nat): FullSchedule
    requires i < MAX_SCHEDULES
  {
    UnpackSchedule(Read(m, ScheduleSlot(i)))
  }

  function StationAt(m: Mem, st: nat): FullStation
    requires st < MAX_STATIONS
  {
    UnpackStation(Read(m, StationSlot(st)))
  }

  function ZoneAt(m: Mem, z: nat): FullZone
    requires z < MAX_ZONES
  {
    UnpackZone(Read(m, ZoneSlot(z)))
  }

  /** What loading a zone gives: nothing for numbers at or above the zone count. */
  datatype Loaded = Refused | Got(zone: FullZone)

  function ZoneLoaded(m: Mem, z: nat): Loaded
    requires z < MAX_ZONES
  {
    if z < NumZonesOf(m) then Got(ZoneAt(m, z)) else Refused
  }

  /** The stored schedules, in order. */
  function Stored(m: Mem): seq<FullSchedule>
    requires NumSchedulesOf(m) <= MAX_SCHEDULES
  {
    seq(NumSchedulesOf(m), i requires 0 <= i < NumSchedulesOf(m) => ScheduleAt(m, i))
  }

  /** Same bytes in every slot for which `touched` does not hold. */
  ghost predicate SameBut(a: Mem, b: Mem, touched: Slot -> bool)
  {
    forall t | InRange(t) && !touched(t) :: Read(b, t) == Read(a, t)
  }

  class Store {
    const data: array<u8>

    ghost predicate Valid() reads this { data.Length == SIZE }

    ghost function Mem(): Memory.Mem
      requires Valid()
      reads this, data
    {
      data[..]
    }

    // ----- blocks -----

    method SaveBlock(s: Slot, b: seq<u8>)
      requires Valid() && InRange(s) && |b| == Length(s)
      modifies data
      ensures Mem() == Write(old(Mem()), s, b)
    {
      SlotFits(s);
      var i := 0;
      while i < |b|
        invariant 0 <= i <= |b|
        invariant forall k | 0 <= k < SIZE ::
                    data[k] == if Base(s) <= k < Base(s) + i then b[k - Base(s)] else old(data[k])
      {
        data[Base(s) + i] := b[i];
        i := i + 1;
      }
    }

    method LoadBlock(s: Slot) returns (b: seq<u8>)
      requires Valid() && InRange(s)
      ensures b == Read(Mem(), s)
    {
      SlotFits(s);
      b := [];
      var i := 0;
      while i < Length(s)
        invariant 0 <= i <= Length(s)
        invariant b == data[Base(s)..Base(s) + i]
      {
        b := b + [data[Base(s) + i]];
        i := i + 1;
      }
    }

    // ----- records -----

    /** Refused, without a sign, for numbers at or above the zone count on record. */
    method SaveZone(num: nat, z: FullZone)
      requires Valid() && num < MAX_ZONES
      modifies data
      ensures Mem() ==
              if num < NumZonesOf(old(Mem())) then Write(old(Mem()), ZoneSlot(num), PackZone(z)) else old(Mem())
    {
      var n := LoadBlock(Setting(NumZones));
      if num >= n[0] { return; }
      SaveBlock(ZoneSlot(num), PackZone(z));
    }

    method LoadZone(num: nat) returns (z: Loaded)
      requires Valid() && num < MAX_ZONES
      ensures z == ZoneLoaded(Mem(), num)
    {
      var n := LoadBlock(Setting(NumZones));
      if num >= n[0] { return Refused; }
      var b := LoadBlock(ZoneSlot(num));
      return Got(UnpackZone(b));
    }

    method SaveStation(num: nat, st: FullStation)
      requires Valid()
      modifies data
      ensures Mem() == if num < MAX_STATIONS then Write(old(Mem()), StationSlot(num), PackStation(st)) else old(Mem())
    {
      if num >= MAX_STATIONS { return; }
      SaveBlock(StationSlot(num), PackStation(st));
    }

    method SaveSensor(num: nat, se: FullSensor)
      requires Valid()
      modifies data
      ensures Mem() == if num < MAX_SENSORS then Write(old(Mem()), SensorSlot(num), PackSensor(se)) else old(Mem())
    {
      if num >= MAX_SENSORS { return; }
      SaveBlock(SensorSlot(num), PackSensor(se));
    }

    method SaveSchedule(num: nat, sc: FullSchedule)
      requires Valid() && ScheduleShape(sc)
      modifies data
      ensures Mem() ==
              if num < MAX_SCHEDULES then Write(old(Mem()), ScheduleSlot(num), PackSchedule(sc)) else old(Mem())
    {
      if num >= MAX_SCHEDULES { return; }
      SaveBlock(ScheduleSlot(num), PackSchedule(sc));
    }

    // ----- the schedule list -----

    /** Removes entry `k`; the entries after it move up. Everything else stays. */
    method DeleteSchedule(k: int) returns (ok: bool)
      requires Valid() && NumSchedulesOf(Mem()) <= MAX_SCHEDULES
      modifies data
      ensures ok <==> 0 <= k < NumSchedulesOf(old(Mem()))
      ensures !ok ==> Mem() == old(Mem())
      ensures ok ==> NumSchedulesOf(Mem()) <= MAX_SCHEDULES
                     && Stored(Mem()) == Stored(old(Mem()))[..k] + Stored(old(Mem()))[k + 1..]
      ensures SameBut(old(Mem()), Mem(), (t: Slot) => t.ScheduleSlot? || t == Setting(ScheduleCount))
    {
      hide Read, Write, UnpackSchedule, MovedUp;
      var c := LoadBlock(Setting(ScheduleCount));
      var n := c[0];
      if k < 0 || k >= n { return false; }
      ghost var m0 := Mem();
      MoveBegins(m0, k);
      var i := k;
      while i < n - 1
        invariant k <= i <= n - 1
        invariant MovedUp(m0, Mem(), k, i)
      {
        var b := LoadBlock(ScheduleSlot(i + 1));
        ghost var m := Mem();
        SaveBlock(ScheduleSlot(i), b);
        MoveStep(m0, m, k, i);
        i := i + 1;
      }
      ghost var m1 := Mem();
      SaveBlock(Setting(ScheduleCount), [n - 1]);
      WriteReads(m1, Setting(ScheduleCount), [n - 1]);
      StoredAfterDelete(m0, m1, Mem(), k, n);
      return true;
    }

    /** The end of the web request that stores a schedule: number -1 appends, any
        other number must be one on record. */
    method StoreSchedule(k: int, sc: FullSchedule) returns (ok: bool)
      requires Valid() && NumSchedulesOf(Mem()) <= MAX_SCHEDULES && ScheduleShape(sc)
      modifies data
      ensures var n := NumSchedulesOf(old(Mem()));
              ok <==> (if k == -1 then n < MAX_SCHEDULES else 0 <= k < n)
      ensures !ok ==> Mem() == old(Mem())
      ensures ok ==> NumSchedulesOf(Mem()) <= MAX_SCHEDULES
                     && Stored(Mem()) == if k == -1 then Stored(old(Mem())) + [sc] else Stored(old(Mem()))[k := sc]
      ensures SameBut(old(Mem()), Mem(), (t: Slot) => t.ScheduleSlot? || t == Setting(ScheduleCount))
    {
      hide Read, Write, UnpackSchedule, PackSchedule;
      var c := LoadBlock(Setting(ScheduleCount));
      var n := c[0];
      var num := k;
      ghost var m0 := Mem();
      if num == -1 {
        if n == MAX_SCHEDULES { return false; }
        num, n := n, n + 1;
        SaveBlock(Setting(ScheduleCount), [n]);
        WriteReads(m0, Setting(ScheduleCount), [n]);
      }
      if num < 0 || num >= n { return false; }
      ghost var m1 := Mem();
      SaveSchedule(num, sc);
      WriteReads(m1, ScheduleSlot(num), PackSchedule(sc));
      ScheduleRoundTrip(sc);
      assert ScheduleAt(Mem(), num) == sc;
      assert NumSchedulesOf(Mem()) == n;
      assert Stored(Mem()) == if k == -1 then Stored(m0) + [sc] else Stored(m0)[k := sc];
      return true;
    }
  }

  /** Entries from `k` up to `i` hold their successors, all else is as before. */
  ghost predicate MovedUp(a: Mem, b: Mem, k: nat, i: nat)
  {
    && (forall j | 0 <= j < MAX_SCHEDULES - 1 ::
          Read(b, ScheduleSlot(j)) == Read(a, ScheduleSlot(if k <= j < i then j + 1 else j)))
    && Read(b, ScheduleSlot(MAX_SCHEDULES - 1)) == Read(a, ScheduleSlot(MAX_SCHEDULES - 1))
    && SameBut(a, b, (t: Slot) => t.ScheduleSlot?)
  }

  lemma MoveBegins(a: Mem, k: nat)
    ensures MovedUp(a, a, k, k)
  {
    hide Read;
  }

  lemma MoveStep(a: Mem, m: Mem, k: nat, i: nat)
    requires k <= i < MAX_SCHEDULES - 1 && MovedUp(a, m, k, i)
    ensures MovedUp(a, Write(m, ScheduleSlot(i), Read(m, ScheduleSlot(i + 1))), k, i + 1)
  {
    hide Read, Write;
    WriteReads(m, ScheduleSlot(i), Read(m, ScheduleSlot(i + 1)));
  }

  lemma StoredAfterDelete(a: Mem, m: Mem, b: Mem, k: nat, n: nat)
    requires NumSchedulesOf(a) == n <= MAX_SCHEDULES && k < n && NumSchedulesOf(b) == n - 1
    requires MovedUp(a, m, k, n - 1) && SameBut(m, b, (t: Slot) => t == Setting(ScheduleCount))
    ensures Stored(b) == Stored(a)[..k] + Stored(a)[k + 1..]
    ensures SameBut(a, b, (t: Slot) => t.ScheduleSlot? || t == Setting(ScheduleCount))
  {
    hide Read, UnpackSchedule;
    forall j | 0 <= j < n - 1 ensures ScheduleAt(b, j) == ScheduleAt(a, if k <= j then j + 1 else j) {}
  }

  /** Save, then load: the record comes back exactly when the save was not refused,
      and no other record or setting has changed. */
  lemma ZoneSaved(m: Mem, num: nat, z: FullZone)
    requires num < MAX_ZONES
    ensures var r := if num < NumZonesOf(m) then Write(m, ZoneSlot(num), PackZone(z)) else m;
            && (ZoneLoaded(r, num) == Got(z) <==> num < NumZonesOf(m))
            && SameBut(m, r, (t: Slot) => t == ZoneSlot(num))
  {
    hide Read, Write, UnpackZone, PackZone;
    WriteReads(m, ZoneSlot(num), PackZone(z));
    ZoneRoundTrip(z);
    assert NumZonesOf(Write(m, ZoneSlot(num), PackZone(z))) == NumZonesOf(m);
  }

  lemma StationSaved(m: Mem, num: nat, st: FullStation)
    requires num < MAX_STATIONS
    ensures var r := Write(m, StationSlot(num), PackStation(st));
            StationAt(r, num) == st && SameBut(m, r, (t: Slot) => t == StationSlot(num))
  {
    hide Read, Write, UnpackStation, PackStation;
    WriteReads(m, StationSlot(num), PackStation(st));
    StationRoundTrip(st);
  }

  lemma SensorSaved(m: Mem, num: nat, se: FullSensor)
    requires num < MAX_SENSORS
    ensures var r := Write(m, SensorSlot(num), PackSensor(se));
            UnpackSensor(Read(r, SensorSlot(num))) == se && SameBut(m, r, (t: Slot) => t == SensorSlot(num))
  {
    WriteReads(m, SensorSlot(num), PackSensor(se));
    SensorRoundTrip(se);
  }

  lemma ScheduleSaved(m: Mem, num: nat, sc: FullSchedule)
    requires num < MAX_SCHEDULES && ScheduleShape(sc)
    ensures var r := Write(m, ScheduleSlot(num), PackSchedule(sc));
            ScheduleAt(r, num) == sc && SameBut(m, r, (t: Slot) => t == ScheduleSlot(num))
  {
    hide Read, Write, UnpackSchedule, PackSchedule;
    WriteReads(m, ScheduleSlot(num), PackSchedule(sc));
    ScheduleRoundTrip(sc);
  }
}
