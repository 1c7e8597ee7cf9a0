/** The byte memory of the settings store, and its map: which bytes belong to which
    record or setting. */
module Memory {
  import opened Words
  import opened Site

  const SIZE: nat := 4096
  const NAME_LENGTH: nat := 20
  const MAX_SENSORS: nat := 16

  type Mem = m: seq<u8> | |m| == SIZE witness seq(SIZE, _ => 0)
  type Name = n: seq<u8> | |n| == NAME_LENGTH witness seq(20, _ => 0)

  // ----- the map -----

  /** Everything the store keeps, each with its own bytes. */
  datatype Slot =
    | ZoneSlot(n: nat) | StationSlot(n: nat) | SensorSlot(n: nat) | ScheduleSlot(n: nat)
    | DayCounter(n: nat) | DayStamp(n: nat)
    | Setting(what: Field)

  /** The settings that are single values. */
  datatype Field =
    | Signature | ScheduleCount | Options | NumZones | PumpStation | PumpChannel
    | NtpIp | NtpOffset | Ip | Netmask | Gateway | Dhcp | WuIp | Zip | ApiKey | OutputType | WebPort
    | SeasonalAdjust | Pws | MyStationId | EvtMasterFlags | EvtMasterStation
    | NumDirectIo | DirectIoMap | NumSerialIo | SerialIoMap
    | XBeeFlags | XBeePort | XBeeSpeed | XBeePanId | XBeeAddress | XBeeChannel
    | MoteinoFlags | MoteinoPanId | MoteinoNodeId
    | NumSensors | TotalWater

  function FieldExtent(f: Field): (int, nat)
  {
    match f
    case Signature => (0, 4)
    case ScheduleCount => (4, 1)
    case Options => (5, 1)
    case NumZones => (7, 1)
    case PumpStation => (8, 1)
    case PumpChannel => (9, 1)
    case NtpIp => (20, 4)
    case NtpOffset => (24, 1)
    case Ip => (46, 4)
    case Netmask => (50, 4)
    case Gateway => (54, 4)
    case Dhcp => (58, 1)
    case WuIp => (62, 4)
    case Zip => (66, 4)
    case ApiKey => (70, 8)
    case OutputType => (78, 1)
    case WebPort => (79, 2)
    case SeasonalAdjust => (81, 1)
    case Pws => (82, 11)
    case MyStationId => (95, 1)
    case EvtMasterFlags => (96, 2)
    case EvtMasterStation => (98, 1)
    case NumDirectIo => (100, 1)
    case DirectIoMap => (101, 16)
    case NumSerialIo => (117, 1)
    case SerialIoMap => (118, 4)
    case XBeeFlags => (128, 1)
    case XBeePort => (129, 1)
    case XBeeSpeed => (130, 2)
    case XBeePanId => (132, 2)
    case XBeeAddress => (134, 2)
    case XBeeChannel => (136, 1)
    case MoteinoFlags => (140, 1)
    case MoteinoPanId => (141, 1)
    case MoteinoNodeId => (142, 1)
    case NumSensors => (256, 1)
    case TotalWater => (657, 4)
  }

  predicate InRange(s: Slot)
  {
    match s
    case ZoneSlot(n) => n < MAX_ZONES
    case StationSlot(n) => n < MAX_STATIONS
    case SensorSlot(n) => n < MAX_SENSORS
    case ScheduleSlot(n) => n < MAX_SCHEDULES
    case DayCounter(n) => n < 7
    case DayStamp(n) => n < 7
    case Setting(_) => true
  }

  /** First byte of a slot. */
  function Base(s: Slot): int
  {
    match s
    case ZoneSlot(n) => 2048 + 32 * n
    case StationSlot(n) => 768 + 48 * n
    case SensorSlot(n) => 257 + 24 * n
    case ScheduleSlot(n) => 1536 + 128 * n
    case DayCounter(n) => 642 + 2 * n
    case DayStamp(n) => 661 + 4 * n
    case Setting(f) => FieldExtent(f).0
  }

  function Length(s: Slot): nat
  {
    match s
    case ZoneSlot(_) => 25
    case StationSlot(_) => 30
    case SensorSlot(_) => 24
    case ScheduleSlot(_) => 94
    case DayCounter(_) => 2
    case DayStamp(_) => 4
    case Setting(f) => FieldExtent(f).1
  }

  /** A coarse address order of the kinds of slots, for the disjointness argument. */
  function Kind(s: Slot): (int, int)
  {
    match s
    case Setting(f) => (FieldExtent(f).0, FieldExtent(f).0 + FieldExtent(f).1)
    case SensorSlot(_) => (257, 641)
    case DayCounter(_) => (642, 656)
    case DayStamp(_) => (661, 689)
    case StationSlot(_) => (768, 1536)
    case ScheduleSlot(_) => (1536, 2048)
    case ZoneSlot(_) => (2048, 4096)
  }

  /** All slots lie inside the memory. */
  lemma SlotFits(s: Slot)
    requires InRange(s)
    ensures Kind(s).0 <= Base(s) && Base(s) + Length(s) <= Kind(s).1
    ensures 0 <= Base(s) && Base(s) + Length(s) <= SIZE
  {}

  predicate Apart(a: Slot, b: Slot)
  {
    Base(a) + Length(a) <= Base(b) || Base(b) + Length(b) <= Base(a)
  }

  /** No two different slots share a byte. */
  lemma SlotsApart(a: Slot, b: Slot)
    requires InRange(a) && InRange(b) && a != b
    ensures Apart(a, b)
  {
    SlotFits(a);
    SlotFits(b);
    if a.Setting? && b.Setting? {
      FieldsApart(a.what, b.what);
    } else if a.Setting? {
      FieldOutsideBlocks(a.what, b);
    } else if b.Setting? {
      FieldOutsideBlocks(b.what, a);
    }
  }

  lemma FieldsApart(f: Field, g: Field)
    requires f != g
    ensures var (a, m) := FieldExtent(f); var (b, n) := FieldExtent(g); a + m <= b || b + n <= a
  {}

  lemma FieldOutsideBlocks(f: Field, s: Slot)
    requires !s.Setting? && InRange(s)
    ensures Apart(Setting(f), s)
  {
    SlotFits(s);
    assert f.TotalWater? || FieldExtent(f).0 + FieldExtent(f).1 <= 257;
  }

  // ----- reading and writing -----

  function Read(m: Mem, s: Slot): (b: seq<u8>)
    requires InRange(s)
    ensures |b| == Length(s)
  {
    SlotFits(s);
    m[Base(s)..Base(s) + Length(s)]
  }

  function Write(m: Mem, s: Slot, b: seq<u8>): Mem
    requires InRange(s) && |b| == Length(s)
  {
    SlotFits(s);
    m[..Base(s)] + b + m[Base(s) + Length(s)..]
  }

  /** What was written is read back, and every other slot keeps its bytes. */
  lemma WriteReads(m: Mem, s: Slot, b: seq<u8>)
    requires InRange(s) && |b| == Length(s)
    ensures Read(Write(m, s, b), s) == b
    ensures forall t | InRange(t) && t != s :: Read(Write(m, s, b), t) == Read(m, t)
  {
    SlotFits(s);
    assert Read(Write(m, s, b), s) == b;
    forall t | InRange(t) && t != s ensures Read(Write(m, s, b), t) == Read(m, t) {
      WriteElsewhere(m, s, b, t);
    }
  }

  lemma WriteElsewhere(m: Mem, s: Slot, b: seq<u8>, t: Slot)
    requires InRange(s) && InRange(t) && s != t && |b| == Length(s)
    ensures Read(Write(m, s, b), t) == Read(m, t)
  {
    SlotFits(s);
    SlotFits(t);
    SlotsApart(s, t);
    var w := Write(m, s, b);
    forall i | Base(t) <= i < Base(t) + Length(t) ensures w[i] == m[i] {}
  }

  // ----- numbers -----

  /** Little-endian 16- and 32-bit values. */
  function Bytes16(v: u16): (b: seq<u8>)
    ensures |b| == 2
  {
    [v % 0x100, v / 0x100]
  }

  function Word16(b: seq<u8>): u16
    requires |b| == 2
  {
    var lo: int, hi: int := b[0], b[1];
    0x100 * hi + lo
  }

  function Bytes32(v: u32): (b: seq<u8>)
    ensures |b| == 4
  {
    Bytes16(v % 0x1_0000) + Bytes16(v / 0x1_0000)
  }

  function Word32(b: seq<u8>): u32
    requires |b| == 4
  {
    var lo: int, hi: int := Word16(b[..2]), Word16(b[2..]);
    0x1_0000 * hi + lo
  }

  lemma WordsRoundTrip(v: u16, w: u32)
    ensures Word16(Bytes16(v)) == v && Word32(Bytes32(w)) == w
  {
    assert Bytes32(w)[..2] == Bytes16(w % 0x1_0000) && Bytes32(w)[2..] == Bytes16(w / 0x1_0000);
  }

  // ----- records -----

  datatype FullZone = FullZone(enabled: bool, station: u8, channel: u8, flow: u16, name: Name)
  datatype FullStation = FullStation(
    flags: u8, network: u8, channels: u8, startZone: u8, address: u16,
    tempSensors: u8, humiditySensors: u8, pressureSensors: u8, flowSensors: u8, name: Name)
  datatype FullSensor = FullSensor(kind: u8, flags: u8, station: u8, channel: u8, name: Name)
  datatype FullSchedule = FullSchedule(kind: u8, day: u8, name: Name, time: seq<int>, duration: seq<u8>)

  predicate ScheduleShape(s: FullSchedule)
  {
    |s.time| == 4 && |s.duration| == MAX_ZONES && forall j | 0 <= j < 4 :: -0x8000 <= s.time[j] < 0x8000
  }

  function PackZone(z: FullZone): (b: seq<u8>)
    ensures |b| == 25
  {
    [if z.enabled then 1 else 0, z.station, z.channel] + Bytes16(z.flow) + z.name
  }

  function UnpackZone(b: seq<u8>): FullZone
    requires |b| == 25
  {
    FullZone(b[0] % 2 == 1, b[1], b[2], Word16(b[3..5]), b[5..])
  }

  function PackStation(s: FullStation): (b: seq<u8>)
    ensures |b| == 30
  {
    [s.flags, s.network, s.channels, s.startZone] + Bytes16(s.address)
    + [s.tempSensors, s.humiditySensors, s.pressureSensors, s.flowSensors] + s.name
  }

  function UnpackStation(b: seq<u8>): FullStation
    requires |b| == 30
  {
    FullStation(b[0], b[1], b[2], b[3], Word16(b[4..6]), b[6], b[7], b[8], b[9], b[10..])
  }

  function PackSensor(s: FullSensor): (b: seq<u8>)
    ensures |b| == 24
  {
    [s.kind, s.flags, s.station, s.channel] + s.name
  }

  function UnpackSensor(b: seq<u8>): FullSensor
    requires |b| == 24
  {
    FullSensor(b[0], b[1], b[2], b[3], b[4..])
  }

  function PackTime(t: int): (b: seq<u8>)
    ensures |b| == 2
  {
    Bytes16(Wrap16(t))
  }

  function UnpackTime(b: seq<u8>): int
    requires |b| == 2
  {
    Int16(Word16(b))
  }

  function PackSchedule(s: FullSchedule): (b: seq<u8>)
    requires ScheduleShape(s)
    ensures |b| == 94
  {
    [s.kind, s.day] + s.name
    + PackTime(s.time[0]) + PackTime(s.time[1]) + PackTime(s.time[2]) + PackTime(s.time[3]) + s.duration
  }

  function UnpackSchedule(b: seq<u8>): (s: FullSchedule)
    requires |b| == 94
    ensures ScheduleShape(s)
  {
    FullSchedule(b[0], b[1], b[2..22],
                 [UnpackTime(b[22..24]), UnpackTime(b[24..26]), UnpackTime(b[26..28]), UnpackTime(b[28..30])],
                 b[30..])
  }

  // Unpacking a packed record gives the record, for all four kinds.

  lemma ZoneRoundTrip(z: FullZone)
    ensures UnpackZone(PackZone(z)) == z
  {
    var b := PackZone(z);
    assert b[3..5] == Bytes16(z.flow) && b[5..] == z.name;
  }

  lemma StationRoundTrip(st: FullStation)
    ensures UnpackStation(PackStation(st)) == st
  {
    var b := PackStation(st);
    assert b[4..6] == Bytes16(st.address) && b[10..] == st.name;
  }

  lemma SensorRoundTrip(se: FullSensor)
    ensures UnpackSensor(PackSensor(se)) == se
  {
    assert PackSensor(se)[4..] == se.name;
  }

  lemma ScheduleRoundTrip(sc: FullSchedule)
    requires ScheduleShape(sc)
    ensures UnpackSchedule(PackSchedule(sc)) == sc
  {
    hide PackTime, UnpackTime;
    var d := PackSchedule(sc);
    assert d[2..22] == sc.name && d[30..] == sc.duration;
    assert d[22..24] == PackTime(sc.time[0]) && d[24..26] == PackTime(sc.time[1]);
    assert d[26..28] == PackTime(sc.time[2]) && d[28..30] == PackTime(sc.time[3]);
    TimeRoundTrip(sc.time[0]);
    TimeRoundTrip(sc.time[1]);
    TimeRoundTrip(sc.time[2]);
    TimeRoundTrip(sc.time[3]);
    assert sc.time == [sc.time[0], sc.time[1], sc.time[2], sc.time[3]];
  }

  lemma TimeRoundTrip(t: int)
    requires -0x8000 <= t < 0x8000
    ensures UnpackTime(PackTime(t)) == t
  {
    WordsRoundTrip(Wrap16(t), 0);
  }
}
