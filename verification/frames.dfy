/** The radio frames: how the senders lay them out, and what the receiver makes of
    them. All structures are packed, multi-byte fields little-endian. */
module Frames {
  import opened Words
  import opened Memory
  import SysLog
  import Zones = ZoneProtocol

  const PROTOCOL_ID: u8 := 1
  const HEADER_SIZE: nat := 6
  const RADIO_PAYLOAD: nat := 61

  const FCODE_ZONES_READ: u8 := 1
  const FCODE_ZONES_SET: u8 := 2
  const FCODE_ZONES_REPORT: u8 := 3
  const FCODE_SENSORS_READ: u8 := 4
  const FCODE_SENSORS_REPORT: u8 := 5
  const FCODE_SYSREGISTERS_READ: u8 := 6
  const FCODE_SYSREGISTERS_REPORT: u8 := 8
  const FCODE_EVTMASTER_READ: u8 := 12
  const FCODE_EVTMASTER_SET: u8 := 13
  const FCODE_EVTMASTER_REPORT: u8 := 14
  const FCODE_SYSEVT_REPORT: u8 := 16
  const FCODE_PING: u8 := 52
  const FCODE_PING_REPLY: u8 := 53
  const FCODE_TIME_BROADCAST: u8 := 55
  const FCODE_RESPONSE_OK: u8 := 127
  const FCODE_RESPONSE_ERROR: u8 := 128

  datatype Header = Header(protocol: u8, transaction: u8, to: u8, from: u8, length: u8, fcode: u8)

  /** What a sender wants to say. Sensor readings are the sender's `int32` values. */
  datatype Body =
    | ReadZones(first: u8, num: u8)
    | SetZones(flags: u8, schedule: u8, firstZone: u8, ttr: u8, numZones: u8, bits: u8)
    | ReportZones(stationFlags: u8, firstReported: u8, numReported: u8, status: u8)
    | ReadSensors(fromSensor: u8, numSensors: u8)
    | ReportSensors(firstSensor: u8, readings: seq<int>)
    | ReadRegisters(firstRegister: u8, numRegisters: u8)
    | ReadEvtMaster
    | SetEvtMaster(ackFlags: u8, events: u16, station: u8, address: u16)
    | ReportEvtMaster(reported: u16, master: u8, masterAddress: u16)
    | ReportEvent(timeStamp: u32, seqId: u16, evtFlags: u8, evtType: u8, text: seq<u8>)
    | Ping(cookie: u32)
    | PingReply(echo: u32)
    | TimeBroadcast(time: u32)
    | OkResponse(done: u8)
    | ErrorResponse(failed: u8, code: u8)

  datatype Frame = Frame(transaction: u8, to: u8, from: u8, body: Body)

  /** What the senders can be asked to send. */
  predicate Sendable(b: Body)
  {
    && (b.ReportSensors? ==> 1 <= |b.readings| <= MAX_SENSORS)
    && (b.ReportEvent? ==> |b.text| <= SysLog.MAX_STRING)
  }

  function FCodeOf(b: Body): u8
  {
    match b
    case ReadZones(_, _) => FCODE_ZONES_READ
    case SetZones(_, _, _, _, _, _) => FCODE_ZONES_SET
    case ReportZones(_, _, _, _) => FCODE_ZONES_REPORT
    case ReadSensors(_, _) => FCODE_SENSORS_READ
    case ReportSensors(_, _) => FCODE_SENSORS_REPORT
    case ReadRegisters(_, _) => FCODE_SYSREGISTERS_READ
    case ReadEvtMaster => FCODE_EVTMASTER_READ
    case SetEvtMaster(_, _, _, _) => FCODE_EVTMASTER_SET
    case ReportEvtMaster(_, _, _) => FCODE_EVTMASTER_REPORT
    case ReportEvent(_, _, _, _, _) => FCODE_SYSEVT_REPORT
    case Ping(_) => FCODE_PING
    case PingReply(_) => FCODE_PING_REPLY
    case TimeBroadcast(_) => FCODE_TIME_BROADCAST
    case OkResponse(_) => FCODE_RESPONSE_OK
    case ErrorResponse(_, _) => FCODE_RESPONSE_ERROR
  }

  function PackReadings(rs: seq<int>): (b: seq<u8>)
    ensures |b| == 2 * |rs|
  {
    if rs == [] then [] else Bytes16(Wrap16(rs[0])) + PackReadings(rs[1..])
  }

  /** The bytes after the header. */
  function Payload(b: Body): (p: seq<u8>)
    requires Sendable(b)
    ensures |p| <= 50
  {
    match b
    case ReadZones(first, num) => [first, num]
    case SetZones(flags, schedule, first, ttr, num, bits) => [flags, schedule, first, ttr, num, bits]
    case ReportZones(flags, first, num, status) => [flags, first, num, status]
    case ReadSensors(first, num) => [first, num]
    case ReportSensors(first, rs) => [first, |rs|] + PackReadings(rs)
    case ReadRegisters(first, num) => [first, num]
    case ReadEvtMaster => []
    case SetEvtMaster(flags, events, station, address) => [flags] + Bytes16(events) + [station] + Bytes16(address)
    case ReportEvtMaster(events, station, address) => Bytes16(events) + [station] + Bytes16(address)
    case ReportEvent(ts, id, flags, kind, text) => Bytes32(ts) + Bytes16(id) + [flags, kind, |text|] + text + [0]
    case Ping(c) => Bytes32(c)
    case PingReply(c) => Bytes32(c)
    case TimeBroadcast(t) => Bytes32(t)
    case OkResponse(f) => [f]
    case ErrorResponse(f, c) => [f, c]
  }

  /** The frame as it is handed to the network: header, then payload. */
  function Build(f: Frame): seq<u8>
    requires Sendable(f.body)
  {
    [PROTOCOL_ID, f.transaction, f.to, f.from, |Payload(f.body)|, FCodeOf(f.body)] + Payload(f.body)
  }

  // ----- the receiving side -----

  function ReadHeader(d: seq<u8>): Header
    requires |d| >= HEADER_SIZE
  {
    Header(d[0], d[1], d[2], d[3], d[4], d[5])
  }

  /** The checks made before a frame is given to the handler of its code. */
  predicate Accepted(d: seq<u8>)
  {
    && |d| >= HEADER_SIZE
    && ReadHeader(d).protocol == PROTOCOL_ID
    && |d| == ReadHeader(d).length + HEADER_SIZE
  }

  function UnpackReadings(p: seq<u8>, n: nat): seq<int>
    requires |p| >= 2 * n
  {
    if n == 0 then [] else [Int16(Word16(p[..2]))] + UnpackReadings(p[2..], n - 1)
  }

  /** Payload length a sensor report of `n` readings must have. */
  function ReportLength(n: int): int { 4 + (n - 1) * 2 }

  /** Thrown away by a length or range check; accepted but without effect, because no
      handler exists or the handler is empty; or taken. */
  datatype Decoded = Rejected | Dropped(header: Header) | Message(header: Header, body: Body)

  /** A message of fixed length `n`. */
  function Taken(h: Header, n: nat, body: Body): Decoded
  {
    if h.length == n then Message(h, body) else Rejected
  }

  /** What the handlers read out of an accepted frame, with their own length checks.
      Reports are taken from remote stations only. */
  function Decode(d: seq<u8>): Decoded
  {
    if !Accepted(d) then Rejected else Handle(ReadHeader(d), d[HEADER_SIZE..])
  }

  function Handle(h: Header, p: seq<u8>): Decoded
    requires |p| == h.length
  {
    var at := (i: nat) => if i < |p| then p[i] else 0;
    var remote := h.from <= Zones.MAX_REMOTE_STATIONS;
    if h.fcode == FCODE_ZONES_READ then Taken(h, 2, ReadZones(at(0), at(1)))
    else if h.fcode == FCODE_ZONES_SET then Taken(h, 6, SetZones(at(0), at(1), at(2), at(3), at(4), at(5)))
    else if h.fcode == FCODE_ZONES_REPORT then
      if remote then Taken(h, 4, ReportZones(at(0), at(1), at(2), at(3))) else Rejected
    else if h.fcode == FCODE_SENSORS_READ then Taken(h, 2, ReadSensors(at(0), at(1)))
    else if h.fcode == FCODE_SENSORS_REPORT then
      if h.length >= 2 && ReportLength(p[1]) == h.length && remote then
        Message(h, ReportSensors(p[0], UnpackReadings(p[2..], p[1])))
      else Rejected
    else if h.fcode == FCODE_EVTMASTER_READ then Message(h, ReadEvtMaster)
    else if h.fcode == FCODE_EVTMASTER_SET then
      if h.length == 6 then Message(h, SetEvtMaster(p[0], Word16(p[1..3]), p[3], Word16(p[4..]))) else Rejected
    else if h.fcode == FCODE_EVTMASTER_REPORT then
      if h.length == 5 then Message(h, ReportEvtMaster(Word16(p[..2]), p[2], Word16(p[3..]))) else Rejected
    else if h.fcode == FCODE_SYSEVT_REPORT then
      if h.length >= 9 && p[8] <= SysLog.MAX_STRING && h.length >= 9 + p[8] then
        Message(h, ReportEvent(Word32(p[..4]), Word16(p[4..6]), p[6], p[7], p[9..9 + p[8]]))
      else Rejected
    else if h.fcode == FCODE_PING then if h.length == 4 then Message(h, Ping(Word32(p))) else Rejected
    else if h.fcode == FCODE_PING_REPLY then if h.length == 4 then Message(h, PingReply(Word32(p))) else Rejected
    else if h.fcode == FCODE_TIME_BROADCAST then
      if h.length == 4 then Message(h, TimeBroadcast(Word32(p))) else Rejected
    else if h.fcode == FCODE_RESPONSE_ERROR then Taken(h, 2, ErrorResponse(at(0), at(1)))
    else Dropped(h)
  }

  /** The bodies for which the receiver has a handler. */
  predicate Handled(b: Body) { !b.OkResponse? && !b.ReadRegisters? }

  /** What becomes of a body on the way: sensor readings lose all but 16 bits. */
  function Received(b: Body): Body
  {
    if b.ReportSensors? then b.(readings := seq(|b.readings|, i requires 0 <= i < |b.readings| => Int16(b.readings[i])))
    else b
  }

  lemma {:induction false} ReadingsRoundTrip(rs: seq<int>)
    ensures UnpackReadings(PackReadings(rs), |rs|) == seq(|rs|, i requires 0 <= i < |rs| => Int16(rs[i]))
  {
    if rs != [] {
      ReadingsRoundTrip(rs[1..]);
      WordsRoundTrip(Wrap16(rs[0]), 0);
      var p := PackReadings(rs);
      assert p[..2] == Bytes16(Wrap16(rs[0])) && p[2..] == PackReadings(rs[1..]);
      assert Int16(Wrap16(rs[0])) == Int16(rs[0]);
    }
  }

  lemma EventRoundTrip(b: Body)
    requires b.ReportEvent? && Sendable(b)
    ensures var p := Payload(b);
            && p[8] == |b.text| && |p| == 10 + |b.text|
            && ReportEvent(Word32(p[..4]), Word16(p[4..6]), p[6], p[7], p[9..9 + |b.text|]) == b
  {
    var p := Payload(b);
    assert p[..4] == Bytes32(b.timeStamp) && p[4..6] == Bytes16(b.seqId) && p[9..9 + |b.text|] == b.text;
    WordsRoundTrip(b.seqId, b.timeStamp);
  }

  lemma MasterRoundTrip(b: Body)
    requires b.SetEvtMaster? || b.ReportEvtMaster?
    ensures var p := Payload(b);
            if b.SetEvtMaster? then
              |p| == 6 && SetEvtMaster(p[0], Word16(p[1..3]), p[3], Word16(p[4..])) == b
            else |p| == 5 && ReportEvtMaster(Word16(p[..2]), p[2], Word16(p[3..])) == b
  {
    var p := Payload(b);
    if b.SetEvtMaster? {
      assert p[1..3] == Bytes16(b.events) && p[4..] == Bytes16(b.address);
      WordsRoundTrip(b.events, 0);
      WordsRoundTrip(b.address, 0);
    } else {
      assert p[..2] == Bytes16(b.reported) && p[3..] == Bytes16(b.masterAddress);
      WordsRoundTrip(b.reported, 0);
      WordsRoundTrip(b.masterAddress, 0);
    }
  }

  function HeaderOf(f: Frame): Header
    requires Sendable(f.body)
  {
    Header(PROTOCOL_ID, f.transaction, f.to, f.from, |Payload(f.body)|, FCodeOf(f.body))
  }

  /** Every frame a sender builds, but the register report, fits the radio's payload
      with its sequence byte and passes the receiver's first checks. If the receiver
      has a handler for it, it is read back as what was meant; a brief answer and a
      register request have none and are dropped. Reports must name a station the
      master accepts reports from. */
  lemma FrameRoundTrip(f: Frame)
    requires Sendable(f.body)
    requires f.body.ReportZones? || f.body.ReportSensors? ==> f.from <= Zones.MAX_REMOTE_STATIONS
    ensures |Build(f)| + 1 <= RADIO_PAYLOAD && Accepted(Build(f))
    ensures Decode(Build(f)) ==
            if Handled(f.body) then Message(HeaderOf(f), Received(f.body)) else Dropped(HeaderOf(f))
  {
    hide Bytes32, Bytes16, Word16, Word32, PackReadings, UnpackReadings;
    var d, p := Build(f), Payload(f.body);
    assert d[HEADER_SIZE..] == p;
    match f.body
    case ReportSensors(first, rs) =>
      assert p[2..] == PackReadings(rs);
      ReadingsRoundTrip(rs);
    case ReportEvent(ts, id, flags, kind, text) => EventRoundTrip(f.body);
    case SetEvtMaster(_, _, _, _) => MasterRoundTrip(f.body);
    case ReportEvtMaster(_, _, _) => MasterRoundTrip(f.body);
    case Ping(c) => WordsRoundTrip(0, c);
    case PingReply(c) => WordsRoundTrip(0, c);
    case TimeBroadcast(t) => WordsRoundTrip(0, t);
    case _ =>
  }

  // ----- the zone messages -----

  function SetFrame(transaction: u8, from: u8, schedule: u8, m: Zones.ZonesSet): Frame
  {
    Frame(transaction, m.to, from, SetZones(m.flags, schedule, m.first, m.ttr, m.num, m.data))
  }

  function ReadFrame(transaction: u8, from: u8, m: Zones.ZonesRead): Frame
  {
    Frame(transaction, m.to, from, ReadZones(m.first, m.num))
  }

  function ReportFrame(transaction: u8, to: u8, stationFlags: u8, m: Zones.ZonesReport): Frame
  {
    Frame(transaction, to, m.from, ReportZones(stationFlags, m.first, m.num, m.data))
  }

  /** The zone messages byte by byte, as other stations expect them. */
  lemma WireImages(t: u8, peer: u8, x: u8, s: Zones.ZonesSet, r: Zones.ZonesRead, q: Zones.ZonesReport)
    ensures Build(SetFrame(t, peer, x, s)) == [1, t, s.to, peer, 6, 2, s.flags, x, s.first, s.ttr, s.num, s.data]
    ensures Build(ReadFrame(t, peer, r)) == [1, t, r.to, peer, 2, 1, r.first, r.num]
    ensures Build(ReportFrame(t, peer, x, q)) == [1, t, peer, q.from, 4, 3, x, q.first, q.num, q.data]
  {}

  /** What the handlers of the three zone messages are given. */
  datatype ZoneMessage =
    | NoZoneMessage
    | GotSet(set_: Zones.ZonesSet)
    | GotRead(read: Zones.ZonesRead)
    | GotReport(report: Zones.ZonesReport)

  function ZoneMessageOf(d: Decoded): ZoneMessage
  {
    match d
    case Message(h, SetZones(flags, _, first, ttr, num, bits)) =>
      GotSet(Zones.ZonesSet(h.to, first, num, ttr, bits, flags))
    case Message(h, ReadZones(first, num)) => GotRead(Zones.ZonesRead(h.to, first, num))
    case Message(h, ReportZones(_, first, num, status)) => GotReport(Zones.ZonesReport(h.from, first, num, status))
    case _ => NoZoneMessage
  }

  /** The zone messages of the protocol survive the frame layer, whatever else the frame
      carries; a report only from a station that may report. */
  lemma ZoneMessagesArrive(t: u8, peer: u8, x: u8, s: Zones.ZonesSet, r: Zones.ZonesRead, q: Zones.ZonesReport)
    ensures ZoneMessageOf(Decode(Build(SetFrame(t, peer, x, s)))) == GotSet(s)
    ensures ZoneMessageOf(Decode(Build(ReadFrame(t, peer, r)))) == GotRead(r)
    ensures ZoneMessageOf(Decode(Build(ReportFrame(t, peer, x, q)))) ==
            if q.from <= Zones.MAX_REMOTE_STATIONS then GotReport(q) else NoZoneMessage
  {
    hide Decode, Build;
    FrameRoundTrip(SetFrame(t, peer, x, s));
    FrameRoundTrip(ReadFrame(t, peer, r));
    if q.from <= Zones.MAX_REMOTE_STATIONS {
      FrameRoundTrip(ReportFrame(t, peer, x, q));
    } else {
      StrangerRejected(ReportFrame(t, peer, x, q));
    }
  }

  /** Reports from other stations are thrown away. */
  lemma StrangerRejected(f: Frame)
    requires Sendable(f.body) && (f.body.ReportZones? || f.body.ReportSensors?) && f.from > Zones.MAX_REMOTE_STATIONS
    ensures Decode(Build(f)) == Rejected
  {}

  /** Payloads for which there is a handler that takes them, by function code: exact
      lengths, and reports from remote stations only. */
  predicate GoodPayload(code: u8, from: u8, p: seq<u8>)
  {
    match code
    case 1 => |p| == 2
    case 2 => |p| == 6
    case 3 => |p| == 4 && from <= 9
    case 4 => |p| == 2
    case 5 => |p| >= 2 && |p| - 2 == 2 * p[1] as int && from <= 9
    case 12 => true
    case 13 => |p| == 6
    case 14 => |p| == 5
    case 16 => |p| >= 9 && p[8] <= 40 && |p| - 9 >= p[8]
    case 52 => |p| == 4
    case 53 => |p| == 4
    case 55 => |p| == 4
    case 128 => |p| == 2
    case _ => false
  }

  /** Exactly which bytes the receiver takes for a message, and from and for whom: whole
      frames of the protocol whose payload fits their code. */
  lemma TakenExactly(d: seq<u8>)
    ensures Decode(d).Message? <==>
            |d| >= 6 && d[0] == 1 && |d| - 6 == d[4] && GoodPayload(d[5], d[3], d[6..])
    ensures Decode(d).Message? ==> Decode(d).header == Header(1, d[1], d[2], d[3], d[4], d[5])
  {
    hide Word16, Word32, UnpackReadings;
  }

  /** Readings arrive unchanged exactly if they are 16-bit signed numbers. */
  lemma ReadingsExact(b: Body)
    requires b.ReportSensors?
    ensures Received(b) == b <==> forall i | 0 <= i < |b.readings| :: -0x8000 <= b.readings[i] < 0x8000
  {
    var rs := b.readings;
    var ss := seq(|rs|, i requires 0 <= i < |rs| => Int16(rs[i]));
    if ss == rs {
      forall i | 0 <= i < |rs| ensures -0x8000 <= rs[i] < 0x8000 { assert ss[i] == rs[i]; }
    } else {
      assert exists i :: 0 <= i < |rs| && ss[i] != rs[i];
    }
  }

  /** The report of `n` system registers announces 2 + n bytes and carries 4 + 2n, so
      the receiver's first check rejects every one of them. */
  lemma RegisterReportRejected(transaction: u8, to: u8, from: u8, n: nat, payload: seq<u8>)
    requires n <= 30 && |payload| == 4 + 2 * n
    ensures !Accepted([PROTOCOL_ID, transaction, to, from, 2 + n, FCODE_SYSREGISTERS_REPORT] + payload)
  {
    var d := [PROTOCOL_ID, transaction, to, from, 2 + n, FCODE_SYSREGISTERS_REPORT] + payload;
    assert d[4] == 2 + n;
  }
}
