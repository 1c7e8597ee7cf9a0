/** The zone messages between a master and a remote station, and what their
    handlers do to the scheduler of the station that receives them. */
module ZoneProtocol {
  import opened Words
  import opened Site
  import opened Scheduler
  import opened SchedulerInvariant

  const MAX_REMOTE_STATIONS: nat := 9
  const FLAGS_ACK_STD: u8 := 5          // errors (1) and a report (4), no brief answer (2)
  const ALL_ZONES: u8 := 0xFF
  const ILLEGAL_DATA_ADDRESS: u8 := 2

  datatype ZonesSet = ZonesSet(to: u8, first: u8, num: u8, ttr: u8, data: u8, flags: u8)
  datatype ZonesRead = ZonesRead(to: u8, first: u8, num: u8)
  datatype ZonesReport = ZonesReport(from: u8, first: u8, num: u8, data: u8)

  datatype Reply = Error(code: u8) | Brief | Status(report: ZonesReport)

  /** The request a master sends to switch one remote channel; `ttr == 0` means off. */
  function ForceSingleZone(station: u8, channel: u8, ttr: u8): ZonesSet
  {
    ZonesSet(station, channel, 1, ttr, if channel < 8 then SetBit8(0, channel) else 0, FLAGS_ACK_STD)
  }

  /** The request a master sends to switch off a whole station. */
  function TurnOffAllZones(station: u8): ZonesSet
  {
    ZonesSet(station, 0, ALL_ZONES, 0, 0, FLAGS_ACK_STD)
  }

  // ----- the remote side -----

  predicate SetAccepted(s: State, m: ZonesSet)
  {
    && m.to < MAX_STATIONS
    && (var st := s.cfg.stations[m.to];
        st.enabled && st.valid && st.rcontrol && m.num + m.first <= st.channels && m.num >= 1)
  }

  /** Starts, one after the other, the channels from `i` on whose bit is set. */
  function StartEach(s: State, m: ZonesSet, i: nat, now: Moment): (r: State)
    requires m.to < MAX_STATIONS
    ensures Onward(s, r)
    decreases m.first + m.num - i
  {
    if i >= m.first + m.num then s
    else StartEach(if Bit(m.data, i) then RemoteStart(s, m.to, Wrap8(i), m.ttr, now) else s, m, i + 1, now)
  }

  function HandleSet(s: State, m: ZonesSet, now: Moment): (r: State)
    ensures Onward(s, r)
  {
    if !SetAccepted(s, m) then s
    else if m.ttr == 0 then TurnOffAll(s, now)
    else StartEach(s, m, m.first, now)
  }

  predicate ShowsOn(s: State, z: nat)
  {
    ZoneState(s, z) == ZONE_STATE_RUNNING || ZoneState(s, z) == ZONE_STATE_STARTING
  }

  /** Status bits of the channels from `first` up to, not including, `end`. */
  function StatusBits(s: State, startZone: u8, first: nat, end: nat): u8
    decreases end - first
  {
    if first >= end then 0
    else
      var rest := StatusBits(s, startZone, first, end - 1);
      if end - 1 < 8 && ShowsOn(s, Wrap8(startZone + end - 1)) then SetBit8(rest, end - 1) else rest
  }

  /** A report on channels outside the station is not sent. */
  function MakeReport(s: State, station: u8, first: u8, num: u8): seq<Reply>
  {
    if station >= MAX_STATIONS then []
    else
      var st := s.cfg.stations[station];
      if st.enabled && first + num > st.channels then []
      else [Status(ZonesReport(station, first, num,
                               if st.enabled then StatusBits(s, st.startZone, first, first + num) else 0))]
  }

  /** `s` is the state after the request was carried out. */
  function AnswerSet(before: State, s: State, m: ZonesSet): seq<Reply>
  {
    if SetAccepted(before, m) then
      (if Bit(m.flags, 1) then [Brief] else [])
      + (if Bit(m.flags, 2) then MakeReport(s, m.to, m.first, m.num) else [])
    else [Error(ILLEGAL_DATA_ADDRESS)]
  }

  function AnswerRead(s: State, m: ZonesRead): seq<Reply>
  {
    if m.to >= MAX_STATIONS then [Error(ILLEGAL_DATA_ADDRESS)]
    else
      var st := s.cfg.stations[m.to];
      var num := if m.first == 0 && m.num == ALL_ZONES then st.channels else m.num;
      if !st.valid || !st.rstatus || m.first + num > st.channels || num < 1 then [Error(ILLEGAL_DATA_ADDRESS)]
      else MakeReport(s, m.to, m.first, num)
  }

  // ----- the master side -----

  function HandleReport(s: State, m: ZonesReport): (r: State)
    ensures Onward(s, r)
  {
    if m.first + m.num > s.cfg.numZones || m.from > MAX_REMOTE_STATIONS then s
    else Report(s, m.from, m.data)
  }

  /** The answers arrive, one after the other; only reports change anything. */
  function Hear(s: State, answers: seq<Reply>): (r: State)
    ensures Onward(s, r)
    decreases |answers|
  {
    if answers == [] then s
    else Hear(if answers[0].Status? then HandleReport(s, answers[0].report) else s, answers[1..])
  }

  // ----- safety -----

  lemma RemoteStartKeeps(s: State, station: nat, channel: u8, ttr: u8, now: Moment)
    requires Inv(s) && station < MAX_STATIONS
    ensures Inv(RemoteStart(s, station, channel, ttr, now))
  {
    StartZoneKeeps(s, station, channel, Wrap8(ttr + 1), now);
  }

  lemma {:induction false} StartEachKeeps(s: State, m: ZonesSet, i: nat, now: Moment)
    requires Inv(s) && m.to < MAX_STATIONS
    ensures Inv(StartEach(s, m, i, now))
    decreases m.first + m.num - i
  {
    hide RemoteStart, Inv;
    if i < m.first + m.num {
      if Bit(m.data, i) {
        RemoteStartKeeps(s, m.to, Wrap8(i), m.ttr, now);
        StartEachKeeps(RemoteStart(s, m.to, Wrap8(i), m.ttr, now), m, i + 1, now);
      } else {
        StartEachKeeps(s, m, i + 1, now);
      }
    }
  }

  lemma HandleSetKeeps(s: State, m: ZonesSet, now: Moment)
    requires Inv(s)
    ensures Inv(HandleSet(s, m, now))
  {
    if SetAccepted(s, m) {
      if m.ttr == 0 { TurnOffAllIdles(s, now); } else { StartEachKeeps(s, m, m.first, now); }
    }
  }

  // ----- the exchange -----

  lemma {:induction false} StatusBitsRead(s: State, startZone: u8, first: nat, end: nat, i: nat)
    requires end <= 8
    ensures Bit(StatusBits(s, startZone, first, end), i) <==> first <= i < end && ShowsOn(s, Wrap8(startZone + i))
    decreases end - first
  {
    hide ShowsOn;
    if first >= end {
      ZeroHasNoBits(i);
    } else {
      StatusBitsRead(s, startZone, first, end - 1, i);
      SetBitReads(StatusBits(s, startZone, first, end - 1), end - 1, i);
    }
  }

  /** Station `st` of the remote, wired locally there, and the master's record of
      it describe the same block of channels. */
  ghost predicate Matched(master: State, remote: State, st: u8)
  {
    && st <= MAX_REMOTE_STATIONS
    && Inv(remote) && Tiled(remote.cfg) && IsLocalStation(remote.cfg, st)
    && Tiled(master.cfg)
    && Described(master.cfg.stations[st], remote.cfg.stations[st])
  }

  predicate Described(m: Station, r: Station)
  {
    r.valid && r.enabled && m.valid && m.enabled && m.channels == r.channels
  }

  /** The master's cells for station `st` are the remote's cells. */
  ghost predicate InStep(master: State, remote: State, st: u8)
    requires st < MAX_STATIONS
  {
    forall i | 0 <= i < remote.cfg.stations[st].channels :: SameCell(master, remote, st, i)
  }

  ghost predicate SameCell(master: State, remote: State, st: u8, i: nat)
    requires st < MAX_STATIONS
  {
    var a, b := master.cfg.stations[st].startZone + i, remote.cfg.stations[st].startZone + i;
    a < MAX_ZONES && b < MAX_ZONES && master.cache[a] == remote.cache[b]
  }

  ghost predicate ChannelOff(s: State, st: u8, i: nat)
    requires st < MAX_STATIONS
  {
    var z := s.cfg.stations[st].startZone + i;
    z < MAX_ZONES && s.cache[z] == ZONE_STATE_OFF
  }

  lemma CellAfterReport(master: State, remote: State, st: u8, first: u8, num: u8, i: nat)
    requires Tiled(master.cfg) && Tiled(remote.cfg) && st <= MAX_REMOTE_STATIONS
    requires Described(master.cfg.stations[st], remote.cfg.stations[st])
    requires num >= 1 && first + num <= remote.cfg.stations[st].channels
    requires i < remote.cfg.stations[st].channels
    requires var x := remote.cache[Min(remote.cfg.stations[st].startZone + i, MAX_ZONES - 1)];
             x == ZONE_STATE_OFF || x == ZONE_STATE_RUNNING
    ensures var rs := remote.cfg.stations[st];
            var m := Report(master, st, StatusBits(remote, rs.startZone, first, first + num));
            SameCell(m, remote, st, i) <==> first <= i < first + num || ChannelOff(remote, st, i)
  {
    hide StatusBits, SetBit, Bit;
    assert Owns(master.cfg, st, i) && Owns(remote.cfg, st, i);
    var b := remote.cfg.stations[st].startZone + i;
    assert Wrap8(b) == b < remote.cfg.numZones && remote.cache[b] / 16 * 16 == remote.cache[b];
    StatusBitsRead(remote, remote.cfg.stations[st].startZone, first, first + num, i);
  }

  lemma HearOne(s: State, m: ZonesReport)
    ensures Hear(s, [Status(m)]) == HandleReport(s, m) == Hear(s, [Brief, Status(m)])
  {
    var s1 := HandleReport(s, m);
    assert [Status(m)][1..] == [] && [Brief, Status(m)][1..] == [Status(m)];
    assert Hear(s1, []) == s1;
  }

  /** Exactly when a report brings the master into step: nothing is on outside the
      channels it covers, because the master takes the missing bits for OFF. */
  lemma ReportBringsInStep(master: State, remote: State, st: u8, first: u8, num: u8)
    requires Matched(master, remote, st)
    requires num >= 1 && first + num <= remote.cfg.stations[st].channels
    ensures |MakeReport(remote, st, first, num)| == 1
    ensures InStep(Hear(master, MakeReport(remote, st, first, num)), remote, st) <==>
            (forall i | 0 <= i < remote.cfg.stations[st].channels && !(first <= i < first + num) ::
               ChannelOff(remote, st, i))
  {
    hide Hear;
    var rs := remote.cfg.stations[st];
    assert Owns(master.cfg, st, first + num - 1);
    var m := MakeReport(remote, st, first, num)[0].report;
    HearOne(master, m);
    forall i | 0 <= i < rs.channels
      ensures SameCell(HandleReport(master, m), remote, st, i) <==>
              first <= i < first + num || ChannelOff(remote, st, i)
    {
      assert Owns(remote.cfg, st, i);
      CellAfterReport(master, remote, st, first, num, i);
    }
  }

  lemma TargetOf(s: State, st: u8, ch: u8)
    requires Tiled(s.cfg) && st < MAX_STATIONS
    requires var r := s.cfg.stations[st]; r.valid && r.enabled && ch < r.channels
    ensures Target(s, st, ch) == s.cfg.stations[st].startZone + ch
  {
    assert Owns(s.cfg, st, ch);
  }

  /** A start by hand of an existing zone leaves exactly that zone running, for the
      minutes asked for, or, with schedules off, nothing at all. */
  lemma OneZoneManual(s: State, st: nat, ch: u8, mins: u8, now: Moment)
    requires Inv(s) && st < MAX_STATIONS && mins > 0 && Target(s, st, ch) >= 0
    ensures var r := StartZone(s, st, ch, mins, now);
            Inv(r) && r.cfg == s.cfg && r.running == s.running &&
            if s.running then JustStarted(r, Target(s, st, ch), mins, now) else r.schedule == NO_SCHEDULE
  {
    hide Clear, StartQuick, QuickOnly, Poll, Target;
    ClearIdles(s, now);
    StartedOnly(Clear(s, now), Target(s, st, ch), mins, now);
  }

  /** A start request that the remote carries out leaves it with exactly the asked
      zone running, for one minute more, or with nothing at all. */
  lemma OneZoneStart(s: State, st: u8, ch: u8, ttr: u8, now: Moment)
    requires Inv(s) && st < MAX_STATIONS && 1 <= ttr <= 254 && Target(s, st, ch) >= 0
    ensures var r := RemoteStart(s, st, ch, ttr, now);
            Inv(r) && r.cfg == s.cfg && r.running == s.running &&
            if s.running then JustStarted(r, Target(s, st, ch), ttr + 1, now) else r.schedule == NO_SCHEDULE
  {
    hide StartZone, Target;
    OneZoneManual(s, st, ch, ttr + 1, now);
  }

  lemma StartedOnly(s: State, z: nat, mins: u8, now: Moment)
    requires Idle(s) && Inv(s) && z < s.cfg.numZones && mins > 0
    ensures var r := Poll(StartQuick(QuickOnly(s, z, mins), now), now);
            Inv(r) && r.cfg == s.cfg && r.running == s.running
            && if s.running then JustStarted(r, z, mins, now) else r.schedule == NO_SCHEDULE
  {
    QuickOnlyStarts(s, z, mins, now);
    StartedPoll(StartQuick(QuickOnly(s, z, mins), now), z, mins, now);
  }

  /** Zone `z` has just been opened as the only zone of a quick schedule. */
  ghost predicate JustStarted(s: State, z: nat, mins: u8, now: Moment)
    requires z < MAX_ZONES
  {
    && s.schedule == QUICK_SCHEDULE && s.zone == z && s.zoneMins == mins
    && s.startZone == now.Millis()
    && FirstFrom(s.quick, z + 1, s.cfg.numZones) == -1
    && (Accepts(s.cfg, RouteOf(s.cfg, z)) ==> s.cache[z] != ZONE_STATE_OFF)
  }

  lemma QuickOnlyStarts(s: State, z: nat, mins: u8, now: Moment)
    requires Idle(s) && Inv(s) && z < s.cfg.numZones && mins > 0
    ensures var r := StartQuick(QuickOnly(s, z, mins), now);
            Inv(r) && JustStarted(r, z, mins, now) && r.cfg == s.cfg && r.running == s.running
  {
    var s1 := QuickOnly(s, z, mins);
    StartQuickKeeps(s1, now);
    assert s1.quick[z] == mins;
    assert FirstFrom(s1.quick, 0, s.cfg.numZones) == z;
    assert FirstFrom(s1.quick, z + 1, s.cfg.numZones) == -1;
  }

  lemma StartedPoll(s: State, z: nat, mins: u8, now: Moment)
    requires Inv(s) && z < MAX_ZONES && JustStarted(s, z, mins, now) && mins > 0
    ensures var r := Poll(s, now);
            Inv(r) && r.cfg == s.cfg && r.running == s.running
            && if s.running then r == s else r.schedule == NO_SCHEDULE
  {
    if !s.running { StopIdles(s, now); }
  }

  /** The request asks to start channel `i`. */
  predicate Asks(m: ZonesSet, i: nat) { m.first <= i < m.first + m.num && Bit(m.data, i) }

  /** The request starts some channel, or stops everything. */
  ghost predicate Switches(m: ZonesSet)
  {
    m.ttr == 0 || (m.ttr <= 254 && exists i: nat :: Asks(m, i))
  }

  /** The current zone of `s`, if any, is a channel of station `st` in `[a, b)`. */
  predicate ZoneWithin(s: State, st: u8, a: nat, b: nat)
    requires st < MAX_STATIONS
  {
    s.zone == NO_ZONE || s.cfg.stations[st].startZone + a <= s.zone < s.cfg.stations[st].startZone + b
  }

  /** Starting channels one after the other leaves at most one of them running. */
  lemma {:induction false} StartEachWithin(s: State, m: ZonesSet, i: nat, now: Moment)
    requires Inv(s) && Tiled(s.cfg) && m.to < MAX_STATIONS && 1 <= m.ttr <= 254 && m.first <= i
    requires var r := s.cfg.stations[m.to]; r.valid && r.enabled && m.first + m.num <= r.channels
    requires ZoneWithin(s, m.to, m.first, m.first + m.num)
             || exists k: nat :: i <= k && Asks(m, k)
    ensures var r := StartEach(s, m, i, now);
            Inv(r) && r.cfg == s.cfg && ZoneWithin(r, m.to, m.first, m.first + m.num)
    decreases m.first + m.num - i
  {
    hide RemoteStart, Inv, Tiled, Target, JustStarted;
    if i < m.first + m.num {
      if Bit(m.data, i) {
        EightChannels(s.cfg, m.to);
        TargetOf(s, m.to, i);
        OneZoneStart(s, m.to, i, m.ttr, now);
        var r := RemoteStart(s, m.to, Wrap8(i), m.ttr, now);
        StartedWithin(r, s.running, Target(s, m.to, i), m.ttr + 1, now);
        StartEachWithin(r, m, i + 1, now);
      } else {
        StartEachWithin(s, m, i + 1, now);
      }
    }
  }

  lemma EightChannels(c: Config, st: u8)
    requires Tiled(c) && st < MAX_STATIONS && c.stations[st].valid && c.stations[st].enabled
    ensures c.stations[st].channels <= 8
  {}

  lemma StartedWithin(r: State, running: bool, z: nat, mins: u8, now: Moment)
    requires Inv(r) && z < MAX_ZONES && (if running then JustStarted(r, z, mins, now) else r.schedule == NO_SCHEDULE)
    ensures r.zone == NO_ZONE || r.zone == z
  {}

  /** After a delivered switch request and its delivered report, the master's cells
      for all channels of the station are the remote's, for every earlier state of
      both and whatever range of channels the request covers. `ttr == 255` is left
      out: see TtrWrapOnlyCloses. */
  lemma SetExchange(master: State, remote: State, m: ZonesSet, now: Moment)
    requires Matched(master, remote, m.to) && remote.cfg.stations[m.to].rcontrol
    requires 1 <= m.num && m.first + m.num <= remote.cfg.stations[m.to].channels
    requires Switches(m) && Bit(m.flags, 2)
    ensures var remote' := HandleSet(remote, m, now);
            InStep(Hear(master, AnswerSet(remote, remote', m)), remote', m.to)
  {
    hide Hear, Inv, Tiled, MakeReport, StartEach, TurnOffAll, StatusBits;
    var remote' := HandleSet(remote, m, now);
    if m.ttr == 0 {
      TurnOffAllIdles(remote, now);
      IdleZone(remote');
    } else {
      StartEachWithin(remote, m, m.first, now);
    }
    OthersOff(remote', m.to, m.first, m.first + m.num);
    ReportBringsInStep(master, remote', m.to, m.first, m.num);
    AnswersHeard(master, remote', m);
  }

  lemma IdleZone(s: State)
    requires Idle(s)
    ensures s.zone == NO_ZONE
  {}

  /** A brief answer before the report makes no difference. */
  lemma AnswersHeard(master: State, s: State, m: ZonesSet)
    requires |MakeReport(s, m.to, m.first, m.num)| == 1
    ensures var report := MakeReport(s, m.to, m.first, m.num);
            Hear(master, [Brief] + report) == Hear(master, [] + report) == Hear(master, report)
  {
    hide Hear;
    var report := MakeReport(s, m.to, m.first, m.num);
    HearOne(master, report[0].report);
    assert report == [Status(report[0].report)];
    assert [Brief] + report == [Brief, Status(report[0].report)] && [] + report == report;
  }

  lemma StartEachOnce(s: State, m: ZonesSet, ch: u8, now: Moment)
    requires m.to < MAX_STATIONS && m.first == ch && m.num == 1 && Bit(m.data, ch)
    ensures StartEach(s, m, ch, now) == RemoteStart(s, m.to, ch, m.ttr, now)
  {
    hide RemoteStart;
    var s1 := RemoteStart(s, m.to, ch, m.ttr, now);
    assert StartEach(s1, m, ch + 1, now) == s1;
  }

  lemma OthersOff(s: State, st: u8, a: nat, b: nat)
    requires Inv(s) && Tiled(s.cfg) && IsLocalStation(s.cfg, st)
    requires s.cfg.stations[st].valid && s.cfg.stations[st].enabled && ZoneWithin(s, st, a, b)
    ensures forall i | 0 <= i < s.cfg.stations[st].channels && !(a <= i < b) :: ChannelOff(s, st, i)
  {
    forall i | 0 <= i < s.cfg.stations[st].channels && !(a <= i < b) ensures ChannelOff(s, st, i) {
      assert Owns(s.cfg, st, i);
    }
  }

  /** The request for one channel is such a request, for every channel of the station. */
  lemma ForceSingleZoneSwitches(st: u8, ch: u8, ttr: u8)
    requires ch < 8 && ttr != 255
    ensures var m := ForceSingleZone(st, ch, ttr); Switches(m) && Bit(m.flags, 2)
  {
    SetBitReads(0, ch, ch);
    assert Asks(ForceSingleZone(st, ch, ttr), ch);
    assert Bit(FLAGS_ACK_STD, 2);
  }

  /** The request to switch off a whole station is taken only by a station of exactly
      255 channels; the zone table allows 8 at most, so it is always refused. */
  lemma TurnOffAllRefused(s: State, st: u8)
    ensures SetAccepted(s, TurnOffAllZones(st)) <==>
            st < MAX_STATIONS && (var r := s.cfg.stations[st]; r.enabled && r.valid && r.rcontrol && r.channels == 255)
    ensures Tiled(s.cfg) ==> forall now :: HandleSet(s, TurnOffAllZones(st), now) == s
  {}

  /** The channel check of a start request is off by one: the request addresses its own
      station's channel exactly if the station is in use and the channel exists. Channel
      number `channels` starts a zone of another station, if the zone table goes on. */
  lemma TargetIsOwn(s: State, st: u8, ch: u8)
    requires Tiled(s.cfg) && st < MAX_STATIONS
    ensures var z := Target(s, st, ch);
            var x := s.cfg.stations[st];
            && ((z >= 0 && s.cfg.zones[z].station == st && s.cfg.zones[z].channel == ch) <==>
                x.valid && x.enabled && ch < x.channels)
            && (z >= 0 ==> x.valid && x.enabled && ch <= x.channels)
  {
    var x := s.cfg.stations[st];
    if x.valid && x.enabled && ch < x.channels { assert Owns(s.cfg, st, ch); }
  }

  // ----- which requests are carried out -----

  /** A switch request is refused, with one error and nothing done, exactly if its station
      is not one in use under remote control or the range is empty or too long. */
  lemma RefusedExactly(s: State, m: ZonesSet, now: Moment)
    ensures var r := HandleSet(s, m, now);
            var a := AnswerSet(s, r, m);
            var good := && m.to < MAX_STATIONS
                        && (var x := s.cfg.stations[m.to];
                            x.valid && x.enabled && x.rcontrol && 1 <= m.num && m.first + m.num <= x.channels);
            && (!good ==> r == s && a == [Error(2)])
            && (good ==> forall i | 0 <= i < |a| :: !a[i].Error?)
  {
    hide StartEach, TurnOffAll, StatusBits;
  }

  /** The request for one channel of a sound station, under remote control: every channel
      there is is switched as asked and reported as it then is; for any other nothing
      happens and an error comes back. */
  lemma OneChannelRequest(s: State, st: u8, ch: u8, ttr: u8, now: Moment)
    requires Inv(s) && Tiled(s.cfg) && st < MAX_STATIONS && ttr != 255
    ensures var x := s.cfg.stations[st];
            var m := ForceSingleZone(st, ch, ttr);
            var r := HandleSet(s, m, now);
            var a := AnswerSet(s, r, m);
            if x.valid && x.enabled && x.rcontrol && ch < x.channels then
              && OwnZone(s.cfg, st, ch) && r.cfg == s.cfg && Inv(r)
              && (if ttr == 0 then Idle(r)
                  else if s.running then JustStarted(r, x.startZone + ch, ttr + 1, now)
                  else r.schedule == NO_SCHEDULE)
              && |a| == 1 && a[0].Status? && a[0] == Status(ZonesReport(st, ch, 1, a[0].report.data))
              && forall i :: 0 <= i < 8 ==> (Bit(a[0].report.data, i) <==> i == ch && ShowsOn(r, x.startZone + ch))
            else r == s && a == [Error(2)]
  {
    hide RemoteStart, TurnOffAll, Inv, Tiled, StatusBits, ShowsOn, JustStarted, StartEach;
    var x := s.cfg.stations[st];
    var m := ForceSingleZone(st, ch, ttr);
    if x.valid && x.enabled && x.rcontrol && ch < x.channels {
      EightChannels(s.cfg, st);
      OwnChannel(s.cfg, st, ch);
      TargetOf(s, st, ch);
      SetBitReads(0, ch, ch);
      if ttr == 0 {
        TurnOffAllIdles(s, now);
      } else {
        OneZoneStart(s, st, ch, ttr, now);
        StartEachOnce(s, m, ch, now);
      }
      var r := HandleSet(s, m, now);
      StdFlags();
      var bits := StatusBits(r, x.startZone, ch, ch + 1);
      forall i | 0 <= i < 8 ensures Bit(bits, i) <==> i == ch && ShowsOn(r, x.startZone + ch) {
        StatusBitsRead(r, x.startZone, ch, ch + 1, i);
      }
    }
  }

  lemma StdFlags()
    ensures !Bit(FLAGS_ACK_STD, 1) && Bit(FLAGS_ACK_STD, 2)
  {
    assert Bit(5, 1) == Bit(2, 0) && Bit(5, 2) == Bit(2, 1) && Bit(2, 1) == Bit(1, 0);
  }

  /** Zone `startZone + ch` exists and is channel `ch` of station `st`. */
  predicate OwnZone(c: Config, st: u8, ch: u8)
    requires st < MAX_STATIONS
  {
    var z := c.stations[st].startZone + ch;
    z < c.numZones && z < 0x100 && c.zones[z].station == st && c.zones[z].channel == ch
  }

  lemma OwnChannel(c: Config, st: u8, ch: u8)
    requires Tiled(c) && st < MAX_STATIONS && c.stations[st].valid && c.stations[st].enabled
    requires ch < c.stations[st].channels
    ensures OwnZone(c, st, ch)
  {
    assert Owns(c, st, ch);
  }

  /** A read request is answered by one report on exactly the asked range, with a bit for
      each channel that shows as on, or by an error: exactly if the station may report
      and the range, all channels if it says so, is not empty nor too long. */
  lemma ReadAnswered(s: State, m: ZonesRead)
    requires Tiled(s.cfg)
    ensures var a := AnswerRead(s, m);
            if m.to < MAX_STATIONS && s.cfg.stations[m.to].valid && s.cfg.stations[m.to].rstatus
               && (var x := s.cfg.stations[m.to];
                   (m.first == 0 && m.num == 0xFF && x.channels >= 1)
                   || (!(m.first == 0 && m.num == 0xFF) && 1 <= m.num && m.first + m.num <= x.channels)) then
              var x := s.cfg.stations[m.to];
              var n := if m.first == 0 && m.num == 0xFF then x.channels else m.num;
              && |a| == 1 && a[0].Status? && a[0] == Status(ZonesReport(m.to, m.first, n, a[0].report.data))
              && forall i :: 0 <= i < 8 ==>
                   (Bit(a[0].report.data, i) <==>
                    x.enabled && m.first <= i < m.first + n && ShowsOn(s, Wrap8(x.startZone + i)))
            else a == [Error(2)]
  {
    hide ShowsOn, StatusBits, Tiled;
    var a := AnswerRead(s, m);
    if a[0].Status? {
      var x := s.cfg.stations[m.to];
      var n := a[0].report.num;
      forall i | 0 <= i < 8
        ensures Bit(a[0].report.data, i) <==>
                x.enabled && m.first <= i < m.first + n && ShowsOn(s, Wrap8(x.startZone + i))
      {
        ZeroHasNoBits(i);
        if x.enabled {
          EightChannels(s.cfg, m.to);
          StatusBitsRead(s, x.startZone, m.first, m.first + n, i);
        }
      }
    }
  }

  /** No report names a channel that its station, if enabled, does not have. */
  lemma ReportsInRange(s: State, station: u8, first: u8, num: u8)
    ensures var a := MakeReport(s, station, first, num);
            a != [] <==> station < MAX_STATIONS
                         && (s.cfg.stations[station].enabled ==> first + num <= s.cfg.stations[station].channels)
  {
    hide StatusBits;
  }

  /** A report changes only cells of its station's block, and none at all if the station
      is not one that may report, is not in use, or the range exceeds the zones. */
  lemma ReportTouches(s: State, m: ZonesReport)
    ensures var r := HandleReport(s, m);
            && r == s.(cache := r.cache)
            && (m.from > 9 || m.first + m.num > s.cfg.numZones ==> r == s)
            && (m.from <= 9 && !(s.cfg.stations[m.from].valid && s.cfg.stations[m.from].enabled) ==> r == s)
            && (m.from < MAX_STATIONS ==>
                  var x := s.cfg.stations[m.from];
                  forall z | 0 <= z < MAX_ZONES && !(x.startZone <= z < x.startZone + x.channels) ::
                    r.cache[z] == s.cache[z])
  {}

  /** A delivered read of all channels brings the master into step, too. */
  lemma ReadExchange(master: State, remote: State, st: u8)
    requires Matched(master, remote, st) && remote.cfg.stations[st].rstatus
    requires remote.cfg.stations[st].channels >= 1
    ensures InStep(Hear(master, AnswerRead(remote, ZonesRead(st, 0, ALL_ZONES))), remote, st)
  {
    hide Hear;
    ReportBringsInStep(master, remote, st, 0, remote.cfg.stations[st].channels);
  }

  /** A request for 255 minutes asks the worker for 0 minutes: whatever was running is
      closed, and the unit is as idle as if nothing had been asked; then it is polled. */
  lemma TtrWrapOnlyCloses(s: State, st: u8, ch: u8, now: Moment)
    requires Inv(s) && st < MAX_STATIONS && Target(s, st, ch) >= 0
    ensures RemoteStart(s, st, ch, 255, now) == StartZone(s, st, ch, 0, now)
    ensures var r := StartQuick(QuickOnly(Clear(s, now), Target(s, st, ch), 0), now);
            && Idle(r) && Inv(r) && Onward(s, r) && r.endPause == s.endPause
            && RemoteStart(s, st, ch, 255, now) == Poll(r, now)
  {
    hide Clear, Stop, Poll, Target;
    ClearIdles(s, now);
    var s1 := QuickOnly(Clear(s, now), Target(s, st, ch), 0);
    StopIdles(s1, now);
    assert FirstFrom(s1.quick, 0, s1.cfg.numZones) == -1;
  }
}
