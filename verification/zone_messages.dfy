/** The message handlers as they run: loops over the bits of a message that drive the
    run-state object and collect status bits. */
module ZoneMessages {
  import opened Words
  import opened Site
  import opened Scheduler
  import opened ZoneProtocol
  import opened RunStateObject

  /** A switch request: the answers it causes, and what it does to the station. */
  method MessageZonesSet(rs: RunState, m: ZonesSet, now: Moment) returns (answers: seq<Reply>)
    requires rs.Valid()
    modifies rs, rs.cache, rs.quick
    ensures rs.Valid() && rs.Model() == HandleSet(old(rs.Model()), m, now)
    ensures answers == AnswerSet(old(rs.Model()), rs.Model(), m)
  {
    hide TurnOffAll, RemoteStart, StartEach, MakeReport;
    answers := [Error(ILLEGAL_DATA_ADDRESS)];
    if m.to >= MAX_STATIONS { return; }
    var st := rs.cfg.stations[m.to];
    if !st.enabled || !st.valid || !st.rcontrol { return; }
    if m.num + m.first > st.channels || m.num < 1 { return; }
    ghost var before := rs.Model();
    if m.ttr == 0 {
      rs.TurnOffZonesWorker(now);
    } else {
      StartChannels(rs, m, now);
    }
    answers := [];
    if Bit(m.flags, 1) { answers := [Brief]; }
    if Bit(m.flags, 2) {
      var report := SendZonesReport(rs, m.to, m.first, m.num);
      answers := answers + report;
    }
  }

  method StartChannels(rs: RunState, m: ZonesSet, now: Moment)
    requires rs.Valid() && m.to < MAX_STATIONS
    modifies rs, rs.cache, rs.quick
    ensures rs.Valid() && rs.Model() == StartEach(old(rs.Model()), m, m.first, now)
  {
    hide RemoteStart;
    var i: nat := m.first;
    while i < m.first + m.num
      invariant m.first <= i && rs.Valid()
      invariant StartEach(rs.Model(), m, i, now) == StartEach(old(rs.Model()), m, m.first, now)
    {
      if Bit(m.data, i) { var ok := rs.RemoteStartZone(m.to, Wrap8(i), m.ttr, now); }
      i := i + 1;
    }
  }

  /** The report on a range of channels of a station, if it is one. */
  method SendZonesReport(rs: RunState, station: u8, first: u8, num: u8) returns (report: seq<Reply>)
    requires rs.Valid()
    ensures report == MakeReport(rs.Model(), station, first, num)
  {
    hide ShowsOn, StatusBits, SetBit8;
    if station >= MAX_STATIONS { return []; }
    var st := rs.cfg.stations[station];
    var status: u8 := 0;
    if st.enabled {
      if first + num > st.channels { return []; }
      var pos: nat := first;
      NoStatusBits(rs.Model(), st.startZone, first);
      while pos < first + num
        invariant first <= pos <= first + num
        invariant status == StatusBits(rs.Model(), st.startZone, first, pos)
      {
        var on := ShowsOnNow(rs, Wrap8(st.startZone + pos));
        NextStatusBit(rs.Model(), st.startZone, first, pos);
        if on && pos < 8 { status := SetBit8(status, pos); }
        pos := pos + 1;
      }
    }
    return [Status(ZonesReport(station, first, num, status))];
  }

  lemma NoStatusBits(s: State, startZone: u8, first: nat)
    ensures StatusBits(s, startZone, first, first) == 0
  {}

  lemma NextStatusBit(s: State, startZone: u8, first: nat, pos: nat)
    requires first <= pos
    ensures var rest := StatusBits(s, startZone, first, pos);
            StatusBits(s, startZone, first, pos + 1) ==
              if pos < 8 && ShowsOn(s, Wrap8(startZone + pos)) then SetBit8(rest, pos) else rest
  {
    hide ShowsOn, SetBit8;
  }

  method ShowsOnNow(rs: RunState, z: nat) returns (on: bool)
    requires rs.Valid()
    ensures on == ShowsOn(rs.Model(), z)
  {
    if z >= rs.cfg.numZones { return false; }
    var state := rs.cache[z] / 16 * 16;
    return state == ZONE_STATE_RUNNING || state == ZONE_STATE_STARTING;
  }

  /** A read request is answered from the cache and changes nothing. */
  method MessageZonesRead(rs: RunState, m: ZonesRead) returns (answers: seq<Reply>)
    requires rs.Valid()
    ensures answers == AnswerRead(rs.Model(), m)
  {
    hide MakeReport;
    answers := [Error(ILLEGAL_DATA_ADDRESS)];
    if m.to >= MAX_STATIONS { return; }
    var st := rs.cfg.stations[m.to];
    if !st.valid || !st.rstatus { return; }
    var num := m.num;
    if m.first == 0 && num == ALL_ZONES { num := st.channels; }
    if m.first + num > st.channels || num < 1 { return; }
    answers := SendZonesReport(rs, m.to, m.first, num);
  }

  /** A report from a remote station, whose block must lie inside the cache. */
  method MessageZonesReport(rs: RunState, m: ZonesReport)
    requires rs.Valid()
    requires m.from < MAX_STATIONS ==>
               rs.cfg.stations[m.from].startZone + rs.cfg.stations[m.from].channels <= MAX_ZONES
    modifies rs.cache
    ensures rs.Valid() && rs.Model() == HandleReport(old(rs.Model()), m)
  {
    hide Report;
    if m.first + m.num > rs.cfg.numZones || m.from > MAX_REMOTE_STATIONS { return; }
    rs.ReportStationZonesStatus(m.from, m.data);
  }
}
