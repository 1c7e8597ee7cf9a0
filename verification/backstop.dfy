/** The time limit of an open valve: it is closed in time whatever happens, or fails to
    happen, after it was opened. */
module Backstop {
  import opened Words
  import opened Site
  import opened Scheduler
  import opened SchedulerInvariant
  import opened ZoneProtocol
  import opened OutputType
  import opened Runs
  import opened Traces
  import opened Undisturbed

  /** The valve of the current zone is open. */
  ghost predicate Lit(s: State)
  {
    s.zone >= 0 && s.cache[s.zone] != ZONE_STATE_OFF && IsLocalZone(s.cfg, s.zone)
  }

  /** Output `o` has been open since `since`, for `mins` minutes, and the last poll, at
      `last`, found them not over. */
  ghost predicate Guarded(s: State, o: Route, since: nat, mins: u8, last: nat)
  {
    && Inv(s) && Tiled(s.cfg) && Lit(s) && o == RouteOf(s.cfg, s.zone)
    && s.startZone == Wrap32(since) && s.zoneMins == mins
    && since <= last && (last == since || last < since + mins * 60000)
  }

  lemma OutputOfLit(s: State)
    requires Inv(s) && Lit(s)
    ensures var o := RouteOf(s.cfg, s.zone);
            s.outputs == {o} && Accepts(s.cfg, o) && s.schedule != NO_SCHEDULE && s.zone < s.cfg.numZones
  {}

  /** Time never runs backwards, and nothing happens later than `gap` after the last poll. */
  predicate Polled(last: nat, prev: nat, xs: seq<Timed>, gap: nat)
    decreases |xs|
  {
    xs == [] ||
    (var t := xs[0].now.ms;
     prev <= t <= last + gap && Polled(if xs[0].input.PollNow? then t else last, t, xs[1..], gap))
  }

  function LastTime(prev: nat, xs: seq<Timed>): nat
  {
    if xs == [] then prev else xs[|xs| - 1].now.ms
  }

  /** What closes output `o`: a command, or a set-up of the boards. */
  predicate Closes(e: Event, o: Route)
  {
    (e.Off? && e.route == o) || (e.Reset? && o in e.off)
  }

  /** Output `o` was closed by an event logged at position `from` or later, no later
      than `limit`. */
  ghost predicate ClosedBy(log: seq<Event>, from: nat, o: Route, limit: nat)
  {
    exists k :: from <= k < |log| && Closes(log[k], o) && log[k].ms <= limit
  }

  lemma ClosedByGrows(a: seq<Event>, b: seq<Event>, from: nat, o: Route, limit: nat)
    requires ClosedBy(a, from, o, limit) && a <= b
    ensures ClosedBy(b, from, o, limit)
  {
    var k :| from <= k < |a| && Closes(a[k], o) && a[k].ms <= limit;
    assert b[k] == a[k];
  }

  // ----- what closes the valve -----

  lemma TurnOffCloses(s: State, z: nat, now: Moment, from: nat, limit: nat)
    requires z < MAX_ZONES && Accepts(s.cfg, RouteOf(s.cfg, z)) && from <= |s.log| && now.ms <= limit
    ensures ClosedBy(TurnOff(s, z, now).log, from, RouteOf(s.cfg, z), limit)
  {
    var l := TurnOff(s, z, now).log;
    assert l[|s.log|] == Off(z, RouteOf(s.cfg, z), now.ms);
  }

  lemma StopCloses(s: State, now: Moment, from: nat, limit: nat)
    requires s.schedule != NO_SCHEDULE && s.zone >= 0 && Accepts(s.cfg, RouteOf(s.cfg, s.zone))
    requires from <= |s.log| && now.ms <= limit
    ensures ClosedBy(Stop(s, now).log, from, RouteOf(s.cfg, s.zone), limit)
  {
    hide TurnOff, Minutes, ClosedBy;
    TurnOffCloses(s, s.zone, now, from, limit);
    ClosedByGrows(TurnOff(s, s.zone, now).log, Stop(s, now).log, from, RouteOf(s.cfg, s.zone), limit);
  }

  lemma AfterZoneCloses(s: State, now: Moment, from: nat, limit: nat)
    requires s.zone >= 0 && Accepts(s.cfg, RouteOf(s.cfg, s.zone))
    requires from <= |s.log| && now.ms <= limit
    ensures ClosedBy(AfterZone(s, now).log, from, RouteOf(s.cfg, s.zone), limit)
  {
    hide TurnOff, Stop, LogZone, ClosedBy;
    var s1 := LogZone(s, now);
    assert s1.zone == s.zone && s1.cfg == s.cfg by { Charged(s, now); }
    TurnOffCloses(s1, s.zone, now, from, limit);
    ClosedByGrows(TurnOff(s1, s.zone, now).log, AfterZone(s, now).log, from, RouteOf(s.cfg, s.zone), limit);
  }

  lemma Charged(s: State, now: Moment)
    requires s.zone >= 0
    ensures LogZone(s, now).zone == s.zone && LogZone(s, now).cfg == s.cfg
  {
    hide Minutes, WaterOf;
  }

  lemma {:induction false} TurnOffFromCloses(s: State, i: nat, z: nat, now: Moment, from: nat, limit: nat)
    requires i <= z < s.cfg.numZones && s.cache[z] != ZONE_STATE_OFF && Accepts(s.cfg, RouteOf(s.cfg, z))
    requires from <= |s.log| && now.ms <= limit
    ensures ClosedBy(TurnOffFrom(s, i, now).log, from, RouteOf(s.cfg, z), limit)
    decreases z - i
  {
    hide ClosedBy;
    if i == z {
      TurnOffCloses(s, z, now, from, limit);
      ClosedByGrows(TurnOff(s, z, now).log, TurnOffFrom(s, i, now).log, from, RouteOf(s.cfg, z), limit);
    } else {
      TurnOffFromCloses(if s.cache[i] != ZONE_STATE_OFF then TurnOff(s, i, now) else s, i + 1, z, now, from, limit);
    }
  }

  /** Any start that is carried out first ends what runs. */
  lemma StartZoneCloses(s: State, station: nat, channel: u8, mins: u8, now: Moment, from: nat, limit: nat)
    requires station < MAX_STATIONS
    requires s.schedule != NO_SCHEDULE && s.zone >= 0 && Accepts(s.cfg, RouteOf(s.cfg, s.zone))
    requires from <= |s.log| && now.ms <= limit
    ensures var r := StartZone(s, station, channel, mins, now);
            r == s || ClosedBy(r.log, from, RouteOf(s.cfg, s.zone), limit)
  {
    hide Stop, TurnOffAll, ActiveZone, StartQuick, Poll, Target, ClosedBy, Accepts, RouteOf;
    StopCloses(s, now, from, limit);
    var r := StartZone(s, station, channel, mins, now);
    if Target(s, station, channel) >= 0 {
      ClosedByGrows(Stop(s, now).log, r.log, from, RouteOf(s.cfg, s.zone), limit);
    }
  }

  lemma {:induction false} StartEachCloses(s: State, m: ZonesSet, i: nat, now: Moment, from: nat, limit: nat)
    requires m.to < MAX_STATIONS
    requires s.schedule != NO_SCHEDULE && s.zone >= 0 && Accepts(s.cfg, RouteOf(s.cfg, s.zone))
    requires from <= |s.log| && now.ms <= limit
    ensures var r := StartEach(s, m, i, now);
            r == s || ClosedBy(r.log, from, RouteOf(s.cfg, s.zone), limit)
    decreases m.first + m.num - i
  {
    hide StartZone, ClosedBy, Accepts, RouteOf;
    if i < m.first + m.num {
      var t := if Bit(m.data, i) then RemoteStart(s, m.to, Wrap8(i), m.ttr, now) else s;
      StartZoneCloses(s, m.to, Wrap8(i), Wrap8(m.ttr + 1), now, from, limit);
      if t == s {
        StartEachCloses(s, m, i + 1, now, from, limit);
      } else {
        ClosedByGrows(t.log, StartEach(t, m, i + 1, now).log, from, RouteOf(s.cfg, s.zone), limit);
      }
    }
  }

  lemma StopAndPollCloses(s: State, now: Moment, from: nat, limit: nat)
    requires s.schedule != NO_SCHEDULE && s.zone >= 0 && Accepts(s.cfg, RouteOf(s.cfg, s.zone))
    requires from <= |s.log| && now.ms <= limit
    ensures s.running ==> ClosedBy(StopAndPoll(s, now).log, from, RouteOf(s.cfg, s.zone), limit)
    ensures !s.running ==> StopAndPoll(s, now) == s
  {
    hide Stop, Poll, ClosedBy, Accepts, RouteOf;
    if s.running {
      StopCloses(s, now, from, limit);
      ClosedByGrows(Stop(s, now).log, StopAndPoll(s, now).log, from, RouteOf(s.cfg, s.zone), limit);
    }
  }

  // ----- one input -----

  /** A poll leaves an open valve alone until its time, and then closes it. */
  lemma GuardedPoll(s: State, o: Route, since: nat, mins: u8, last: nat, now: Moment, gap: nat)
    requires Guarded(s, o, since, mins, last) && last <= now.ms <= last + gap && gap <= MAX_GAP
    ensures var r := Poll(s, now);
            (r == s && now.ms < since + mins * 60000)
            || ClosedBy(r.log, |s.log|, o, since + mins * 60000 + gap)
  {
    hide Stop, AfterZone, Inv, Tiled, RouteOf, Accepts, ClosedBy;
    var limit := since + mins * 60000 + gap;
    OutputOfLit(s);
    if !s.running {
      StopCloses(s, now, |s.log|, limit);
    } else {
      ElapsedIsTrueInterval(since, now.ms);
      if now.ms >= since + mins * 60000 { AfterZoneCloses(s, now, |s.log|, limit); }
    }
  }

  lemma SettingsGuard(s: State, r: State, o: Route, since: nat, mins: u8, last: nat)
    requires Guarded(s, o, since, mins, last)
    requires r == s.(table := r.table, numSchedules := r.numSchedules, running := r.running, endPause := r.endPause)
             || r == s.(cfg := s.cfg.(seasonal := r.cfg.seasonal))
    ensures Guarded(r, o, since, mins, last)
  {
    SettingsKeep(s, r);
    SettingsKeepTiling(s.cfg, r.cfg);
    assert RouteOf(r.cfg, s.zone) == RouteOf(s.cfg, s.zone);
  }

  lemma EditGuard(s: State, zones: seq<Zone>, o: Route, since: nat, mins: u8, last: nat)
    requires Guarded(s, o, since, mins, last) && |zones| == MAX_ZONES && EditAllowed(s, zones)
    ensures Guarded(s.(cfg := s.cfg.(zones := zones)), o, since, mins, last)
  {
    EditKeeps(s, zones);
    OutputOfLit(s);
    assert RouteOf(s.cfg.(zones := zones), s.zone) == RouteOf(s.cfg, s.zone);
  }

  /** What an input does to an open valve: it closes it in time, or leaves it open and
      the log as it was. */
  ghost predicate Settled(s: State, r: State, o: Route, since: nat, mins: u8, last: nat, gap: nat)
  {
    || ClosedBy(r.log, |s.log|, o, since + mins * 60000 + gap)
    || (Guarded(r, o, since, mins, last) && r.log == s.log)
  }

  /** Every admissible input does one or the other: polls, stops, starts of anything
      else, edits, settings, reports, frames. */
  lemma GuardedStep(s: State, x: Input, now: Moment, o: Route, since: nat, mins: u8, last: nat, gap: nat)
    requires Guarded(s, o, since, mins, last) && last <= now.ms <= last + gap && gap <= MAX_GAP
    requires Admissible(s, x, now)
    ensures Settled(s, Step(s, x, now), o, since, mins, if x.PollNow? then now.ms else last, gap)
  {
    hide Poll, Stop, StartQuick, StartStored, StartZone, TurnOffFrom, StartEach, Report, Inv, Tiled, RouteOf, Accepts,
         ClosedBy, PauseEnd, FirstFrom, StatusBits, SetAccepted, SettingsSafe, EditAllowed;
    var limit := since + mins * 60000 + gap;
    OutputOfLit(s);
    match x
    case PollNow => GuardedPoll(s, o, since, mins, last, now, gap);
    case QuickRun(edits, sched) =>
      StopCloses(s, now, |s.log|, limit);
      ClosedByGrows(Stop(s, now).log, Step(s, x, now).log, |s.log|, o, limit);
    case Manual(st, ch, m) => if st < MAX_STATIONS { StartZoneCloses(s, st, ch, m, now, |s.log|, limit); }
    case AllOff => TurnOffFromCloses(s, 0, s.zone, now, |s.log|, limit);
    case ZonesSetFrame(m) =>
      if SetAccepted(s, m) {
        AcceptedStation(s, m);
        TurnOffFromCloses(s, 0, s.zone, now, |s.log|, limit);
        StartEachCloses(s, m, m.first, now, |s.log|, limit);
      }
    case ReportFrame(m) => ReportGuard(s, m, o, since, mins, last);
    case Pause(minutes) => PauseGuard(s, minutes, now, o, since, mins, last, gap);
    case Switch(on) => SettingsGuard(s, s.(running := on), o, since, mins, last);
    case SaveSchedule(k, entry) =>
      if k <= s.numSchedules && k < MAX_SCHEDULES {
        var s1 := s.(table := s.table[k := entry], numSchedules := Max(s.numSchedules, k + 1));
        SettingsGuard(s, s1, o, since, mins, last);
        StopCloses(s1, now, |s.log|, limit);
        ClosedByGrows(Stop(s1, now).log, Poll(Stop(s1, now), now).log, |s.log|, o, limit);
      }
    case DeleteSchedule(k) =>
      if k < s.numSchedules {
        SettingsGuard(s, Shifted(s, k), o, since, mins, last);
        StopAndPollCloses(Shifted(s, k), now, |s.log|, limit);
      }
    case SaveSettings(seasonal, types) => NewSettingsGuard(s, seasonal, types, now, o, since, mins, last, gap);
    case EditZones(zones) => if |zones| == MAX_ZONES { EditGuard(s, zones, o, since, mins, last); }
    case StatusPage => SettingsGuard(s, CheckPause(s, now), o, since, mins, last);
    case Second => TickGuard(s, o, since, mins, last);
  }

  lemma PauseGuard(s: State, minutes: int, now: Moment, o: Route, since: nat, mins: u8, last: nat, gap: nat)
    requires Guarded(s, o, since, mins, last) && last <= now.ms <= last + gap && gap <= MAX_GAP
    ensures Settled(s, SetPause(s, minutes, now), o, since, mins, last, gap)
  {
    hide Poll, Stop, Inv, Tiled, RouteOf, Accepts, ClosedBy, PauseEnd;
    var limit := since + mins * 60000 + gap;
    OutputOfLit(s);
    if minutes != 0 && s.running {
      StopCloses(s, now, |s.log|, limit);
      ClosedByGrows(Stop(s, now).log, SetPause(s, minutes, now).log, |s.log|, o, limit);
    } else {
      var s1 := s.(endPause := if minutes == 0 then 0 else PauseEnd(minutes, now));
      SettingsGuard(s, s1, o, since, mins, last);
      GuardedPoll(s1, o, since, mins, last, now, gap);
    }
  }

  /** New settings close the valve, by the set-up or by the stop after it, or leave it
      alone. */
  lemma NewSettingsGuard(s: State, seasonal: u8, types: seq<u8>, now: Moment,
                         o: Route, since: nat, mins: u8, last: nat, gap: nat)
    requires Guarded(s, o, since, mins, last) && last <= now.ms <= last + gap && SettingsSafe(s, types, now)
    ensures Settled(s, Step(s, SaveSettings(seasonal, types), now), o, since, mins, last, gap)
  {
    hide Stop, Poll, Inv, Tiled, ClosedBy, SetOutputTypes, StopAndPoll, RouteOf, Accepts;
    var t := SetOutputTypes(s, types, now);
    AllSetUp(s, types, now);
    RoutesKeep(s, t, s.zone);
    var r := Seasoned(t, seasonal);
    var limit := since + mins * 60000 + gap;
    OutputOfLit(s);
    SeasonedRoutes(t, seasonal, s.zone, o);
    StopAndPollGrows(r, now);
    if o !in t.outputs {
      AllDriven(s, types, now);
      DrivenCloses(s, t, o, now.ms, limit);
      ClosedByGrows(t.log, StopAndPoll(r, now).log, |s.log|, o, limit);
    } else {
      StopAndPollCloses(r, now, |s.log|, limit);
      assert t.outputs == s.outputs;
      if !s.running {
        SameOutputsKeep(s, t);
        SettingsKeep(t, r);
        SettingsKeepTiling(s.cfg, r.cfg);
        LitKeeps(s, r);
      }
    }
  }

  lemma DrivenCloses(s: State, t: State, o: Route, ms: nat, limit: nat)
    requires Driven(s, t, ms) && o in s.outputs && o !in t.outputs && ms <= limit
    ensures ClosedBy(t.log, |s.log|, o, limit)
  {
    var k :| |s.log| <= k < |t.log| && t.log[k].Reset? && o in t.log[k].off && t.log[k].ms == ms;
    assert Closes(t.log[k], o);
  }

  lemma SeasonedRoutes(s: State, seasonal: u8, z: nat, o: Route)
    ensures var r := Seasoned(s, seasonal);
            RouteOf(r.cfg, z) == RouteOf(s.cfg, z) && Accepts(r.cfg, o) == Accepts(s.cfg, o)
  {}

  lemma StopAndPollGrows(s: State, now: Moment)
    ensures s.log <= StopAndPoll(s, now).log
  {
    hide Stop, Poll;
  }

  lemma LitKeeps(s: State, r: State)
    requires Lit(s) && r.zone == s.zone && r.cache == s.cache
    requires r.cfg == s.cfg.(boards := r.cfg.boards, seasonal := r.cfg.seasonal)
    ensures Lit(r)
  {}

  lemma ReportGuard(s: State, m: ZonesReport, o: Route, since: nat, mins: u8, last: nat)
    requires Guarded(s, o, since, mins, last) && !IsLocalStation(s.cfg, m.from)
    ensures var r := HandleReport(s, m); Guarded(r, o, since, mins, last) && r.log == s.log
  {
    ReportKeeps(s, m.from, m.data);
    if m.from < MAX_STATIONS {
      var st := s.cfg.stations[m.from];
      if st.valid && st.enabled && st.startZone <= s.zone < st.startZone + st.channels {
        assert Owns(s.cfg, m.from, s.zone - st.startZone);
      }
    }
  }

  lemma TickGuard(s: State, o: Route, since: nat, mins: u8, last: nat)
    requires Guarded(s, o, since, mins, last)
    ensures Guarded(Tick(s), o, since, mins, last) && Tick(s).log == s.log
  {
    TickKeeps(s);
    assert s.cache[s.zone] == ZONE_STATE_RUNNING;
  }

  // ----- any number of inputs -----

  /** The minutes of an opening and one poll gap are over at `t`. */
  predicate Overdue(since: nat, mins: u8, gap: nat, t: nat)
  {
    var limit := since + mins * 60000 + gap;
    t > limit || (t == limit && mins > 0)
  }

  lemma {:induction false} GuardedRun(s: State, xs: seq<Timed>, o: Route, since: nat, mins: u8,
                                      last: nat, prev: nat, gap: nat)
    requires Guarded(s, o, since, mins, last) && gap <= MAX_GAP && last <= prev <= last + gap
    requires AllAdmissible(s, xs) && Polled(last, prev, xs, gap)
    requires Overdue(since, mins, gap, LastTime(prev, xs))
    ensures ClosedBy(Run(s, xs).log, |s.log|, o, since + mins * 60000 + gap)
    decreases |xs|
  {
    hide Step, ClosedBy, Admissible, Inv, Tiled, Lit, RouteOf;
    assert xs != [];
    var x, now := xs[0].input, xs[0].now;
    var r := Step(s, x, now);
    GuardedStep(s, x, now, o, since, mins, last, gap);
    var limit := since + mins * 60000 + gap;
    if ClosedBy(r.log, |s.log|, o, limit) {
      RunOnward(r, xs[1..]);
      ClosedByGrows(r.log, Run(r, xs[1..]).log, |s.log|, o, limit);
    } else {
      LastTimeTail(prev, xs);
      GuardedRun(r, xs[1..], o, since, mins, if x.PollNow? then now.ms else last, now.ms, gap);
    }
  }

  lemma LastTimeTail(prev: nat, xs: seq<Timed>)
    requires xs != []
    ensures LastTime(prev, xs) == LastTime(xs[0].now.ms, xs[1..])
  {}

  lemma {:induction false} RunOnward(s: State, xs: seq<Timed>)
    ensures s.log <= Run(s, xs).log
    decreases |xs|
  {
    hide Step;
    if xs != [] {
      StepLogged(s, xs[0].input, xs[0].now);
      RunOnward(Step(s, xs[0].input, xs[0].now), xs[1..]);
    }
  }

  // ----- every opening in the history -----

  /** A local opening that nothing has closed is the last one, and its output is on. */
  lemma {:induction false} UnclosedIsOn(log: seq<Event>, k: nat)
    requires Interlocked(log) && k < |log| && log[k].On? && log[k].route.Local()
    requires forall j | k < j < |log| :: !Closes(log[j], log[k].route)
    ensures log[k].route in Energised(log) && LastOn(log) == OnAt(log[k].route, log[k].mins, log[k].ms)
    decreases |log|
  {
    var n := |log| - 1;
    var before := log[..n];
    assert log == before + [log[n]];
    Append(before, log[n]);
    if k < n { UnclosedIsOn(before, k); }
  }

  /** The opening at position `k` was closed in time, or its time is not over yet. */
  ghost predicate InTime(log: seq<Event>, k: nat, gap: nat, t: nat)
    requires k < |log| && log[k].On?
  {
    var e := log[k];
    Overdue(e.ms, e.mins, gap, t) ==> ClosedBy(log, k + 1, e.route, e.ms + e.mins * 60000 + gap)
  }

  lemma PolledLater(last: nat, later: nat, prev: nat, xs: seq<Timed>, gap: nat)
    requires Polled(last, prev, xs, gap) && last <= later <= prev
    ensures Polled(later, prev, xs, gap)
    decreases |xs|
  {
    if xs != [] && !xs[0].input.PollNow? { PolledLater(last, later, xs[0].now.ms, xs[1..], gap); }
  }

  /** The state after an input that opened a valve and left it open. */
  lemma OpenedIsGuarded(r: State, k: nat, ms: nat)
    requires Inv(r) && Tiled(r.cfg) && k < |r.log| && r.log[k].On? && r.log[k].route.Local() && r.log[k].ms == ms
    requires forall j | k < j < |r.log| :: !Closes(r.log[j], r.log[k].route)
    ensures Guarded(r, r.log[k].route, ms, r.log[k].mins, ms)
  {
    hide Energised, Interlocked, LastOn, Honest, Used;
    UnclosedIsOn(r.log, k);
  }

  /** An opening made by the first input of a run. */
  lemma FirstOpening(s: State, xs: seq<Timed>, last: nat, prev: nat, gap: nat, k: nat)
    requires Inv(s) && Tiled(s.cfg) && xs != [] && AllAdmissible(s, xs) && Polled(last, prev, xs, gap)
    requires last <= prev && gap <= MAX_GAP
    requires var r := Step(s, xs[0].input, xs[0].now);
             |s.log| <= k < |r.log| && r.log[k].On? && r.log[k].route.Local()
    ensures var R := Run(s, xs);
            k < |R.log| && R.log[k] == Step(s, xs[0].input, xs[0].now).log[k]
            && InTime(R.log, k, gap, LastTime(prev, xs))
  {
    hide Step, Inv, Tiled, Guarded, ClosedBy, Admissible;
    var x, now := xs[0].input, xs[0].now;
    var r, R := Step(s, x, now), Run(s, xs);
    StepKeeps(s, x, now);
    StepTiled(s, x, now);
    StepLogged(s, x, now);
    RunOnward(r, xs[1..]);
    LastTimeTail(prev, xs);
    var e := r.log[k];
    var limit := e.ms + e.mins * 60000 + gap;
    assert Stamped(e, now.ms);
    if forall j | k < j < |r.log| :: !Closes(r.log[j], e.route) {
      OpenedIsGuarded(r, k, now.ms);
      PolledLater(if x.PollNow? then now.ms else last, now.ms, now.ms, xs[1..], gap);
      if Overdue(e.ms, e.mins, gap, LastTime(prev, xs)) {
        GuardedRun(r, xs[1..], e.route, now.ms, e.mins, now.ms, now.ms, gap);
        ClosedBySooner(R.log, |r.log|, k + 1, e.route, limit);
      }
    } else {
      var j :| k < j < |r.log| && Closes(r.log[j], e.route);
      assert Stamped(r.log[j], now.ms);
      ClosedAt(r.log, k + 1, j, e.route, limit);
      ClosedByGrows(r.log, R.log, k + 1, e.route, limit);
    }
  }

  lemma ClosedAt(log: seq<Event>, from: nat, j: nat, o: Route, limit: nat)
    requires from <= j < |log| && Closes(log[j], o) && log[j].ms <= limit
    ensures ClosedBy(log, from, o, limit)
  {}

  lemma ClosedBySooner(log: seq<Event>, from: nat, sooner: nat, o: Route, limit: nat)
    requires ClosedBy(log, from, o, limit) && sooner <= from
    ensures ClosedBy(log, sooner, o, limit)
  {}

  /** In any admissible run from any sound state, every opening of a valve of this unit
      is followed by its closing within its minutes and one poll gap. */
  lemma {:induction false} OpeningsInTime(s: State, xs: seq<Timed>, last: nat, prev: nat, gap: nat, k: nat)
    requires Inv(s) && Tiled(s.cfg) && AllAdmissible(s, xs) && Polled(last, prev, xs, gap)
    requires last <= prev && gap <= MAX_GAP
    requires var R := Run(s, xs); |s.log| <= k < |R.log| && R.log[k].On? && R.log[k].route.Local()
    ensures InTime(Run(s, xs).log, k, gap, LastTime(prev, xs))
    decreases |xs|
  {
    hide Step, Inv, Tiled, InTime, Admissible;
    var x, now := xs[0].input, xs[0].now;
    var r := Step(s, x, now);
    RunOnward(r, xs[1..]);
    if k < |r.log| {
      FirstOpening(s, xs, last, prev, gap, k);
    } else {
      StepKeeps(s, x, now);
      StepTiled(s, x, now);
      LastTimeTail(prev, xs);
      OpeningsInTime(r, xs[1..], if x.PollNow? then now.ms else last, now.ms, gap, k);
    }
  }

  /** No valve of this unit ever stays open longer than the minutes it was opened for and
      one poll gap: for stored, quick, manual and remote starts, in every admissible run
      from power-up, whatever else comes or fails to come. */
  lemma NeverTooLong(s: State, xs: seq<Timed>, start: nat, gap: nat)
    requires Boot(s) && AllAdmissible(s, xs) && Polled(start, start, xs, gap) && gap <= MAX_GAP
    ensures var log := Run(s, xs).log;
            forall k | 0 <= k < |log| && log[k].On? && log[k].route.Local() :: InTime(log, k, gap, LastTime(start, xs))
  {
    hide Run, InTime, AllAdmissible, Polled;
    var log := Run(s, xs).log;
    forall k | 0 <= k < |log| && log[k].On? && log[k].route.Local()
      ensures InTime(log, k, gap, LastTime(start, xs))
    {
      OpeningsInTime(s, xs, start, start, gap, k);
    }
  }

  /** In particular a remote that takes a start request for 1 to 254 minutes at time T
      closes the zone at most (ttr + 1) minutes and one poll gap after T: let frames be
      lost in any pattern, the master fall silent for good, or anything else happen. */
  lemma RemoteZoneIsClosed(s: State, st: u8, ch: u8, ttr: u8, now: Moment, xs: seq<Timed>, gap: nat)
    requires Inv(s) && Tiled(s.cfg) && s.running && 1 <= ttr <= 254 && IsLocalStation(s.cfg, st)
    requires var x := s.cfg.stations[st]; x.valid && x.enabled && x.rcontrol && ch < x.channels
    requires var z := s.cfg.stations[st].startZone + ch; Accepts(s.cfg, RouteOf(s.cfg, z))
    requires AllAdmissible(HandleSet(s, ForceSingleZone(st, ch, ttr), now), xs)
    requires Polled(now.ms, now.ms, xs, gap) && gap <= MAX_GAP
    requires LastTime(now.ms, xs) >= now.ms + (ttr + 1) * 60000 + gap
    ensures var o := RouteOf(s.cfg, s.cfg.stations[st].startZone + ch);
            var r := HandleSet(s, ForceSingleZone(st, ch, ttr), now);
            && r.outputs == {o} && ClosedBy(Run(r, xs).log, |r.log|, o, now.ms + (ttr + 1) * 60000 + gap)
  {
    hide Run, AllAdmissible, Polled, LastTime, ClosedBy, RemoteStart, StartEach, Step;
    var m := ForceSingleZone(st, ch, ttr);
    assert Owns(s.cfg, st, ch);
    var z := s.cfg.stations[st].startZone + ch;
    TargetOf(s, st, ch);
    OneZoneStart(s, st, ch, ttr, now);
    SetBitReads(0, ch, ch);
    StartEachOnce(s, m, ch, now);
    var r := HandleSet(s, m, now);
    GuardedRun(r, xs, RouteOf(s.cfg, z), now.ms, ttr + 1, now.ms, now.ms, gap);
  }
}
