/** The rain pause: it keeps schedules from starting, and it lifts. */
module Pause {
  import opened Words
  import opened Site
  import opened Scheduler
  import opened ZoneProtocol
  import opened OutputType
  import opened Runs
  import opened Undisturbed
  import opened QuietRuns
  import NextEvent

  /** The search never answers a time before the minute it was asked from. */
  lemma NextNotBefore(table: seq<Schedule>, now: Moment, from: int)
    ensures var e := NextEvent.Next(table, now, from); e.Some? ==> e.time >= from
  {
    NextEvent.NextIsMinimum(table, now, from);
  }

  /** While a pause has minutes left, a poll changes nothing: the search begins past
      the current minute, so no start time can match it. The sum must fit a `short`. */
  lemma PauseHolds(s: State, now: Moment)
    requires s.running && s.schedule == NO_SCHEDULE
    requires RemainingPause(s, now) > 0 && now.minute + RemainingPause(s, now) < 0x8000
    ensures Poll(s, now) == s
  {
    hide StartStored, NextEvent.Next, RemainingPause;
    NextNotBefore(s.table[..s.numSchedules], now, Int16(now.minute + RemainingPause(s, now)));
  }

  /** True time at which a pause set at `now` ends: the millisecond after, when the
      exact one would read as no pause. */
  function EndTime(mins: nat, now: Moment): nat
  {
    var end := now.ms + mins * 60000;
    if Wrap32(end) == 0 then end + 1 else end
  }

  /** The remaining pause is the true one, on either side of a clock wrap. */
  lemma RemainingIsTrue(s: State, mins: nat, set_: Moment, now: Moment)
    requires 1 <= mins < 0x8000 && s.endPause == PauseEnd(mins, set_)
    requires set_.ms <= now.ms <= EndTime(mins, set_)
    ensures RemainingPause(s, now) == (EndTime(mins, set_) - now.ms) / 60000
  {
    var end := EndTime(mins, set_);
    PauseEndIsWrapped(mins, set_);
    ElapsedIsTrueInterval(now.ms, end);
    assert 0 <= (end - now.ms) / 60000 < 0x8000;
    hide EndTime, PauseEnd, Elapsed, Wrap32;
  }

  lemma PauseEndIsWrapped(mins: nat, now: Moment)
    requires 1 <= mins < 0x8000
    ensures PauseEnd(mins, now) == Wrap32(EndTime(mins, now)) != 0
  {
    var d := mins * 60000;
    assert Wrap32(mins) == mins && Wrap32(d) == d;
    WrapPlus(now.ms, d);
    if Wrap32(now.ms + d) == 0 { WrapPlus(now.ms + d, 1); }
    hide Wrap32;
  }

  lemma WrapPlus(a: nat, b: nat)
    ensures Wrap32(Wrap32(a) + b) == Wrap32(a + b)
  {
    var k := a / TWO32;
    assert a == k * TWO32 + Wrap32(a);
    assert a + b == k * TWO32 + (Wrap32(a) + b);
  }

  function PollRun(s: State, ps: seq<Moment>): State
    decreases |ps|
  {
    if ps == [] then s else PollRun(Poll(s, ps[0]), ps[1..])
  }

  /** An idle unit paused for up to 31328 minutes and polled at least once a minute:
      some poll no later than the end lifts the pause, and until then no poll
      changes anything. */
  lemma {:induction false} PauseLifts(s: State, mins: nat, set_: Moment, prev: nat, ps: seq<Moment>) returns (k: nat)
    requires s.running && s.schedule == NO_SCHEDULE && 1 <= mins <= 31328
    requires s.endPause == PauseEnd(mins, set_)
    requires set_.ms <= prev <= EndTime(mins, set_) - 60000 && Steady(prev, ps, 60000)
    requires ps != [] && ps[|ps| - 1].ms >= EndTime(mins, set_)
    ensures k < |ps| && ps[k].ms <= EndTime(mins, set_)
    ensures forall i | 0 <= i <= k :: PollRun(s, ps[..i]) == s
    ensures Poll(s, ps[k]).endPause == 0
    decreases |ps|
  {
    hide Poll, RemainingPause, EndTime, PauseEnd;
    var p := ps[0];
    var end := EndTime(mins, set_);
    RemainingIsTrue(s, mins, set_, p);
    if end - p.ms < 60000 {
      k := 0;
      IdlePollClears(s, p);
      assert ps[..0] == [];
    } else {
      RemainingBound(mins, set_, p);
      PauseHolds(s, p);
      assert |ps| > 1;
      var j := PauseLifts(s, mins, set_, p.ms, ps[1..]);
      k := j + 1;
      forall i | 0 <= i <= k ensures PollRun(s, ps[..i]) == s {
        if i > 0 {
          assert ps[..i][1..] == ps[1..][..i - 1] && ps[..i][0] == p;
        }
      }
    }
  }

  lemma RemainingBound(mins: nat, set_: Moment, now: Moment)
    requires 1 <= mins <= 31328 && set_.ms <= now.ms <= EndTime(mins, set_)
    ensures now.minute + (EndTime(mins, set_) - now.ms) / 60000 < 0x8000
  {}

  lemma IdlePollClears(s: State, now: Moment)
    requires s.running && s.schedule == NO_SCHEDULE && RemainingPause(s, now) == 0
    ensures Poll(s, now).endPause == 0
  {
    hide NextEvent.Next, RemainingPause, Int16, StartStored;
    var e := NextStart(s, now);
    if e.Some? { StartKeepsPause(CheckPause(s, now), Wrap8(e.sched), now); }
  }

  lemma StartKeepsPause(s: State, id: u8, now: Moment)
    requires s.schedule == NO_SCHEDULE
    ensures StartStored(s, id, now).endPause == s.endPause
  {
    hide ZoneMinutes, RouteOf, Accepts;
  }

  // ----- setting a pause -----

  /** A pause request sets a pause of that many minutes, which is then the time left at
      every later moment. Whatever ran is stopped; nothing else changes, unless the
      pause is so long that minute and pause exceed a `short`. */
  lemma PauseSets(s: State, mins: nat, now: Moment)
    requires 1 <= mins < 0x8000
    ensures var r := SetPause(s, mins, now);
            && r.endPause == PauseEnd(mins, now)
            && now.ms + mins * 60000 <= EndTime(mins, now) <= now.ms + mins * 60000 + 1
            && (forall t: Moment | now.ms <= t.ms <= EndTime(mins, now) ::
                  RemainingPause(r, t) == (EndTime(mins, now) - t.ms) / 60000)
            && (!s.running || now.minute + mins < 0x8000 ==> r == Stop(s, now).(endPause := PauseEnd(mins, now)))
  {
    hide Poll, RemainingPause, PauseEnd, Stop;
    var r := SetPause(s, mins, now);
    var s1 := (if s.running then Stop(s, now) else s).(endPause := PauseEnd(mins, now));
    RemainingIsTrue(s1, mins, now, now);
    assert (EndTime(mins, now) - now.ms) / 60000 == mins;
    if s.running {
      StopIsIdle(s, now);
      IdlePollKeepsPause(s1, now);
      if now.minute + mins < 0x8000 { PauseHolds(s1, now); }
    } else {
      ActivePollKeepsPause(s1, now);
      StopWithPause(s, s1.endPause, now);
    }
    forall t: Moment | now.ms <= t.ms <= EndTime(mins, now)
      ensures RemainingPause(r, t) == (EndTime(mins, now) - t.ms) / 60000
    {
      RemainingIsTrue(r, mins, now, t);
    }
  }

  lemma StopIsIdle(s: State, now: Moment)
    ensures Stop(s, now).schedule == NO_SCHEDULE && Stop(s, now).endPause == s.endPause
  {
    hide RouteOf, Accepts, Minutes;
  }

  lemma StopWithPause(s: State, end: u32, now: Moment)
    requires !s.running
    ensures Poll(s.(endPause := end), now) == Stop(s, now).(endPause := end)
  {
    hide RouteOf, Accepts, Minutes;
  }

  /** Zero minutes lift the pause; without one they do nothing. */
  lemma PauseCleared(s: State, now: Moment)
    ensures SetPause(s, 0, now).endPause == 0 && (s.endPause == 0 ==> SetPause(s, 0, now) == s)
  {
    hide Poll;
    var s1 := s.(endPause := 0);
    if s.running && s.schedule == NO_SCHEDULE { IdlePollClears(s1, now); } else { ActivePollKeepsPause(s1, now); }
  }

  /** Requests that start something by themselves, or set another pause. */
  predicate Demands(x: Input) { x.QuickRun? || x.Manual? || x.ZonesSetFrame? || x.Pause? }

  /** Minute and remaining pause fit a `short` at every input, and the pause has minutes left. */
  predicate Fitting(xs: seq<Timed>, end: nat)
  {
    forall i | 0 <= i < |xs| :: xs[i].now.ms + 60000 <= end && xs[i].now.minute + (end - xs[i].now.ms) / 60000 < 0x8000
  }

  /** Nothing was opened or begun between two logs. */
  ghost predicate NothingOpened(a: seq<Event>, b: seq<Event>)
  {
    a <= b && forall k | |a| <= k < |b| :: !b[k].On? && !b[k].Begin?
  }

  /** Idle, and paused until `end`. */
  ghost predicate Resting(s: State, mins: nat, set_: Moment)
  {
    s.schedule == NO_SCHEDULE && s.endPause == PauseEnd(mins, set_)
  }

  lemma RestingPoll(s: State, mins: nat, set_: Moment, now: Moment)
    requires 1 <= mins < 0x8000 && Resting(s, mins, set_)
    requires set_.ms <= now.ms && Fitting([Timed(PollNow, now)], EndTime(mins, set_))
    ensures Poll(s, now) == s && Stop(s, now) == s && CheckPause(s, now) == s
  {
    hide RemainingPause, EndTime, PauseEnd;
    var xs := [Timed(PollNow, now)];
    assert xs[0].now == now;
    RemainingIsTrue(s, mins, set_, now);
    if s.running { PauseHolds(s, now); }
  }

  lemma RestingStep(s: State, mins: nat, set_: Moment, x: Input, now: Moment)
    requires 1 <= mins < 0x8000 && Resting(s, mins, set_) && !Demands(x)
    requires set_.ms <= now.ms && Fitting([Timed(PollNow, now)], EndTime(mins, set_))
    ensures var r := Step(s, x, now); Resting(r, mins, set_) && NothingOpened(s.log, r.log)
  {
    hide Poll, Stop, RemainingPause, EndTime, PauseEnd, TurnOffAll, SetOutputTypes, Fitting, Tick, Report;
    RestingPoll(s, mins, set_, now);
    match x
    case AllOff => AllOffRests(s, now);
    case SaveSchedule(k, entry) =>
    case DeleteSchedule(k) => if k < s.numSchedules { RestingPoll(Shifted(s, k), mins, set_, now); }
    case SaveSettings(seasonal, types) =>
      TypesRest(s, types, now);
      RestingPoll(Seasoned(SetOutputTypes(s, types, now), seasonal), mins, set_, now);
    case ReportFrame(m) => ReportRests(s, m);
    case Second => TickRests(s);
    case _ =>
  }

  lemma TickRests(s: State)
    ensures Tick(s) == s.(cache := Tick(s).cache)
  {}

  lemma ReportRests(s: State, m: ZonesReport)
    ensures HandleReport(s, m) == s.(cache := HandleReport(s, m).cache)
  {}

  lemma {:induction false} AllOffFromRests(s: State, z: nat, now: Moment)
    requires z <= s.cfg.numZones
    ensures var r := TurnOffFrom(s, z, now); r.endPause == s.endPause && NothingOpened(s.log, r.log)
    decreases s.cfg.numZones - z
  {
    hide RouteOf, Accepts;
    if z < s.cfg.numZones {
      AllOffFromRests(if s.cache[z] != ZONE_STATE_OFF then TurnOff(s, z, now) else s, z + 1, now);
    }
  }

  lemma AllOffRests(s: State, now: Moment)
    ensures var r := TurnOffAll(s, now);
            r.schedule == NO_SCHEDULE && r.endPause == s.endPause && NothingOpened(s.log, r.log)
  {
    AllOffFromRests(s, 0, now);
  }

  lemma {:induction false} TypesRest(s: State, types: seq<u8>, now: Moment)
    ensures var r := SetOutputTypes(s, types, now);
            r.schedule == s.schedule && r.endPause == s.endPause && NothingOpened(s.log, r.log)
    decreases |types|
  {
    if types != [] { TypesRest(SetOutputType(s, types[0], now), types[1..], now); }
  }

  /** From the request for a pause to its last minute no schedule runs and nothing is
      opened, whatever comes that does not itself demand a start: polls, ticks, reports,
      edits of schedules, zones and settings, switching schedules off and on. */
  lemma PausedUnitRests(s: State, mins: nat, set_: Moment, xs: seq<Timed>)
    requires 1 <= mins < 0x8000 && set_.minute + mins < 0x8000
    requires forall i | 0 <= i < |xs| :: set_.ms <= xs[i].now.ms && !Demands(xs[i].input)
    requires Fitting(xs, EndTime(mins, set_))
    ensures var r := Run(Step(s, Input.Pause(mins), set_), xs);
            r.schedule == NO_SCHEDULE && NothingOpened(Stop(s, set_).log, r.log)
  {
    hide Run, Step, Stop, EndTime, Fitting, Resting;
    RestBegins(s, mins, set_);
    RestingRun(Step(s, Input.Pause(mins), set_), mins, set_, xs);
    assert Run(Step(s, Input.Pause(mins), set_), xs).schedule == NO_SCHEDULE by {
      RestingIsIdle(Run(Step(s, Input.Pause(mins), set_), xs), mins, set_);
    }
  }

  lemma RestBegins(s: State, mins: nat, set_: Moment)
    requires 1 <= mins < 0x8000 && set_.minute + mins < 0x8000
    ensures var r := Step(s, Input.Pause(mins), set_); Resting(r, mins, set_) && r.log == Stop(s, set_).log
  {
    hide Stop, SetPause, PauseEnd, EndTime, RemainingPause;
    PauseSets(s, mins, set_);
    StopIsIdle(s, set_);
  }

  lemma RestingIsIdle(s: State, mins: nat, set_: Moment)
    requires Resting(s, mins, set_)
    ensures s.schedule == NO_SCHEDULE
  {}

  lemma {:induction false} RestingRun(s: State, mins: nat, set_: Moment, xs: seq<Timed>)
    requires 1 <= mins < 0x8000 && Resting(s, mins, set_)
    requires forall i | 0 <= i < |xs| :: set_.ms <= xs[i].now.ms && !Demands(xs[i].input)
    requires Fitting(xs, EndTime(mins, set_))
    ensures Resting(Run(s, xs), mins, set_) && NothingOpened(s.log, Run(s, xs).log)
    decreases |xs|
  {
    hide Step, EndTime, PauseEnd;
    if xs != [] {
      var r := Step(s, xs[0].input, xs[0].now);
      RestingStep(s, mins, set_, xs[0].input, xs[0].now);
      RestingRun(r, mins, set_, xs[1..]);
      var last := Run(s, xs);
      forall k | |s.log| <= k < |last.log| ensures !last.log[k].On? && !last.log[k].Begin? {
        if k < |r.log| { assert last.log[k] == r.log[k]; }
      }
    }
  }

  // ----- the last minute -----

  /** Inputs that look at the remaining pause. */
  predicate ReadsPause(s: State, x: Input)
  {
    x.StatusPage? || (x.PollNow? && s.running && s.schedule == NO_SCHEDULE)
  }

  /** Times that do not run backwards, from `prev` to `end`. */
  predicate Between(prev: nat, xs: seq<Timed>, end: nat)
    decreases |xs|
  {
    xs == [] || (prev <= xs[0].now.ms <= end && Between(xs[0].now.ms, xs[1..], end))
  }

  /** Input number `k` looks at the pause in its last minute. */
  predicate LooksInTime(s: State, xs: seq<Timed>, k: nat, end: nat)
    requires k < |xs|
  {
    xs[k].now.ms + 60000 > end && ReadsPause(Run(s, xs[..k]), xs[k].input)
  }

  lemma {:induction false} RunShift(s: State, xs: seq<Timed>, k: nat, end: nat)
    requires 1 <= k < |xs|
    ensures LooksInTime(s, xs, k, end) <==> LooksInTime(Step(s, xs[0].input, xs[0].now), xs[1..], k - 1, end)
  {
    hide Step;
    assert xs[..k][1..] == xs[1..][..k - 1];
  }

  lemma ActivePollKeepsPause(s: State, now: Moment)
    requires !s.running || s.schedule != NO_SCHEDULE
    ensures Poll(s, now).endPause == s.endPause
  {
    hide Minutes, WaterOf, RouteOf, Accepts, ZoneMinutes, FirstFrom;
  }

  lemma IdlePollKeepsPause(s: State, now: Moment)
    requires s.running && s.schedule == NO_SCHEDULE && RemainingPause(s, now) > 0
    ensures Poll(s, now).endPause == s.endPause
  {
    hide NextEvent.Next, RemainingPause, Int16, StartStored;
    var e := NextStart(s, now);
    if e.Some? { StartKeepsPause(CheckPause(s, now), Wrap8(e.sched), now); }
  }

  /** One quiet input no later than the end of a pause. */
  lemma StepOfPause(s: State, mins: nat, set_: Moment, x: Input, now: Moment)
    requires 1 <= mins < 0x8000 && s.endPause == PauseEnd(mins, set_) && Quiet(x)
    requires set_.ms <= now.ms <= EndTime(mins, set_)
    ensures Step(s, x, now).endPause ==
            if ReadsPause(s, x) && now.ms + 60000 > EndTime(mins, set_) then 0 else s.endPause
  {
    hide Poll, RemainingPause, EndTime, PauseEnd;
    RemainingIsTrue(s, mins, set_, now);
    PauseEndIsWrapped(mins, set_);
    if x.PollNow? {
      if !ReadsPause(s, x) {
        ActivePollKeepsPause(s, now);
      } else if now.ms + 60000 > EndTime(mins, set_) {
        IdlePollClears(s, now);
      } else {
        IdlePollKeepsPause(s, now);
      }
    }
  }

  lemma LiftedStays(s: State, x: Input, now: Moment)
    requires s.endPause == 0 && Quiet(x)
    ensures Step(s, x, now).endPause == 0
  {
    hide Poll;
    if x.PollNow? {
      if ReadsPause(s, x) { IdlePollClears(s, now); } else { ActivePollKeepsPause(s, now); }
    }
  }

  lemma {:induction false} LiftedForGood(s: State, xs: seq<Timed>)
    requires s.endPause == 0 && AllQuiet(xs)
    ensures Run(s, xs).endPause == 0
    decreases |xs|
  {
    hide Step;
    if xs != [] {
      LiftedStays(s, xs[0].input, xs[0].now);
      LiftedForGood(Step(s, xs[0].input, xs[0].now), xs[1..]);
    }
  }

  /** A pause is lifted by its end exactly if something looks at it in its last minute:
      an idle poll with schedules on, or the status page. Schedules may run, end or be
      off meanwhile. */
  lemma {:induction false} LiftedExactly(s: State, mins: nat, set_: Moment, prev: nat, xs: seq<Timed>)
    requires 1 <= mins < 0x8000 && s.endPause == PauseEnd(mins, set_) && AllQuiet(xs)
    requires set_.ms <= prev && Between(prev, xs, EndTime(mins, set_))
    ensures Run(s, xs).endPause == 0 <==> exists k :: 0 <= k < |xs| && LooksInTime(s, xs, k, EndTime(mins, set_))
    decreases |xs|
  {
    hide Step, EndTime, PauseEnd, ReadsPause;
    var end := EndTime(mins, set_);
    PauseEndIsWrapped(mins, set_);
    if xs != [] {
      var x, now := xs[0].input, xs[0].now;
      var r := Step(s, x, now);
      StepOfPause(s, mins, set_, x, now);
      assert xs[..0] == [] && Run(s, []) == s;
      if r.endPause == 0 {
        LiftedForGood(r, xs[1..]);
        assert LooksInTime(s, xs, 0, end);
      } else {
        LiftedExactly(r, mins, set_, now.ms, xs[1..]);
        assert !LooksInTime(s, xs, 0, end);
        forall k | 1 <= k < |xs| ensures LooksInTime(s, xs, k, end) == LooksInTime(r, xs[1..], k - 1, end) {
          RunShift(s, xs, k, end);
        }
        if exists k :: 0 <= k < |xs| - 1 && LooksInTime(r, xs[1..], k, end) {
          var k :| 0 <= k < |xs| - 1 && LooksInTime(r, xs[1..], k, end);
          assert LooksInTime(s, xs, k + 1, end);
        }
      }
    }
  }

  /** A pause that is not lifted by its end comes back for some four days: nothing
      starts while up to 6000 minutes have passed. */
  lemma MissedPauseReturns(s: State, mins: nat, set_: Moment, now: Moment)
    requires 1 <= mins < 0x8000 && s.endPause == PauseEnd(mins, set_)
    requires EndTime(mins, set_) < now.ms <= EndTime(mins, set_) + 6000 * 60000
    ensures RemainingPause(s, now) == (TWO32 - (now.ms - EndTime(mins, set_))) / 60000 - 0x1_0000 >= 45
    ensures s.running && s.schedule == NO_SCHEDULE ==> Poll(s, now) == s
  {
    hide Poll, EndTime, PauseEnd;
    var end := EndTime(mins, set_);
    PauseEndIsWrapped(mins, set_);
    var late := now.ms - end;
    assert Elapsed(s.endPause, now.Millis()) == TWO32 - late by {
      ElapsedIsTrueInterval(end, now.ms);
      assert Elapsed(Wrap32(now.ms), Wrap32(end)) == late;
    }
    assert 65581 <= (TWO32 - late) / 60000 <= 71582;
    if s.running && s.schedule == NO_SCHEDULE { PauseHolds(s, now); }
  }
}
