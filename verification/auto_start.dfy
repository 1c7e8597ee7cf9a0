/** Which stored schedule the clock starts, and how often. */
module AutoStart {
  import opened Words
  import opened Site
  import opened Scheduler
  import opened SchedulerInvariant
  import opened Undisturbed
  import opened Pause
  import opened ZoneProtocol
  import NextEvent

  /** Schedule `k` is to start at this very minute. */
  predicate Due(s: State, now: Moment, k: nat)
  {
    && k < s.numSchedules && NextEvent.RunsToday(s.table[k], now)
    && (exists j :: 0 <= j < 4 && s.table[k].time[j] == now.minute)
    && FirstFrom(s.table[k].duration, 0, MAX_ZONES) >= 0
  }

  ghost predicate FirstDue(s: State, now: Moment, i: nat)
  {
    Due(s, now, i) && forall k: nat | k < i :: !Due(s, now, k)
  }

  /** Some schedule that runs today has a start time from `from` on before this minute. */
  ghost predicate Earlier(s: State, now: Moment, from: int)
  {
    exists k: nat, j: nat :: k < s.numSchedules && j < 4
      && NextEvent.Candidate(s.table[..s.numSchedules], now, from, k, j) && s.table[k].time[j] < now.minute
  }

  /** A search from this minute or an earlier one answers this minute exactly if some
      schedule is due and no earlier time comes first; then it answers the lowest
      schedule that is due. */
  lemma SearchFindsDue(s: State, now: Moment, from: int)
    requires from <= now.minute
    ensures var e := NextEvent.Next(s.table[..s.numSchedules], now, from);
            && (e.Some? && e.time == now.minute <==> !Earlier(s, now, from) && exists k: nat :: Due(s, now, k))
            && (e.Some? && e.time == now.minute ==> FirstDue(s, now, e.sched))
  {
    hide FirstFrom, NextEvent.Next, NextEvent.RunsToday;
    var t := s.table[..s.numSchedules];
    var e := NextEvent.Next(t, now, from);
    NextEvent.NextIsMinimum(t, now, from);
    forall k: nat | Due(s, now, k)
      ensures e.Some? && e.time <= now.minute && (e.time == now.minute ==> e.sched <= k)
    {
      var j :| 0 <= j < 4 && s.table[k].time[j] == now.minute;
      assert NextEvent.Before(k, j, |t|, 0) && NextEvent.Candidate(t, now, from, k, j);
    }
    if Earlier(s, now, from) {
      var k: nat, j: nat :| k < s.numSchedules && j < 4
        && NextEvent.Candidate(t, now, from, k, j) && s.table[k].time[j] < now.minute;
      assert NextEvent.Before(k, j, |t|, 0);
    }
    if e.Some? {
      var j: nat :| NextEvent.Before(e.sched, j, |t|, 0) && NextEvent.Candidate(t, now, from, e.sched, j)
        && t[e.sched].time[j] == e.time;
      assert e.time < now.minute ==> Earlier(s, now, from);
      assert e.time == now.minute ==> Due(s, now, e.sched);
    }
  }

  lemma NothingEarlier(s: State, now: Moment)
    ensures !Earlier(s, now, now.minute)
  {}

  /** An idle unit that is not paused starts exactly the lowest schedule that is due,
      and none if none is. The search looks at all zone slots but the start only at
      existing zones, so a due schedule that waters no existing zone starts nothing
      and still keeps the later ones of that minute from starting. */
  lemma DueStarts(s: State, now: Moment, i: nat)
    requires Inv(s) && s.running && s.schedule == NO_SCHEDULE && RemainingPause(s, now) == 0
    ensures FirstDue(s, now, i) ==>
              && Poll(s, now) == StartStored(CheckPause(s, now), i, now)
              && Poll(s, now).schedule ==
                 if FirstFrom(s.table[i].duration, 0, s.cfg.numZones) >= 0 then i else NO_SCHEDULE
    ensures (forall k: nat :: !Due(s, now, k)) ==> Poll(s, now) == CheckPause(s, now)
  {
    hide NextEvent.Next, RemainingPause, Due, StartStored;
    SearchFindsDue(s, now, now.minute);
    NothingEarlier(s, now);
    assert Int16(now.minute) == now.minute;
    if FirstDue(s, now, i) {
      assert i < MAX_SCHEDULES && s.table[i].enabled by { EnabledIfDue(s, now, i); }
      StartedSchedule(CheckPause(s, now), i, now);
    }
  }

  lemma EnabledIfDue(s: State, now: Moment, i: nat)
    requires Due(s, now, i)
    ensures i < s.numSchedules && s.table[i].enabled
  {}

  /** A stored schedule is started exactly if it exists, is enabled and has a duration
      for an existing zone; whatever ran before is over in any case. */
  lemma StartedSchedule(s: State, i: u8, now: Moment)
    ensures StartStored(s, i, now).schedule ==
            if i < MAX_SCHEDULES && s.table[i].enabled
               && exists z :: 0 <= z < s.cfg.numZones && s.table[i].duration[z] != 0
            then i else NO_SCHEDULE
  {
    hide ZoneMinutes, RouteOf, Accepts, Stop;
    StopIsIdle(s, now);
  }

  /** What runs after a request for 255 minutes: nothing of the request, only the
      schedule that is due at that very minute, if there is one. */
  lemma TtrWrapStartsDue(s: State, st: u8, ch: u8, now: Moment, i: nat)
    requires Inv(s) && st < MAX_STATIONS && Target(s, st, ch) >= 0 && RemainingPause(s, now) == 0
    ensures var r := RemoteStart(s, st, ch, 255, now);
            && (s.running && FirstDue(s, now, i) ==>
                  r.schedule == if FirstFrom(s.table[i].duration, 0, s.cfg.numZones) >= 0 then i else NO_SCHEDULE)
            && (!s.running || (forall k: nat :: !Due(s, now, k)) ==> r.schedule == NO_SCHEDULE)
  {
    hide RemoteStart, Poll, Clear, StartQuick, QuickOnly, Target, RemainingPause, Inv;
    TtrWrapOnlyCloses(s, st, ch, now);
    var r := StartQuick(QuickOnly(Clear(s, now), Target(s, st, ch), 0), now);
    SamePause(s, r, now);
    assert forall k: nat :: Due(r, now, k) == Due(s, now, k);
    hide Due;
    if s.running { DueStarts(r, now, i); } else { IdleOffPoll(r, now); }
  }

  lemma SamePause(s: State, r: State, now: Moment)
    requires r.endPause == s.endPause
    ensures RemainingPause(r, now) == RemainingPause(s, now)
  {}

  lemma IdleOffPoll(s: State, now: Moment)
    requires !s.running && s.schedule == NO_SCHEDULE
    ensures Poll(s, now).schedule == NO_SCHEDULE
  {}

  /** Lifting a pause looks at the clock at once: an idle unit then starts the schedule
      that is due at this minute, and none if none is. */
  lemma ResumeStarts(s: State, now: Moment, i: nat)
    requires Inv(s) && s.running && s.schedule == NO_SCHEDULE && s.endPause != 0
    ensures var r := SetPause(s, 0, now);
            && (FirstDue(s, now, i) ==>
                  r.schedule == if FirstFrom(s.table[i].duration, 0, s.cfg.numZones) >= 0 then i else NO_SCHEDULE)
            && ((forall k: nat :: !Due(s, now, k)) ==> r.schedule == NO_SCHEDULE)
  {
    hide Poll, RemainingPause, Inv;
    var t := s.(endPause := 0);
    SettingsKeep(s, t);
    NoPauseLeft(t, now);
    assert forall k: nat :: Due(t, now, k) == Due(s, now, k);
    hide Due;
    DueStarts(t, now, i);
  }

  lemma NoPauseLeft(s: State, now: Moment)
    requires s.endPause == 0
    ensures RemainingPause(s, now) == 0 && CheckPause(s, now) == s
  {}

  /** A stored schedule found disabled is not gone on with: when the time of its zone or
      delay is over, it is stopped. */
  lemma DisabledEnds(s: State, now: Moment)
    requires Inv(s) && s.running && 0 <= s.schedule < MAX_SCHEDULES && !s.table[s.schedule].enabled
    ensures Poll(s, now) == s || Poll(s, now).schedule == NO_SCHEDULE
    ensures s.zone >= 0 && Elapsed(now.Millis(), s.startZone) / 60000 >= s.zoneMins ==>
              Poll(s, now).schedule == NO_SCHEDULE
    ensures s.zone == DELAY && Elapsed(now.Millis(), s.startZone) >= 5000 ==> Poll(s, now).schedule == NO_SCHEDULE
  {
    hide Stop, TurnOff, Elapsed;
    StopIsIdle(s, now);
    StopIsIdle(s.(zone := NO_ZONE), now);
    if s.zone >= 0 { StopIsIdle(TurnOff(LogZone(s, now), s.zone, now).(zone := NO_ZONE), now); }
  }

  // ----- under a pause -----

  /** Exactly when an idle unit starts a schedule while a pause has minutes left: minute
      and pause together exceed a `short`, so that the search begins at a negative
      minute; no start time from there on is earlier than now; and the lowest schedule
      that is due waters an existing zone. */
  lemma PauseFailsOnOverflow(s: State, now: Moment)
    requires Inv(s) && s.running && s.schedule == NO_SCHEDULE && RemainingPause(s, now) > 0
    ensures var sum := now.minute + RemainingPause(s, now);
            Poll(s, now).schedule != NO_SCHEDULE <==>
              && sum >= 0x8000 && !Earlier(s, now, sum - 0x1_0000)
              && exists i: nat :: FirstDue(s, now, i) && FirstFrom(s.table[i].duration, 0, s.cfg.numZones) >= 0
  {
    hide RemainingPause, StartStored, NextEvent.Next, Due, Earlier, FirstFrom;
    var sum := now.minute + RemainingPause(s, now);
    if sum < 0x8000 {
      PauseHolds(s, now);
    } else {
      PauseIsShort(s, now);
      assert Int16(sum) == sum - 0x1_0000;
      SearchFindsDue(s, now, sum - 0x1_0000);
      var e := NextStart(s, now);
      if e.Some? && e.time == now.minute {
        EnabledIfDue(s, now, e.sched);
        StartedSchedule(CheckPause(s, now), e.sched, now);
        assert forall i: nat :: FirstDue(s, now, i) ==> i == e.sched;
      }
    }
  }

  lemma PauseIsShort(s: State, now: Moment)
    ensures RemainingPause(s, now) < 0x8000
  {}

  // ----- once a minute -----

  lemma {:induction false} PollRunOnward(s: State, ps: seq<Moment>)
    ensures s.log <= PollRun(s, ps).log
    decreases |ps|
  {
    hide Poll;
    if ps != [] { PollRunOnward(Poll(s, ps[0]), ps[1..]); }
  }

  lemma AfterZoneLogs(s: State, now: Moment)
    requires s.zone >= 0
    ensures |AfterZone(s, now).log| > |s.log|
  {
    hide Minutes, WaterOf, Stop, TurnOff;
  }

  lemma {:induction false} KeptFor(s: State, since: nat, prev: nat, ps: seq<Moment>)
    requires InZone(s, since, prev) && Steady(prev, ps, MAX_GAP) && s.zoneMins >= 1
    requires forall i | 0 <= i < |ps| :: ps[i].ms < since + 60000
    ensures PollRun(s, ps) == s
    decreases |ps|
  {
    hide Poll, Inv;
    if ps != [] {
      ZonePoll(s, since, prev, ps[0]);
      KeptFor(s, since, ps[0].ms, ps[1..]);
    }
  }

  /** A zone opened at `since` survives all polls of its first minute exactly if its
      minutes are not 0. So a schedule whose first zone gets a minute is not started
      a second time in the minute it was due. */
  lemma HoldsForItsMinute(s: State, since: nat, ps: seq<Moment>)
    requires InZone(s, since, since) && Steady(since, ps, MAX_GAP) && ps != []
    requires forall i | 0 <= i < |ps| :: ps[i].ms < since + 60000
    ensures PollRun(s, ps) == s <==> s.zoneMins >= 1
  {
    if s.zoneMins >= 1 {
      KeptFor(s, since, since, ps);
    } else {
      hide Poll, AfterZone;
      ZonePoll(s, since, since, ps[0]);
      AfterZoneLogs(s, ps[0]);
      PollRunOnward(AfterZone(s, ps[0]), ps[1..]);
    }
  }

  lemma SameDay(s: State, t: State, p: Moment, r: Moment, i: nat)
    requires t.table == s.table && t.numSchedules == s.numSchedules && FirstDue(s, p, i)
    requires (r.minute, r.weekday, r.days) == (p.minute, p.weekday, p.days)
    ensures FirstDue(t, r, i)
  {
    assert forall k: nat :: Due(t, r, k) == Due(s, p, k);
  }
}
