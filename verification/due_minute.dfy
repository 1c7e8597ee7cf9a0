/** How often a schedule starts in the minute it is due. */
module DueMinute {
  import opened Words
  import opened Site
  import opened Scheduler
  import opened SchedulerInvariant
  import opened Runs
  import opened Undisturbed
  import opened Timetable
  import opened QuietRuns
  import opened Pause
  import opened AutoStart

  // ----- counting starts -----

  /** Schedules begun in a log. */
  ghost function Begins(log: seq<Event>): nat
  {
    if log == [] then 0 else Begins(log[..|log| - 1]) + (if log[|log| - 1].Begin? then 1 else 0)
  }

  lemma {:induction false} BeginsConcat(a: seq<Event>, b: seq<Event>)
    ensures Begins(a + b) == Begins(a) + Begins(b)
    decreases |b|
  {
    if b == [] {
      assert a + b == a;
    } else {
      assert (a + b)[..|a + b| - 1] == a + b[..|b| - 1];
      BeginsConcat(a, b[..|b| - 1]);
    }
  }

  lemma {:induction false} NoBegins(es: seq<Event>)
    requires forall e | e in es :: !e.Begin?
    ensures Begins(es) == 0
  {
    if es != [] { NoBegins(es[..|es| - 1]); }
  }

  lemma BeginsGrow(a: seq<Event>, b: seq<Event>)
    requires a <= b
    ensures Begins(a) <= Begins(b)
  {
    BeginsConcat(a, b[|a|..]);
    assert a + b[|a|..] == b;
  }

  // ----- the nominal length of a schedule -----

  /** Delays and minutes of the watered zones from `z` on, scaled as at moment `p`. */
  function Rest(pl: Plan, z: nat, p: Moment): nat
    requires |pl.d| == MAX_ZONES
    decreases pl.cfg.numZones - z
  {
    if z >= pl.cfg.numZones then 0
    else (if pl.d[z] != 0 then DELAY_BETWEEN_ZONES + PlanMinutes(pl, z, p) * 60000 else 0) + Rest(pl, z + 1, p)
  }

  function Count(pl: Plan, z: nat): nat
    requires |pl.d| == MAX_ZONES
    decreases pl.cfg.numZones - z
  {
    if z >= pl.cfg.numZones then 0 else (if pl.d[z] != 0 then 1 else 0) + Count(pl, z + 1)
  }

  predicate ZeroFrom(pl: Plan, z: nat, p: Moment)
    requires |pl.d| == MAX_ZONES
  {
    forall y | z <= y < pl.cfg.numZones :: pl.d[y] != 0 ==> PlanMinutes(pl, y, p) == 0
  }

  lemma {:induction false} RestSkips(pl: Plan, z: nat, p: Moment)
    requires |pl.d| == MAX_ZONES
    ensures var n := FirstFrom(pl.d, z, pl.cfg.numZones);
            && Rest(pl, z, p) ==
                 (if n < 0 then 0 else DELAY_BETWEEN_ZONES + PlanMinutes(pl, n, p) * 60000 + Rest(pl, n + 1, p))
            && Count(pl, z) == if n < 0 then 0 else 1 + Count(pl, n + 1)
    decreases pl.cfg.numZones - z
  {
    hide PlanMinutes;
    if z < pl.cfg.numZones && pl.d[z] == 0 { RestSkips(pl, z + 1, p); }
  }

  lemma {:induction false} RestCounts(pl: Plan, z: nat, p: Moment)
    requires |pl.d| == MAX_ZONES
    ensures if ZeroFrom(pl, z, p) then Rest(pl, z, p) == DELAY_BETWEEN_ZONES * Count(pl, z)
            else Rest(pl, z, p) >= 60000
    decreases pl.cfg.numZones - z
  {
    hide PlanMinutes;
    if z < pl.cfg.numZones {
      RestCounts(pl, z + 1, p);
      assert ZeroFrom(pl, z, p) <==> ZeroFrom(pl, z + 1, p) && (pl.d[z] != 0 ==> PlanMinutes(pl, z, p) == 0);
    }
  }

  /** From the opening of the first watered zone to the end of the last. */
  function Nominal(pl: Plan, p: Moment): nat
    requires |pl.d| == MAX_ZONES && FirstFrom(pl.d, 0, pl.cfg.numZones) >= 0
  {
    var z := FirstFrom(pl.d, 0, pl.cfg.numZones);
    PlanMinutes(pl, z, p) * 60000 + Rest(pl, z + 1, p)
  }

  lemma NominalInMinute(pl: Plan, p: Moment, room: nat)
    requires |pl.d| == MAX_ZONES && FirstFrom(pl.d, 0, pl.cfg.numZones) >= 0 && room < 60000
    ensures Nominal(pl, p) <= room <==> ZeroFrom(pl, 0, p) && DELAY_BETWEEN_ZONES * (Count(pl, 0) - 1) <= room
  {
    hide PlanMinutes, Rest, Count;
    var z := FirstFrom(pl.d, 0, pl.cfg.numZones);
    RestSkips(pl, 0, p);
    RestCounts(pl, z + 1, p);
    assert ZeroFrom(pl, 0, p) <==> PlanMinutes(pl, z, p) == 0 && ZeroFrom(pl, z + 1, p);
  }

  // ----- it never ends early -----

  /** What is left after the awaited poll: sorted moments of `ps`, ending with its last. */
  lemma AwaitedRest(ps: seq<Moment>, deadline: nat, wu: int)
    requires Sorted(ps) && Await(ps, deadline) != [] && forall q | q in ps :: q.wu == wu
    ensures var q := Await(ps, deadline);
            && q[0].ms >= deadline && ps != [] && |q| <= |ps| && q[0].wu == wu
            && q[0].ms <= ps[|ps| - 1].ms && Sorted(q[1..]) && (forall m | m in q[1..] :: m.wu == wu)
            && (q[1..] != [] ==> q[1..][|q| - 2] == ps[|ps| - 1])
  {
    var q := Await(ps, deadline);
    var n := |ps| - |q|;
    assert q == ps[n..] && q[0] == ps[n] && q[1..] == ps[n + 1..];
    hide Await;
    SortedTail(ps, n + 1);
    assert Sorted(q[1..]) && q[0].ms <= ps[|ps| - 1].ms;
    hide Sorted;
    assert forall m | m in q[1..] :: m in ps;
  }

  /** From the middle of a zone: the schedule's record comes no earlier than the
      minutes and delays still due. */
  lemma {:induction false} ZoneNotEarly(pl: Plan, z: nat, since: nat, mins: u8, used: nat, ps: seq<Moment>, p: Moment)
    requires |pl.d| == MAX_ZONES && z < MAX_ZONES && Sorted(ps) && forall q | q in ps :: q.wu == p.wu
    ensures Finished(FromZone(pl, z, since, mins, used, ps)) ==>
              ps != [] && ps[|ps| - 1].ms >= since + mins * 60000 + Rest(pl, z + 1, p)
    decreases |ps|, 1
  {
    hide WaterOf, Minutes, Int16, FromGap, FirstFrom, PlanMinutes, EndOfZone, Rest, Finished, Await, Sorted, Wrap16,
         Closing, RouteOf, Accepts;
    var q := Await(ps, since + mins * 60000);
    if q == [] {
      NotFinished();
    } else {
      AwaitedRest(ps, since + mins * 60000, p.wu);
      var dur := Int16((q[0].ms - since) / 60000);
      var w := WaterOf(dur, pl.cfg.zones[z].flow);
      var next := FirstFrom(pl.d, z + 1, pl.cfg.numZones);
      RestSkips(pl, z + 1, p);
      if next >= 0 {
        var tail := FromGap(pl, next, q[0].ms, used + w, q[1..]);
        GapNotEarly(pl, next, q[0].ms, used + w, q[1..], p);
        assert FromZone(pl, z, since, mins, used, ps) == EndOfZone(pl, z, dur, w, q[0].ms) + tail;
        FinishedTail(EndOfZone(pl, z, dur, w, q[0].ms), tail);
      }
    }
  }

  lemma NotFinished()
    ensures !Finished([])
  {}

  lemma {:induction false} GapNotEarly(pl: Plan, z: nat, since: nat, used: nat, ps: seq<Moment>, p: Moment)
    requires |pl.d| == MAX_ZONES && z < MAX_ZONES && Sorted(ps) && forall q | q in ps :: q.wu == p.wu
    ensures Finished(FromGap(pl, z, since, used, ps)) ==>
              ps != [] && ps[|ps| - 1].ms >=
                since + DELAY_BETWEEN_ZONES + PlanMinutes(pl, z, p) * 60000 + Rest(pl, z + 1, p)
    decreases |ps|, 1
  {
    hide FromZone, Adjust, Opening, Rest, Finished, Await, Sorted;
    var q := Await(ps, since + DELAY_BETWEEN_ZONES);
    if q == [] {
      NotFinished();
    } else {
      AwaitedRest(ps, since + DELAY_BETWEEN_ZONES, p.wu);
      var mins := PlanMinutes(pl, z, q[0]);
      ZoneNotEarly(pl, z, q[0].ms, mins, used, q[1..], p);
      FinishedTail(Opening(pl, z, mins, q[0].ms), FromZone(pl, z, q[0].ms, mins, used, q[1..]));
    }
  }

  // ----- it can end on time -----

  /** Polled at `ps`, all like `p` but for the time, the schedule is over at `end`. */
  ghost predicate Over(s: State, ps: seq<Moment>, since: nat, p: Moment, end: nat)
  {
    var r := PollRun(s, ps);
    && r.schedule == NO_SCHEDULE && Inv(r) && Onward(s, r) && r.endPause == s.endPause
    && ps != [] && Steady(since, ps, MAX_GAP) && ps[|ps| - 1].ms == end
    && forall q | q in ps :: q == p.(ms := q.ms)
  }

  lemma PauseEndKept(s: State, now: Moment)
    ensures s.zone >= 0 ==> AfterZone(s, now).endPause == s.endPause
    ensures AfterDelay(s, now).endPause == s.endPause
  {
    hide Minutes, WaterOf, RouteOf, Accepts, ZoneMinutes, FirstFrom;
  }

  lemma OverAfter(s: State, p0: Moment, ps: seq<Moment>, since: nat, p: Moment, end: nat)
    requires Over(Poll(s, p0), ps, p0.ms, p, end) && Poll(s, p0).endPause == s.endPause
    requires since <= p0.ms <= since + MAX_GAP && p0 == p.(ms := p0.ms)
    ensures Over(s, [p0] + ps, since, p, end)
  {
    hide Poll, Inv;
    assert ([p0] + ps)[1..] == ps;
  }

  lemma OverNow(s: State, q: Moment, since: nat, p: Moment)
    requires Poll(s, q).schedule == NO_SCHEDULE && Inv(Poll(s, q)) && Poll(s, q).endPause == s.endPause
    requires since <= q.ms <= since + MAX_GAP && q == p.(ms := q.ms)
    ensures Over(s, [q], since, p, q.ms)
  {
    hide Poll, Inv;
    var ps := [q];
    assert ps[1..] == [] && ps[0] == q;
    assert PollRun(s, ps) == PollRun(Poll(s, q), ps[1..]) == Poll(s, q);
    assert Steady(since, ps, MAX_GAP);
    assert Onward(s, PollRun(s, ps));
  }

  lemma {:induction false} ZoneEndsOnTime(s: State, since: nat, p: Moment) returns (ps: seq<Moment>)
    requires InZone(s, since, since)
    ensures Over(s, ps, since, p, since + s.zoneMins * 60000 + Rest(PlanOf(s), s.zone + 1, p))
    decreases s.cfg.numZones - s.zone, 0
  {
    hide Poll, AfterZone, WaterOf, Minutes, Used, Durations, Adjusted, Int16, Valves, WaterExact, WaterBounded,
         EndOfZone, PlanMinutes, Rest;
    var q := p.(ms := since + s.zoneMins * 60000);
    ZonePoll(s, since, since, q);
    ZoneEnd(s, q);
    PauseEndKept(s, q);
    RestSkips(PlanOf(s), s.zone + 1, p);
    var s1 := Poll(s, q);
    if s1.schedule == NO_SCHEDULE {
      ps := [q];
      OverNow(s, q, since, p);
    } else {
      var rest := GapEndsOnTime(s1, q.ms, p);
      var end := since + s.zoneMins * 60000 + Rest(PlanOf(s), s.zone + 1, p);
      assert Over(s1, rest, q.ms, p, end);
      OverAfter(s, q, rest, since, p, end);
      ps := [q] + rest;
    }
  }

  lemma {:induction false} GapEndsOnTime(s: State, since: nat, p: Moment) returns (ps: seq<Moment>)
    requires InGap(s, since, since)
    ensures 0 <= s.nextZone < s.cfg.numZones
    ensures var z := s.nextZone;
            Over(s, ps, since, p, since + DELAY_BETWEEN_ZONES + PlanMinutes(PlanOf(s), z, p) * 60000
                                  + Rest(PlanOf(s), z + 1, p))
    decreases s.cfg.numZones - s.nextZone, 1
  {
    hide Poll, AfterDelay, Used, Durations, Adjusted, Valves, WaterExact, WaterBounded, Opening, PlanOf, Rest, Adjust;
    DelayHasNext(s);
    var q := p.(ms := since + DELAY_BETWEEN_ZONES);
    GapPoll(s, since, since, q);
    GapEnd(s, q);
    PauseEndKept(s, q);
    var rest := ZoneEndsOnTime(Poll(s, q), q.ms, p);
    OverAfter(s, q, rest, since, p, rest[|rest| - 1].ms);
    ps := [q] + rest;
  }

  // ----- runs of quiet inputs, idle or not -----

  lemma OpenAlike(s: State, t: State, id: int, d: seq<u8>, adj: bool, now: Moment)
    requires Alike(s, t) && |d| == MAX_ZONES
    ensures Alike(Open(s, id, d, adj, now), Open(t, id, d, adj, now))
    ensures Open(s, id, d, adj, now).endPause == s.endPause
  {
    hide TurnOn, Adjust;
    var z := FirstFrom(d, 0, s.cfg.numZones);
    if z >= 0 {
      var mins := ZoneMinutes(s, d, adj, z, now);
      var s1 := s.(schedule := id, startSched := now.Millis(), zone := z, startZone := now.Millis(),
                   zoneMins := mins, log := s.log + [Begin(id, now.ms)]);
      TurnOnAlike(s1, s1.(cache := t.cache, endPause := t.endPause), z, mins, now);
      PauseEndOfTurnOn(s1, z, mins, now);
    }
  }

  lemma PauseEndOfTurnOn(s: State, z: nat, mins: u8, now: Moment)
    requires z < MAX_ZONES
    ensures TurnOn(s, z, mins, now).endPause == s.endPause
  {
    hide RouteOf, Accepts;
  }

  /** Without a pause, an idle poll looks at no more than an active one. */
  lemma IdlePollAlike(s: State, t: State, now: Moment)
    requires Alike(s, t) && s.endPause == 0 == t.endPause && s.schedule == NO_SCHEDULE
    ensures Alike(Poll(s, now), Poll(t, now)) && Poll(s, now).endPause == 0 == Poll(t, now).endPause
  {
    hide Open, NextEvent.Next;
    if s.running && NextStart(s, now).Some? {
      var id := Wrap8(NextStart(s, now).sched);
      if id < MAX_SCHEDULES {
        OpenAlike(s.(water := 0), t.(water := 0), id, s.table[id].duration, s.table[id].wadj, now);
        OpenAlike(t.(water := 0), s.(water := 0), id, s.table[id].duration, s.table[id].wadj, now);
      }
    }
  }

  lemma ActivePollEndPause(s: State, now: Moment)
    requires s.schedule != NO_SCHEDULE
    ensures Poll(s, now).endPause == s.endPause
  {
    hide AfterDelay, AfterZone, Minutes, RouteOf, Accepts;
    PauseEndKept(s, now);
  }

  lemma {:induction false} RunsLikePollRun(s: State, t: State, xs: seq<Timed>)
    requires Alike(s, t) && s.endPause == 0 == t.endPause && AllQuiet(xs)
    ensures Alike(PollRun(s, Polls(xs)), Run(t, xs))
    decreases |xs|
  {
    hide Poll, Step;
    if xs != [] {
      var x, now := xs[0].input, xs[0].now;
      if x.PollNow? {
        if s.schedule == NO_SCHEDULE {
          IdlePollAlike(s, t, now);
        } else {
          PollAlike(s, t, now);
          ActivePollEndPause(s, now);
          ActivePollEndPause(t, now);
        }
        PollStep(t, now);
        assert Polls(xs) == [now] + Polls(xs[1..]);
        assert ([now] + Polls(xs[1..]))[1..] == Polls(xs[1..]);
        RunsLikePollRun(Poll(s, now), Step(t, x, now), xs[1..]);
      } else {
        QuietAlike(s, t, x, now);
        NoPauseComes(t, x, now);
        assert Polls(xs) == [] + Polls(xs[1..]) == Polls(xs[1..]);
        RunsLikePollRun(s, Step(t, x, now), xs[1..]);
      }
    }
  }

  lemma NoPauseComes(s: State, x: Input, now: Moment)
    requires s.endPause == 0 && Quiet(x) && !x.PollNow?
    ensures Step(s, x, now).endPause == 0
  {}

  lemma {:induction false} NotOverYet(s: State, ps: seq<Moment>)
    requires RunToIdle(s, ps).schedule != NO_SCHEDULE
    ensures PollRun(s, ps) == RunToIdle(s, ps)
    decreases |ps|
  {
    hide Poll;
    if ps != [] { NotOverYet(Poll(s, ps[0]), ps[1..]); }
  }

  lemma {:induction false} PollRunLast(s: State, ps: seq<Moment>, q: Moment)
    ensures PollRun(s, ps + [q]) == Poll(PollRun(s, ps), q)
    decreases |ps|
  {
    hide Poll;
    if ps == [] {
      assert ps + [q] == [q] && [q][1..] == [] && PollRun(Poll(s, q), []) == Poll(s, q);
    } else {
      assert (ps + [q])[1..] == ps[1..] + [q];
      PollRunLast(Poll(s, ps[0]), ps[1..], q);
    }
  }

  // ----- the due minute -----

  /** Quiet inputs in what is left of the minute of `p`, `room` milliseconds; the
      weather scale stays. */
  ghost predicate Within(p: Moment, xs: seq<Timed>, room: nat)
  {
    && AllQuiet(xs) && Steady(p.ms, Polls(xs), MAX_GAP)
    && forall q | q in Polls(xs) :: q.ms <= p.ms + room && SameMinute(p, q)
  }

  predicate SameMinute(p: Moment, q: Moment)
  {
    (q.minute, q.weekday, q.days, q.wu) == (p.minute, p.weekday, p.days, p.wu)
  }

  /** What a poll that finds schedule `i` due starts. */
  ghost predicate StartedBy(s: State, i: nat, p: Moment, r: State)
    requires i < MAX_SCHEDULES
  {
    var pl := DuePlan(s, i, p);
    && FirstFrom(pl.d, 0, pl.cfg.numZones) >= 0
    && InZone(r, p.ms, p.ms) && PlanOf(r) == pl && r.zone == FirstFrom(pl.d, 0, pl.cfg.numZones)
    && r.zoneMins == PlanMinutes(pl, r.zone, p) && r.endPause == 0 && Onward(s, r)
    && Begins(r.log) == Begins(s.log) + 1
  }

  function DuePlan(s: State, i: nat, p: Moment): (pl: Plan)
    requires i < MAX_SCHEDULES
    ensures |pl.d| == MAX_ZONES
  {
    Plan(s.cfg, i, s.table[i].duration, s.table[i].wadj, p.Millis())
  }

  lemma PollStarts(s: State, i: nat, p: Moment)
    requires Inv(s) && s.running && s.schedule == NO_SCHEDULE && RemainingPause(s, p) == 0 && FirstDue(s, p, i)
    requires i < MAX_SCHEDULES && FirstFrom(s.table[i].duration, 0, s.cfg.numZones) >= 0
    ensures StartedBy(s, i, p, Poll(s, p))
  {
    hide Poll, Open, RemainingPause, Inv, InZone, Due, PlanMinutes, Opening, Used;
    DueStarts(s, p, i);
    EnabledIfDue(s, p, i);
    var c := CheckPause(s, p);
    SettingsKeep(s, c);
    StopKeeps(c, p);
    var c1 := Stop(c, p).(water := 0);
    var d, adj := s.table[i].duration, s.table[i].wadj;
    Opened1(c1, i, d, adj, p);
    OpenAlike(c1, c1, i, d, adj, p);
    var r := Open(c1, i, d, adj, p);
    var o := Opening(PlanOf(r), r.zone, r.zoneMins, p.ms);
    OpeningPlanned(PlanOf(r), r.zone, p, [p]);
    NoBegins(o);
    BeginsConcat(s.log, [Begin(i, p.ms)]);
    BeginsConcat(s.log + [Begin(i, p.ms)], o);
    assert Begins([Begin(i, p.ms)]) == 1;
  }

  /** A second start needs the nominal length to fit. */
  lemma SecondStartFits(s: State, i: nat, p: Moment, room: nat, xs: seq<Timed>)
    requires i < MAX_SCHEDULES && StartedBy(s, i, p, Poll(s, p)) && Within(p, xs, room)
    requires Begins(Run(Poll(s, p), xs).log) >= Begins(s.log) + 2
    ensures Nominal(DuePlan(s, i, p), p) <= room
  {
    hide Poll, Run, Inv, InZone, FromZone, PlanMinutes, Rest, PlanOf, Used, Begins, Finished, RunToIdle, PollRun, Polls;
    var s1, ps, pl := Poll(s, p), Polls(xs), DuePlan(s, i, p);
    RunsLikePollRun(s1, s1, xs);
    var t := FromZone(pl, s1.zone, p.ms, s1.zoneMins, Used(s1.log), ps);
    ZoneRefines(s1, p.ms, p.ms, ps);
    if RunToIdle(s1, ps).schedule != NO_SCHEDULE {
      NotOverYet(s1, ps);
      ZonePlanned(pl, s1.zone, p.ms, s1.zoneMins, Used(s1.log), ps, ps);
      NoBegins(t);
      BeginsConcat(s1.log, t);
    }
    SteadyIsSorted(p.ms, ps, MAX_GAP);
    ZoneNotEarly(pl, s1.zone, p.ms, s1.zoneMins, Used(s1.log), ps, p);
    assert ps[|ps| - 1] in ps;
  }

  function PollsAt(ps: seq<Moment>): seq<Timed>
  {
    if ps == [] then [] else [Timed(PollNow, ps[0])] + PollsAt(ps[1..])
  }

  lemma {:induction false} PollsAtPolls(ps: seq<Moment>)
    ensures Polls(PollsAt(ps)) == ps && AllQuiet(PollsAt(ps))
    decreases |ps|
  {
    if ps != [] {
      PollsAtPolls(ps[1..]);
      assert PollsAt(ps)[1..] == PollsAt(ps[1..]);
      assert forall k | 1 <= k < |PollsAt(ps)| :: PollsAt(ps)[k] == PollsAt(ps[1..])[k - 1];
    }
  }

  lemma {:induction false} SteadyAppend(prev: nat, ps: seq<Moment>, q: Moment, gap: nat)
    requires Steady(prev, ps, gap) && ps != [] && ps[|ps| - 1].ms == q.ms
    ensures Steady(prev, ps + [q], gap)
    decreases |ps|
  {
    assert (ps + [q])[1..] == ps[1..] + [q];
    if |ps| > 1 {
      SteadyAppend(ps[0].ms, ps[1..], q, gap);
    } else {
      assert (ps + [q])[1..] == [q] && [q][1..] == [];
    }
  }

  /** Polled on time, a schedule that fits starts again. */
  lemma FittingStartsTwice(s: State, i: nat, p: Moment, room: nat) returns (xs: seq<Timed>)
    requires Inv(s) && s.running && i < MAX_SCHEDULES && FirstDue(s, p, i)
    requires StartedBy(s, i, p, Poll(s, p)) && Nominal(DuePlan(s, i, p), p) <= room
    ensures Within(p, xs, room) && Begins(Run(Poll(s, p), xs).log) >= Begins(s.log) + 2
  {
    hide Poll, Run, Inv, InZone, PlanMinutes, Rest, PlanOf, Begins, PollRun, Polls, PollsAt, Due, FirstFrom;
    var s1 := Poll(s, p);
    var ps := ZoneEndsOnTime(s1, p.ms, p);
    var r := PollRun(s1, ps);
    var q := p.(ms := ps[|ps| - 1].ms);
    SameDay(s, r, p, q, i);
    NoPauseLeft(r, q);
    PollStarts(r, i, q);
    PollRunLast(s1, ps, q);
    xs := PollsAt(ps + [q]);
    PollsAtPolls(ps + [q]);
    RunsLikePollRun(s1, s1, xs);
    BeginsGrow(s1.log, r.log);
    SteadyAppend(p.ms, ps, q, MAX_GAP);
    SteadyIsSorted(p.ms, ps, MAX_GAP);
  }

  lemma NoPauseLeft(s: State, now: Moment)
    requires s.endPause == 0
    ensures RemainingPause(s, now) == 0
  {}

  /** Exactly when a schedule can be started twice in the minute it is due: all its
      existing zones are scaled to 0 minutes, and the delays between them fit what is
      left of the minute. Then some polls do it; otherwise none do, whatever ticks,
      reports and readings come between them. */
  lemma TwiceInItsMinute(s: State, i: nat, p: Moment, room: nat)
    requires Inv(s) && s.running && s.schedule == NO_SCHEDULE && RemainingPause(s, p) == 0
    requires i < MAX_SCHEDULES && FirstDue(s, p, i) && FirstFrom(s.table[i].duration, 0, s.cfg.numZones) >= 0
    requires room < 60000
    ensures (exists xs :: Within(p, xs, room) && Begins(Run(Poll(s, p), xs).log) >= Begins(s.log) + 2) <==>
            var pl := DuePlan(s, i, p);
            ZeroFrom(pl, 0, p) && DELAY_BETWEEN_ZONES * (Count(pl, 0) - 1) <= room
  {
    hide Poll, Run, Inv, RemainingPause, FirstDue, FirstFrom, Within, Begins, StartedBy, ZeroFrom, Count, Nominal;
    PollStarts(s, i, p);
    NominalInMinute(DuePlan(s, i, p), p, room);
    if Nominal(DuePlan(s, i, p), p) <= room {
      var xs := FittingStartsTwice(s, i, p, room);
    }
    if exists xs :: Within(p, xs, room) && Begins(Run(Poll(s, p), xs).log) >= Begins(s.log) + 2 {
      var xs :| Within(p, xs, room) && Begins(Run(Poll(s, p), xs).log) >= Begins(s.log) + 2;
      SecondStartFits(s, i, p, room, xs);
    }
  }
}
