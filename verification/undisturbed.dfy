/** A schedule that nobody interferes with: the polled state machine on a wrapping
    32-bit clock does what a simple timetable on an unbounded clock says. */
module Undisturbed {
  import opened Words
  import opened Site
  import opened Scheduler
  import opened SchedulerInvariant

  /** What is fixed while a schedule runs. */
  datatype Plan = Plan(cfg: Config, id: int, d: seq<u8>, adj: bool, startSched: u32)

  function PlanOf(s: State): (pl: Plan)
    ensures |pl.d| == MAX_ZONES && pl.cfg == s.cfg && pl.id == s.schedule && pl.startSched == s.startSched
  {
    Plan(s.cfg, s.schedule, Durations(s), Adjusted(s), s.startSched)
  }

  function PlanMinutes(pl: Plan, z: nat, now: Moment): u8
    requires |pl.d| == MAX_ZONES && z < MAX_ZONES
  {
    if pl.adj then Adjust(pl.d[z], pl.cfg.seasonal, now.wu) else pl.d[z]
  }

  // ----- the timetable -----

  /** The polls from the first one at or after `deadline` on. */
  function Await(ps: seq<Moment>, deadline: nat): (q: seq<Moment>)
    ensures |q| <= |ps| && q == ps[|ps| - |q|..]
    ensures q != [] ==> q[0].ms >= deadline
    ensures forall i | 0 <= i < |ps| - |q| :: ps[i].ms < deadline
    decreases |ps|
  {
    if ps == [] || ps[0].ms >= deadline then ps else Await(ps[1..], deadline)
  }

  function Opening(pl: Plan, z: nat, mins: u8, ms: nat): (es: seq<Event>)
    ensures !Finished(es)
  {
    var r := RouteOf(pl.cfg, z);
    if Accepts(pl.cfg, r) then [On(z, r, mins, ms)] else []
  }

  function Closing(pl: Plan, z: nat, ms: nat): seq<Event>
  {
    var r := RouteOf(pl.cfg, z);
    if Accepts(pl.cfg, r) then [Off(z, r, ms)] else []
  }

  function EndOfZone(pl: Plan, z: nat, dur: int, w: u16, ms: nat): (es: seq<Event>)
    ensures !Finished(es)
  {
    [ZoneLog(z, dur, w, pl.id)] + Closing(pl, z, ms)
  }

  /** Events from zone `z` on, which has been running since `since`, with `used`
      units of water on record before it. The zone ends at the first poll at or after
      its time; then comes the next watered zone, or the schedule's record. */
  function FromZone(pl: Plan, z: nat, since: nat, mins: u8, used: nat, ps: seq<Moment>): seq<Event>
    requires |pl.d| == MAX_ZONES && z < MAX_ZONES
    decreases |ps|, 1
  {
    var q := Await(ps, since + mins * 60000);
    if q == [] then []
    else
      var p := q[0];
      var dur := Int16((p.ms - since) / 60000);
      var w := WaterOf(dur, pl.cfg.zones[z].flow);
      var next := FirstFrom(pl.d, z + 1, pl.cfg.numZones);
      EndOfZone(pl, z, dur, w, p.ms)
      + (if next < 0 then [SchedLog(pl.id, Minutes(p, pl.startSched), Wrap16((used + w) / 100))]
         else FromGap(pl, next, p.ms, used + w, q[1..]))
  }

  /** Events from an inter-zone delay on, before zone `z`, in force since `since`. */
  function FromGap(pl: Plan, z: nat, since: nat, used: nat, ps: seq<Moment>): seq<Event>
    requires |pl.d| == MAX_ZONES && z < MAX_ZONES
    decreases |ps|, 1
  {
    var q := Await(ps, since + DELAY_BETWEEN_ZONES);
    if q == [] then []
    else
      var p := q[0];
      var mins := PlanMinutes(pl, z, p);
      Opening(pl, z, mins, p.ms) + FromZone(pl, z, p.ms, mins, used, q[1..])
  }

  /** The schedule's record is the last event. */
  predicate Finished(es: seq<Event>)
  {
    es != [] && es[|es| - 1].SchedLog?
  }

  // ----- the machine follows the timetable -----

  /** Polls until the schedule is over. */
  function RunToIdle(s: State, ps: seq<Moment>): State
    decreases |ps|
  {
    if ps == [] || s.schedule == NO_SCHEDULE then s else RunToIdle(Poll(s, ps[0]), ps[1..])
  }

  /** Each poll comes no earlier than the one before it and at most `gap` after. */
  predicate Steady(prev: nat, ps: seq<Moment>, gap: nat)
    decreases |ps|
  {
    ps == [] || (prev <= ps[0].ms <= prev + gap && Steady(ps[0].ms, ps[1..], gap))
  }

  /** Moments that never run backwards. */
  ghost predicate Sorted(ps: seq<Moment>)
  {
    forall i, j | 0 <= i < j < |ps| :: ps[i].ms <= ps[j].ms
  }

  lemma {:induction false} SteadyIsSorted(prev: nat, ps: seq<Moment>, gap: nat)
    requires Steady(prev, ps, gap)
    ensures Sorted(ps) && forall i | 0 <= i < |ps| :: prev <= ps[i].ms
    decreases |ps|
  {
    if ps != [] { SteadyIsSorted(ps[0].ms, ps[1..], gap); }
  }

  /** Some 49 days: one turn of the clock, less the longest zone. */
  const MAX_GAP: nat := TWO32 - 255 * 60000

  ghost predicate Active(s: State)
  {
    Inv(s) && s.running && s.schedule != NO_SCHEDULE && SchedulePresent(s)
  }

  ghost predicate InZone(s: State, since: nat, prev: nat)
  {
    && Active(s) && s.zone >= 0 && s.startZone == Wrap32(since)
    && since <= prev && (prev == since || prev - since < s.zoneMins * 60000)
  }

  ghost predicate InGap(s: State, since: nat, prev: nat)
  {
    && Active(s) && s.zone == DELAY && s.startZone == Wrap32(since)
    && since <= prev && (prev == since || prev - since < DELAY_BETWEEN_ZONES)
  }

  /** One poll of a running zone, on the true clock. */
  lemma ZonePoll(s: State, since: nat, prev: nat, p: Moment)
    requires InZone(s, since, prev) && prev <= p.ms <= prev + MAX_GAP
    ensures Inv(Poll(s, p))
    ensures p.ms < since + s.zoneMins * 60000 ==> Poll(s, p) == s
    ensures p.ms >= since + s.zoneMins * 60000 ==>
              Poll(s, p) == AfterZone(s, p) && Minutes(p, s.startZone) == Int16((p.ms - since) / 60000)
  {
    hide AfterZone, IdlePoll, AfterDelay, Stop;
    ElapsedIsTrueInterval(since, p.ms);
    PollKeeps(s, p);
    assert Elapsed(p.Millis(), s.startZone) == p.ms - since;
  }

  lemma GapPoll(s: State, since: nat, prev: nat, p: Moment)
    requires InGap(s, since, prev) && prev <= p.ms <= prev + MAX_GAP
    ensures Inv(Poll(s, p))
    ensures p.ms < since + DELAY_BETWEEN_ZONES ==> Poll(s, p) == s
    ensures p.ms >= since + DELAY_BETWEEN_ZONES ==> Poll(s, p) == AfterDelay(s, p)
  {
    hide AfterZone, IdlePoll, AfterDelay, Stop;
    ElapsedIsTrueInterval(since, p.ms);
    PollKeeps(s, p);
    assert Elapsed(p.Millis(), s.startZone) == p.ms - since;
  }

  /** Closing a zone adds its record and its command, and charges its water. */
  lemma ZoneClosed(s: State, dur: int, w: u16, p: Moment)
    requires Active(s) && s.zone >= 0
    ensures var r := TurnOff(Charge(s, dur, w), s.zone, p);
            && r.log == s.log + EndOfZone(PlanOf(s), s.zone, dur, w, p.ms)
            && Used(r.log) == r.water == Used(s.log) + w
            && r == s.(water := r.water, cache := r.cache, outputs := r.outputs, log := r.log)
  {
    ChargeKeeps(s, dur, w);
    var s1 := Charge(s, dur, w);
    TurnOffFrame(s1, s.zone, p);
    Append(s.log, ZoneLog(s.zone, dur, w, s.schedule));
    ClosingAppended(s1, s.zone, PlanOf(s), p);
    assert s1.log == s.log + [ZoneLog(s.zone, dur, w, s.schedule)];
    hide *;
  }

  lemma ClosingAppended(s: State, z: nat, pl: Plan, now: Moment)
    requires pl.cfg == s.cfg && z < MAX_ZONES
    ensures TurnOff(s, z, now).log == s.log + Closing(pl, z, now.ms)
  {}

  /** What the end of a zone appends to the log, and where it leads. */
  lemma ZoneEnd(s: State, p: Moment)
    requires Active(s) && s.zone >= 0
    ensures var pl := PlanOf(s);
            var dur := Minutes(p, s.startZone);
            var w := WaterOf(dur, s.cfg.zones[s.zone].flow);
            var next := FirstFrom(pl.d, s.zone + 1, s.cfg.numZones);
            var r := AfterZone(s, p);
            var head := s.log + EndOfZone(pl, s.zone, dur, w, p.ms);
            if next < 0 then
              r.schedule == NO_SCHEDULE
              && r.log == head + [SchedLog(s.schedule, Minutes(p, s.startSched), Wrap16((Used(s.log) + w) / 100))]
            else
              r.log == head && Used(r.log) == Used(s.log) + w && PlanOf(r) == pl
              && r.running && SchedulePresent(r) && r.schedule == s.schedule
              && r.zone == DELAY && r.nextZone == next && r.startZone == p.Millis()
  {
    hide WaterOf, Minutes, TurnOff, Charge, EndOfZone, Inv, Used;
    var dur := Minutes(p, s.startZone);
    ZoneClosed(s, dur, WaterOf(dur, s.cfg.zones[s.zone].flow), p);
  }

  lemma OpeningAppended(s: State, z: nat, mins: u8, pl: Plan, now: Moment)
    requires pl.cfg == s.cfg && z < MAX_ZONES
    ensures var r := TurnOn(s, z, mins, now);
            r.log == s.log + Opening(pl, z, mins, now.ms) && Used(r.log) == Used(s.log)
            && r == s.(cache := r.cache, outputs := r.outputs, log := r.log)
  {
    hide Interlocked, Honest, Energised, RouteOf, Accepts;
    Append(s.log, On(z, RouteOf(s.cfg, z), mins, now.ms));
  }

  lemma DelayHasNext(s: State)
    requires Inv(s) && s.zone == DELAY
    ensures 0 <= s.nextZone < s.cfg.numZones
  {}

  lemma GapEnd(s: State, p: Moment)
    requires Active(s) && s.zone == DELAY
    ensures var pl := PlanOf(s);
            var r := AfterDelay(s, p);
            var mins := PlanMinutes(pl, s.nextZone, p);
            r.log == s.log + Opening(pl, s.nextZone, mins, p.ms) && Used(r.log) == Used(s.log)
            && PlanOf(r) == pl && r.running && SchedulePresent(r) && r.schedule == s.schedule
            && r.zone == s.nextZone >= 0 && r.zoneMins == mins && r.startZone == p.Millis()
  {
    hide Adjust, Inv, TurnOn, Used, Opening;
    DelayHasNext(s);
    var z := s.nextZone;
    var mins := PlanMinutes(PlanOf(s), z, p);
    OpeningAppended(s.(zone := z, nextZone := -1, startZone := p.Millis(), zoneMins := mins), z, mins, PlanOf(s), p);
  }

  /** The timetable, one poll at a time. */
  lemma FromZoneStep(pl: Plan, z: nat, since: nat, mins: u8, used: nat, ps: seq<Moment>)
    requires |pl.d| == MAX_ZONES && z < MAX_ZONES && ps != []
    ensures var p := ps[0];
            var dur := Int16((p.ms - since) / 60000);
            var w := WaterOf(dur, pl.cfg.zones[z].flow);
            var next := FirstFrom(pl.d, z + 1, pl.cfg.numZones);
            FromZone(pl, z, since, mins, used, ps) ==
              if p.ms < since + mins * 60000 then FromZone(pl, z, since, mins, used, ps[1..])
              else EndOfZone(pl, z, dur, w, p.ms)
                   + (if next < 0 then [SchedLog(pl.id, Minutes(p, pl.startSched), Wrap16((used + w) / 100))]
                      else FromGap(pl, next, p.ms, used + w, ps[1..]))
  {
    hide FromGap, WaterOf, Minutes, EndOfZone, Int16, FirstFrom;
  }

  lemma FromGapStep(pl: Plan, z: nat, since: nat, used: nat, ps: seq<Moment>)
    requires |pl.d| == MAX_ZONES && z < MAX_ZONES && ps != []
    ensures var p := ps[0];
            var mins := PlanMinutes(pl, z, p);
            FromGap(pl, z, since, used, ps) ==
              if p.ms < since + DELAY_BETWEEN_ZONES then FromGap(pl, z, since, used, ps[1..])
              else Opening(pl, z, mins, p.ms) + FromZone(pl, z, p.ms, mins, used, ps[1..])
  {
    hide FromZone, PlanMinutes, Opening;
  }

  /** The refinement, in the middle of a zone. */
  lemma {:induction false} ZoneRefines(s: State, since: nat, prev: nat, ps: seq<Moment>)
    requires InZone(s, since, prev) && Steady(prev, ps, MAX_GAP)
    ensures RunToIdle(s, ps).log ==
            s.log + FromZone(PlanOf(s), s.zone, since, s.zoneMins, Used(s.log), ps)
    ensures RunToIdle(s, ps).schedule == NO_SCHEDULE <==>
            Finished(FromZone(PlanOf(s), s.zone, since, s.zoneMins, Used(s.log), ps))
    decreases |ps|
  {
    hide Poll, AfterZone, Inv, PlanOf, EndOfZone, WaterOf, Minutes, Used, Durations, Adjusted, FromZone, FromGap, Int16,
         Wrap16, FirstFrom, SchedulePresent;
    if ps == [] {
      NothingYet(PlanOf(s), s.zone, since, s.zoneMins, Used(s.log));
    } else {
      var p := ps[0];
      var pl := PlanOf(s);
      FromZoneStep(pl, s.zone, since, s.zoneMins, Used(s.log), ps);
      ZonePoll(s, since, prev, p);
      var s1 := Poll(s, p);
      if p.ms < since + s.zoneMins * 60000 {
        ZoneRefines(s, since, p.ms, ps[1..]);
      } else {
        ZoneEnd(s, p);
        var dur := Minutes(p, s.startZone);
        var w := WaterOf(dur, s.cfg.zones[s.zone].flow);
        var e := EndOfZone(pl, s.zone, dur, w, p.ms);
        var next := FirstFrom(pl.d, s.zone + 1, s.cfg.numZones);
        if next < 0 {
          assert RunToIdle(s1, ps[1..]) == s1;
        } else {
          GapRefines(s1, p.ms, p.ms, ps[1..]);
          assert s.log + (e + FromGap(pl, next, p.ms, Used(s.log) + w, ps[1..]))
              == s.log + e + FromGap(pl, next, p.ms, Used(s.log) + w, ps[1..]);
        }
      }
    }
  }

  /** The refinement, in the middle of a delay. */
  lemma {:induction false} GapRefines(s: State, since: nat, prev: nat, ps: seq<Moment>)
    requires InGap(s, since, prev) && Steady(prev, ps, MAX_GAP)
    ensures s.nextZone >= 0
    ensures RunToIdle(s, ps).log ==
            s.log + FromGap(PlanOf(s), s.nextZone, since, Used(s.log), ps)
    ensures RunToIdle(s, ps).schedule == NO_SCHEDULE <==>
            Finished(FromGap(PlanOf(s), s.nextZone, since, Used(s.log), ps))
    decreases |ps|
  {
    hide Poll, AfterDelay, PlanOf, Opening, Used, Valves, WaterExact, WaterBounded, Durations, Adjusted,
         FromZone, FromGap;
    if ps == [] {
      NothingYet(PlanOf(s), s.nextZone, since, 0, Used(s.log));
    } else {
      var p := ps[0];
      var pl := PlanOf(s);
      FromGapStep(pl, s.nextZone, since, Used(s.log), ps);
      GapPoll(s, since, prev, p);
      var s1 := Poll(s, p);
      if p.ms < since + DELAY_BETWEEN_ZONES {
        GapRefines(s, since, p.ms, ps[1..]);
      } else {
        GapEnd(s, p);
        ZoneRefines(s1, p.ms, p.ms, ps[1..]);
        var e := Opening(pl, s.nextZone, s1.zoneMins, p.ms);
        var t := FromZone(pl, s.nextZone, p.ms, s1.zoneMins, Used(s.log), ps[1..]);
        assert s.log + (e + t) == s.log + e + t;
      }
    }
  }

  lemma NothingYet(pl: Plan, z: nat, since: nat, mins: u8, used: nat)
    requires |pl.d| == MAX_ZONES && z < MAX_ZONES
    ensures FromZone(pl, z, since, mins, used, []) == [] == FromGap(pl, z, since, used, [])
  {}
}
