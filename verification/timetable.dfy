/** What the timetable of an undisturbed schedule promises, and that it ends. */
module Timetable {
  import opened Words
  import opened Site
  import opened Scheduler
  import opened SchedulerInvariant
  import opened Undisturbed
  import opened Quantities

  // ----- reading a log -----

  datatype Pace = Fresh | Closed(last: nat, at: nat) | Opened(zone: nat, since: nat, mins: u8)

  /** Running summary of a log: zones opened, zones closed, water of the zone
      records, water of the schedule records, and whether every zone stayed open
      for its minutes and every gap was kept. */
  datatype Summary = Summary(
    ons: seq<nat>, offs: seq<nat>, water: nat, records: seq<u16>, pace: Pace, ok: bool)

  const EMPTY := Summary([], [], 0, [], Fresh, true)

  function Paced(p: Pace, e: Event): Pace
  {
    match e
    case On(z, _, mins, ms) => Opened(z, ms, mins)
    case Off(z, _, ms) => Closed(z, ms)
    case _ => p
  }

  function Note(r: Summary, e: Event): Summary
  {
    match e
    case Begin(_, _) => r
    case On(z, _, mins, ms) =>
      r.(ons := r.ons + [z], pace := Paced(r.pace, e),
         ok := r.ok && (r.pace.Fresh? || (r.pace.Closed? && ms >= r.pace.at + DELAY_BETWEEN_ZONES)))
    case Off(z, _, ms) =>
      r.(offs := r.offs + [z], pace := Paced(r.pace, e),
         ok := r.ok && r.pace.Opened? && r.pace.zone == z && ms >= r.pace.since + r.pace.mins * 60000)
    case ZoneLog(_, _, w, _) => r.(water := r.water + w)
    case SchedLog(_, _, w) => r.(records := r.records + [w])
    case Reset(_, _) => r
  }

  function Read(r: Summary, es: seq<Event>): Summary
    decreases |es|
  {
    if es == [] then r else Read(Note(r, es[0]), es[1..])
  }

  lemma {:induction false} ReadConcat(r: Summary, a: seq<Event>, b: seq<Event>)
    ensures Read(r, a + b) == Read(Read(r, a), b)
    decreases |a|
  {
    if a == [] {
      assert a + b == b;
    } else {
      assert (a + b)[1..] == a[1..] + b;
      ReadConcat(Note(r, a[0]), a[1..], b);
    }
  }

  // ----- the promise -----

  /** Zones from `z` on that have a duration and a working route, in order. */
  function Watered(pl: Plan, z: nat): seq<nat>
    requires |pl.d| == MAX_ZONES
    decreases pl.cfg.numZones - z
  {
    if z >= pl.cfg.numZones then []
    else (if pl.d[z] != 0 then Own(pl, z) else []) + Watered(pl, z + 1)
  }

  function Own(pl: Plan, z: nat): seq<nat>
  {
    if Accepts(pl.cfg, RouteOf(pl.cfg, z)) then [z] else []
  }

  lemma {:induction false} WateredSkips(pl: Plan, z: nat)
    requires |pl.d| == MAX_ZONES
    ensures var n := FirstFrom(pl.d, z, pl.cfg.numZones);
            Watered(pl, z) == if n < 0 then [] else Own(pl, n) + Watered(pl, n + 1)
    decreases pl.cfg.numZones - z
  {
    hide Own;
    if z < pl.cfg.numZones && pl.d[z] == 0 {
      var rest := Watered(pl, z + 1);
      assert Watered(pl, z) == [] + rest == rest;
      assert FirstFrom(pl.d, z, pl.cfg.numZones) == FirstFrom(pl.d, z + 1, pl.cfg.numZones);
      hide Watered, FirstFrom;
      WateredSkips(pl, z + 1);
    }
  }

  /** From summary `r` to `x`: the pace was kept, and the zones opened and closed are
      those still due, all of them with one honest record if the schedule is over. */
  ghost predicate Kept(r: Summary, x: Summary, on: seq<nat>, off: seq<nat>)
  {
    && x.ok
    && (if x.records == [] then r.ons <= x.ons <= r.ons + on && r.offs <= x.offs <= r.offs + off
        else x.ons == r.ons + on && x.offs == r.offs + off && |x.records| == 1 && x.records[0] == x.water / 100)
  }

  ghost predicate ReadyAt(r: Summary, since: nat)
  {
    r.ok && r.records == [] && !r.pace.Opened? && (r.pace.Closed? ==> r.pace.at <= since)
  }

  lemma ReadOne(r: Summary, e: Event)
    ensures Read(r, [e]) == Note(r, e)
  {
    assert [e][1..] == [];
    assert Read(Note(r, e), []) == Note(r, e);
  }

  /** Zone `z` has been open since `since`, or is one whose commands are refused. */
  ghost predicate RunningAt(pl: Plan, r: Summary, z: nat, since: nat, mins: u8)
  {
    && r.ok && r.records == []
    && if Accepts(pl.cfg, RouteOf(pl.cfg, z)) then r.pace == Opened(z, since, mins) else ReadyAt(r, since)
  }

  lemma EndOfZoneRead(pl: Plan, z: nat, since: nat, mins: u8, dur: int, w: u16, ms: nat, r: Summary)
    requires RunningAt(pl, r, z, since, mins) && ms >= since + mins * 60000
    ensures var x := Read(r, EndOfZone(pl, z, dur, w, ms));
            x.ons == r.ons && x.offs == r.offs + Own(pl, z) && x.water == r.water + w && ReadyAt(x, ms)
  {
    hide RouteOf, Accepts;
    var e := ZoneLog(z, dur, w, pl.id);
    ReadOne(r, e);
    ReadConcat(r, [e], Closing(pl, z, ms));
    if Closing(pl, z, ms) != [] { ReadOne(Note(r, e), Closing(pl, z, ms)[0]); }
  }

  lemma OpeningRead(pl: Plan, z: nat, since: nat, mins: u8, ms: nat, r: Summary)
    requires ReadyAt(r, since) && ms >= since + DELAY_BETWEEN_ZONES
    ensures var x := Read(r, Opening(pl, z, mins, ms));
            x.ons == r.ons + Own(pl, z) && x.offs == r.offs && x.water == r.water && RunningAt(pl, x, z, ms, mins)
  {
    hide RouteOf, Accepts;
    if Opening(pl, z, mins, ms) != [] { ReadOne(r, Opening(pl, z, mins, ms)[0]); }
  }

  lemma KeptNothing(r: Summary, on: seq<nat>, off: seq<nat>)
    requires r.ok && r.records == []
    ensures Kept(r, r, on, off)
  {}

  lemma KeptChain(r: Summary, r1: Summary, x: Summary, on1: seq<nat>, off1: seq<nat>, on: seq<nat>, off: seq<nat>)
    requires r1.ons == r.ons + on1 && r1.offs == r.offs + off1 && Kept(r1, x, on, off)
    ensures Kept(r, x, on1 + on, off1 + off)
  {
    assert r.ons + (on1 + on) == r1.ons + on && r.offs + (off1 + off) == r1.offs + off;
  }

  lemma RecordKept(r: Summary, id: int, dur: int)
    requires r.ok && r.records == [] && r.water <= 0xFFFF * MAX_ZONES
    ensures var x := Read(r, [SchedLog(id, dur, Wrap16(r.water / 100))]); Kept(r, x, [], []) && x.records != []
  {
    ReadOne(r, SchedLog(id, dur, Wrap16(r.water / 100)));
  }

  lemma {:induction false} ZonePromise(pl: Plan, z: nat, since: nat, mins: u8, ps: seq<Moment>, r: Summary)
    requires |pl.d| == MAX_ZONES && z < MAX_ZONES && RunningAt(pl, r, z, since, mins) && r.water <= 0xFFFF * z
    ensures var es := FromZone(pl, z, since, mins, r.water, ps);
            var x := Read(r, es);
            Kept(r, x, Watered(pl, z + 1), Own(pl, z) + Watered(pl, z + 1)) && (Finished(es) <==> x.records != [])
    decreases |ps|, 1
  {
    hide WaterOf, Minutes, Int16, EndOfZone, Own, Note, Kept, Read, Watered, RouteOf, Accepts, FromGap;
    var q := Await(ps, since + mins * 60000);
    var own, rest := Own(pl, z), Watered(pl, z + 1);
    if q == [] {
      KeptNothing(r, rest, own + rest);
      ReadNothing(r);
    } else {
      var p := q[0];
      var dur := Int16((p.ms - since) / 60000);
      var w := WaterOf(dur, pl.cfg.zones[z].flow);
      var next := FirstFrom(pl.d, z + 1, pl.cfg.numZones);
      var e := EndOfZone(pl, z, dur, w, p.ms);
      var r1 := Read(r, e);
      EndOfZoneRead(pl, z, since, mins, dur, w, p.ms, r);
      WateredSkips(pl, z + 1);
      if next < 0 {
        var last := SchedLog(pl.id, Minutes(p, pl.startSched), Wrap16(r1.water / 100));
        RecordKept(r1, pl.id, Minutes(p, pl.startSched));
        ReadConcat(r, e, [last]);
        KeptChain(r, r1, Read(r1, [last]), [], own, [], []);
        assert own + [] == own;
      } else {
        assert r1.water <= 0xFFFF * next;
        var t := FromGap(pl, next, p.ms, r1.water, q[1..]);
        GapPromise(pl, next, p.ms, q[1..], r1);
        RestPromise(r, r1, e, t, own, rest);
      }
    }
  }

  /** A zone's own events, then those of the rest. */
  lemma RestPromise(r: Summary, r1: Summary, e: seq<Event>, t: seq<Event>, own: seq<nat>, rest: seq<nat>)
    requires r1 == Read(r, e) && r1.ons == r.ons && r1.offs == r.offs + own && !Finished(e)
    requires Kept(r1, Read(r1, t), rest, rest) && (Finished(t) <==> Read(r1, t).records != [])
    ensures Kept(r, Read(r, e + t), rest, own + rest) && (Finished(e + t) <==> Read(r, e + t).records != [])
  {
    hide Kept, Read, Finished;
    ReadConcat(r, e, t);
    assert r.ons == r.ons + [];
    KeptChain(r, r1, Read(r1, t), [], own, rest, rest);
    assert [] + rest == rest;
    FinishedTail(e, t);
  }

  lemma ReadNothing(r: Summary)
    ensures Read(r, []) == r
  {}

  lemma FinishedTail(e: seq<Event>, t: seq<Event>)
    requires !Finished(e)
    ensures Finished(e + t) <==> Finished(t)
  {
    if t == [] { assert e + t == e; }
  }

  lemma {:induction false} GapPromise(pl: Plan, z: nat, since: nat, ps: seq<Moment>, r: Summary)
    requires |pl.d| == MAX_ZONES && z < MAX_ZONES && ReadyAt(r, since) && r.water <= 0xFFFF * z
    ensures var es := FromGap(pl, z, since, r.water, ps);
            var x := Read(r, es);
            var due := Own(pl, z) + Watered(pl, z + 1);
            Kept(r, x, due, due) && (Finished(es) <==> x.records != [])
    decreases |ps|, 1
  {
    hide PlanMinutes, RunningAt, Opening, Own, Note, Kept, Read, Watered, FromZone, RouteOf, Accepts;
    var q := Await(ps, since + DELAY_BETWEEN_ZONES);
    var own, rest := Own(pl, z), Watered(pl, z + 1);
    if q == [] {
      KeptNothing(r, own + rest, own + rest);
      ReadNothing(r);
    } else {
      var p := q[0];
      var mins := PlanMinutes(pl, z, p);
      var e := Opening(pl, z, mins, p.ms);
      var r1 := Read(r, e);
      OpeningRead(pl, z, since, mins, p.ms, r);
      var t := FromZone(pl, z, p.ms, mins, r.water, q[1..]);
      ZonePromise(pl, z, p.ms, mins, q[1..], r1);
      ReadConcat(r, e, t);
      KeptChain(r, r1, Read(r1, t), own, [], rest, own + rest);
      assert [] + (own + rest) == own + rest;
      FinishedTail(e, t);
    }
  }

  // ----- the minutes -----

  /** An opening has the minutes that the plan gives its zone at the poll that made it;
      commands go along the route of their zone; a zone record has the product of its
      minutes and the flow of its zone, in 16 bits; records name the schedule. */
  ghost predicate Planned(pl: Plan, seen: seq<Moment>, e: Event)
    requires |pl.d| == MAX_ZONES
  {
    match e
    case On(z, r, mins, ms) =>
      && z < MAX_ZONES && r == RouteOf(pl.cfg, z)
      && exists p :: p in seen && p.ms == ms && mins == PlanMinutes(pl, z, p)
    case Off(z, r, _) => r == RouteOf(pl.cfg, z)
    case ZoneLog(z, dur, w, id) => z < MAX_ZONES && w == Wrap16(dur * pl.cfg.zones[z].flow) && id == pl.id
    case SchedLog(id, _, _) => id == pl.id
    case Begin(id, _) => id == pl.id
    case Reset(_, _) => false
  }

  lemma OpeningPlanned(pl: Plan, z: nat, p: Moment, seen: seq<Moment>)
    requires |pl.d| == MAX_ZONES && z < MAX_ZONES && p in seen
    ensures forall e | e in Opening(pl, z, PlanMinutes(pl, z, p), p.ms) :: Planned(pl, seen, e) && !e.Begin?
  {
    hide RouteOf, Accepts, PlanMinutes;
  }

  lemma EndPlanned(pl: Plan, z: nat, dur: int, ms: nat, seen: seq<Moment>)
    requires |pl.d| == MAX_ZONES && z < MAX_ZONES
    ensures forall e | e in EndOfZone(pl, z, dur, WaterOf(dur, pl.cfg.zones[z].flow), ms) ::
              Planned(pl, seen, e) && !e.Begin?
  {
    hide RouteOf, Accepts, WaterOf;
    WaterIsProduct(dur, pl.cfg.zones[z].flow);
  }

  lemma {:induction false} ZonePlanned(pl: Plan, z: nat, since: nat, mins: u8, used: nat,
                                       ps: seq<Moment>, seen: seq<Moment>)
    requires |pl.d| == MAX_ZONES && z < MAX_ZONES && forall p | p in ps :: p in seen
    ensures forall e | e in FromZone(pl, z, since, mins, used, ps) :: Planned(pl, seen, e) && !e.Begin?
    decreases |ps|, 1
  {
    hide WaterOf, Minutes, Int16, FromGap, FirstFrom, PlanMinutes, EndOfZone;
    var q := Await(ps, since + mins * 60000);
    if q != [] {
      var dur := Int16((q[0].ms - since) / 60000);
      var w := WaterOf(dur, pl.cfg.zones[z].flow);
      EndPlanned(pl, z, dur, q[0].ms, seen);
      var next := FirstFrom(pl.d, z + 1, pl.cfg.numZones);
      if next >= 0 { GapPlanned(pl, next, q[0].ms, used + w, q[1..], seen); }
    }
  }

  lemma {:induction false} GapPlanned(pl: Plan, z: nat, since: nat, used: nat, ps: seq<Moment>, seen: seq<Moment>)
    requires |pl.d| == MAX_ZONES && z < MAX_ZONES && forall p | p in ps :: p in seen
    ensures forall e | e in FromGap(pl, z, since, used, ps) :: Planned(pl, seen, e) && !e.Begin?
    decreases |ps|, 1
  {
    hide FromZone, PlanMinutes, Opening;
    var q := Await(ps, since + DELAY_BETWEEN_ZONES);
    if q != [] {
      OpeningPlanned(pl, z, q[0], seen);
      ZonePlanned(pl, z, q[0].ms, PlanMinutes(pl, z, q[0]), used, q[1..], seen);
    }
  }

  // ----- the records -----

  /** The closing at `i` comes right after the record of its zone, whose duration is the
      time since an opening of that zone, in minutes. */
  ghost predicate ClosedRight(log: seq<Event>, i: nat)
    requires i < |log| && log[i].Off?
  {
    && i > 0 && log[i - 1].ZoneLog? && log[i - 1].zone == log[i].zone
    && exists j :: 0 <= j < i && log[j].On? && log[j].zone == log[i].zone
                   && log[i - 1].duration == Int16((log[i].ms - log[j].ms) / 60000)
  }

  /** A schedule record after a closing has the time from the start to that closing. */
  ghost predicate EndedRight(pl: Plan, log: seq<Event>, i: nat)
    requires i < |log| && log[i].SchedLog?
  {
    i > 0 && log[i - 1].Off? ==>
      log[i].duration == Int16(Elapsed(Wrap32(log[i - 1].ms), pl.startSched) / 60000)
  }

  ghost predicate Recorded(pl: Plan, log: seq<Event>)
  {
    forall i | 0 <= i < |log| ::
      (log[i].Off? ==> ClosedRight(log, i)) && (log[i].SchedLog? ==> EndedRight(pl, log, i))
  }

  /** Zone `z` was opened at `since`, if its commands are carried out. */
  ghost predicate WasOpened(pl: Plan, log: seq<Event>, z: nat, since: nat)
  {
    Accepts(pl.cfg, RouteOf(pl.cfg, z)) ==>
      exists j :: 0 <= j < |log| && log[j].On? && log[j].zone == z && log[j].ms == since
  }

  lemma RecordedOne(pl: Plan, log: seq<Event>, e: Event)
    requires Recorded(pl, log)
    requires e.Off? ==> ClosedRight(log + [e], |log|)
    requires e.SchedLog? ==> EndedRight(pl, log + [e], |log|)
    ensures Recorded(pl, log + [e])
  {
    var l := log + [e];
    forall i | 0 <= i < |log|
      ensures (l[i].Off? ==> ClosedRight(l, i)) && (l[i].SchedLog? ==> EndedRight(pl, l, i))
    {
      assert l[i] == log[i];
      if log[i].Off? {
        var j :| 0 <= j < i && log[j].On? && log[j].zone == log[i].zone
                 && log[i - 1].duration == Int16((log[i].ms - log[j].ms) / 60000);
        assert l[j] == log[j];
      }
    }
  }

  lemma OpeningRecorded(pl: Plan, log: seq<Event>, z: nat, mins: u8, ms: nat)
    requires Recorded(pl, log)
    ensures var l := log + Opening(pl, z, mins, ms); Recorded(pl, l) && WasOpened(pl, l, z, ms)
  {
    hide Recorded, RouteOf, Accepts;
    var es := Opening(pl, z, mins, ms);
    if es == [] {
      assert log + es == log;
    } else {
      RecordedOne(pl, log, es[0]);
      assert (log + es)[|log|] == es[0];
    }
  }

  lemma EndRecorded(pl: Plan, log: seq<Event>, z: nat, since: nat, w: u16, ms: nat)
    requires Recorded(pl, log) && WasOpened(pl, log, z, since)
    ensures var l := log + EndOfZone(pl, z, Int16((ms - since) / 60000), w, ms);
            Recorded(pl, l) && l != [] && !l[|l| - 1].SchedLog? && (l[|l| - 1].Off? ==> l[|l| - 1].ms == ms)
  {
    hide Recorded, RouteOf, Accepts, Int16;
    var record := ZoneLog(z, Int16((ms - since) / 60000), w, pl.id);
    var c := Closing(pl, z, ms);
    RecordedOne(pl, log, record);
    if c == [] {
      assert [record] + c == [record];
    } else {
      var l := log + [record] + [c[0]];
      var j :| 0 <= j < |log| && log[j].On? && log[j].zone == z && log[j].ms == since;
      assert l[j] == log[j] && l[|log|] == record && l[|log| + 1] == c[0];
      assert ClosedRight(l, |log| + 1);
      RecordedOne(pl, log + [record], c[0]);
      assert log + ([record] + c) == l;
    }
  }

  lemma {:induction false} ZoneRecorded(pl: Plan, log: seq<Event>, z: nat, since: nat, mins: u8, used: nat,
                                        ps: seq<Moment>)
    requires |pl.d| == MAX_ZONES && z < MAX_ZONES && Recorded(pl, log) && WasOpened(pl, log, z, since)
    ensures Recorded(pl, log + FromZone(pl, z, since, mins, used, ps))
    decreases |ps|, 1
  {
    hide WaterOf, Int16, FromGap, FirstFrom, EndOfZone, Recorded, WasOpened, Await, Elapsed, Wrap16;
    var q := Await(ps, since + mins * 60000);
    if q == [] {
      assert log + [] == log;
    } else {
      var dur := Int16((q[0].ms - since) / 60000);
      var w := WaterOf(dur, pl.cfg.zones[z].flow);
      var next := FirstFrom(pl.d, z + 1, pl.cfg.numZones);
      var e := EndOfZone(pl, z, dur, w, q[0].ms);
      EndRecorded(pl, log, z, since, w, q[0].ms);
      if next < 0 {
        var last := SchedLog(pl.id, Minutes(q[0], pl.startSched), Wrap16((used + w) / 100));
        RecordedOne(pl, log + e, last);
        assert log + (e + [last]) == log + e + [last];
      } else {
        var t := FromGap(pl, next, q[0].ms, used + w, q[1..]);
        GapRecorded(pl, log + e, next, q[0].ms, used + w, q[1..]);
        assert log + (e + t) == log + e + t;
      }
    }
  }

  lemma {:induction false} GapRecorded(pl: Plan, log: seq<Event>, z: nat, since: nat, used: nat, ps: seq<Moment>)
    requires |pl.d| == MAX_ZONES && z < MAX_ZONES && Recorded(pl, log)
    ensures Recorded(pl, log + FromGap(pl, z, since, used, ps))
    decreases |ps|, 1
  {
    hide FromZone, PlanMinutes, Opening, Recorded, WasOpened, Await;
    var q := Await(ps, since + DELAY_BETWEEN_ZONES);
    if q == [] {
      assert log + [] == log;
    } else {
      var mins := PlanMinutes(pl, z, q[0]);
      var e := Opening(pl, z, mins, q[0].ms);
      var t := FromZone(pl, z, q[0].ms, mins, used, q[1..]);
      OpeningRecorded(pl, log, z, mins, q[0].ms);
      ZoneRecorded(pl, log + e, z, q[0].ms, mins, used, q[1..]);
      assert log + (e + t) == log + e + t;
    }
  }

  // ----- promptness -----

  /** The clock times of some moments. */
  function Times(ps: seq<Moment>): set<nat>
  {
    set q | q in ps :: q.ms
  }

  /** No poll, at one of the times `seen`, after `since` found the time `due` come
      before `ms`. */
  ghost predicate FirstPoll(seen: set<nat>, since: nat, due: nat, ms: nat)
  {
    forall t | t in seen :: !(since < t < ms && due <= t)
  }

  /** A zone is closed at the first poll that finds its minutes over; the next watered
      zone is opened at the first poll that finds the delay over, and the very first
      one at once, at `start`. */
  ghost predicate PromptEvent(pl: Plan, start: nat, seen: set<nat>, p: Pace, e: Event)
    requires |pl.d| == MAX_ZONES
  {
    match e
    case Off(_, _, ms) => p.Opened? ==> FirstPoll(seen, p.since, p.since + p.mins * 60000, ms)
    case On(z, _, _, ms) =>
      && (p.Closed? && FirstFrom(pl.d, p.last + 1, pl.cfg.numZones) == z ==>
        FirstPoll(seen, p.at, p.at + DELAY_BETWEEN_ZONES, ms))
      && (p.Fresh? && FirstFrom(pl.d, 0, pl.cfg.numZones) == z ==> ms == start)
    case _ => true
  }

  ghost predicate Prompt(pl: Plan, start: nat, seen: set<nat>, p: Pace, es: seq<Event>)
    requires |pl.d| == MAX_ZONES
    decreases |es|
  {
    es == [] || (PromptEvent(pl, start, seen, p, es[0]) && Prompt(pl, start, seen, Paced(p, es[0]), es[1..]))
  }

  function PacedAll(p: Pace, es: seq<Event>): Pace
    decreases |es|
  {
    if es == [] then p else PacedAll(Paced(p, es[0]), es[1..])
  }

  lemma {:induction false} PromptConcat(pl: Plan, start: nat, seen: set<nat>, p: Pace, a: seq<Event>, b: seq<Event>)
    requires |pl.d| == MAX_ZONES
    ensures Prompt(pl, start, seen, p, a + b) <==>
            Prompt(pl, start, seen, p, a) && Prompt(pl, start, seen, PacedAll(p, a), b)
    decreases |a|
  {
    hide PromptEvent;
    if a == [] {
      assert a + b == b;
    } else {
      assert (a + b)[1..] == a[1..] + b;
      PromptConcat(pl, start, seen, Paced(p, a[0]), a[1..], b);
    }
  }

  /** `ps` are the polls of `seen` after `since`, in order. */
  ghost predicate Ahead(seen: set<nat>, since: nat, ps: seq<Moment>)
  {
    && Sorted(ps) && (forall i | 0 <= i < |ps| :: since <= ps[i].ms)
    && forall t | t in seen && since < t :: t in Times(ps)
  }

  /** Where a time stands among sorted polls. */
  lemma PlaceOf(ps: seq<Moment>, n: nat, t: nat)
    requires Sorted(ps) && n < |ps| && t in Times(ps)
    ensures t < ps[n].ms ==> t in Times(ps[..n])
    ensures ps[n].ms < t ==> t in Times(ps[n + 1..])
  {
    var i :| 0 <= i < |ps| && ps[i].ms == t;
    if i < n { assert ps[..n][i].ms == t; }
    if i > n { assert ps[n + 1..][i - n - 1].ms == t; }
  }

  lemma SortedTail(ps: seq<Moment>, n: nat)
    requires Sorted(ps) && n <= |ps|
    ensures Sorted(ps[n..])
  {}

  /** The poll that was awaited is the first one, and the others are ahead of it. */
  lemma Awaited(seen: set<nat>, since: nat, ps: seq<Moment>, deadline: nat)
    requires Ahead(seen, since, ps) && Await(ps, deadline) != [] && since <= deadline
    ensures var q := Await(ps, deadline);
            FirstPoll(seen, since, deadline, q[0].ms) && Ahead(seen, q[0].ms, q[1..]) && since <= q[0].ms
  {
    var q := Await(ps, deadline);
    var n := |ps| - |q|;
    assert q == ps[n..] && q[0] == ps[n] && q[1..] == ps[n + 1..];
    assert forall t | t in Times(ps[..n]) :: t < deadline;
    hide Await, Times;
    forall t | t in seen && since < t
      ensures t < ps[n].ms ==> t < deadline
      ensures ps[n].ms < t ==> t in Times(ps[n + 1..])
    {
      PlaceOf(ps, n, t);
    }
    SortedTail(ps, n + 1);
    assert forall i | 0 <= i < |q[1..]| :: q[1..][i] == ps[n + 1 + i];
  }

  /** A refused zone leaves no events, so the pace is that of an earlier zone. */
  ghost predicate PaceBefore(p: Pace, z: nat)
  {
    p.Fresh? || (p.Closed? && p.last < z)
  }

  /** Zone `z` has been running since `since`. */
  ghost predicate PaceIn(pl: Plan, p: Pace, z: nat, since: nat, mins: u8)
    requires |pl.d| == MAX_ZONES
  {
    && z < MAX_ZONES && pl.d[z] != 0
    && if Accepts(pl.cfg, RouteOf(pl.cfg, z)) then p == Opened(z, since, mins) else PaceBefore(p, z)
  }

  /** A delay before zone `z` since `since`. */
  ghost predicate PaceTo(pl: Plan, p: Pace, z: nat, since: nat)
    requires |pl.d| == MAX_ZONES
  {
    && z < MAX_ZONES && pl.d[z] != 0 && PaceBefore(p, z)
    && (p.Closed? && FirstFrom(pl.d, p.last + 1, pl.cfg.numZones) == z ==> p.at == since)
    && (p.Fresh? ==> FirstFrom(pl.d, 0, pl.cfg.numZones) != z)
  }

  lemma EndOfZonePrompt(pl: Plan, start: nat, seen: set<nat>, p: Pace, z: nat, since: nat, mins: u8,
                        dur: int, w: u16, ms: nat)
    requires |pl.d| == MAX_ZONES && PaceIn(pl, p, z, since, mins)
    requires FirstPoll(seen, since, since + mins * 60000, ms)
    ensures var es := EndOfZone(pl, z, dur, w, ms);
            && Prompt(pl, start, seen, p, es)
            && PacedAll(p, es) == if Accepts(pl.cfg, RouteOf(pl.cfg, z)) then Closed(z, ms) else p
  {
    hide Accepts, RouteOf, FirstPoll;
    var log := ZoneLog(z, dur, w, pl.id);
    var c := Closing(pl, z, ms);
    PromptConcat(pl, start, seen, p, [log], c);
    PromptOne(pl, start, seen, p, log);
    assert ([log] + c)[1..] == c;
    if c != [] { PromptOne(pl, start, seen, p, c[0]); }
  }

  lemma PromptOne(pl: Plan, start: nat, seen: set<nat>, p: Pace, e: Event)
    requires |pl.d| == MAX_ZONES
    ensures (Prompt(pl, start, seen, p, [e]) <==> PromptEvent(pl, start, seen, p, e)) && PacedAll(p, [e]) == Paced(p, e)
  {
    hide PromptEvent;
    assert [e][1..] == [];
  }

  /** After zone `z` the pace fits the delay before the next watered one. */
  lemma PaceGoesOn(pl: Plan, p: Pace, z: nat, since: nat, mins: u8, ms: nat)
    requires |pl.d| == MAX_ZONES && PaceIn(pl, p, z, since, mins)
    requires FirstFrom(pl.d, z + 1, pl.cfg.numZones) >= 0
    ensures var r := if Accepts(pl.cfg, RouteOf(pl.cfg, z)) then Closed(z, ms) else p;
            PaceTo(pl, r, FirstFrom(pl.d, z + 1, pl.cfg.numZones), ms)
  {
    hide Accepts, RouteOf;
  }

  lemma {:induction false} ZonePrompt(pl: Plan, start: nat, seen: set<nat>, p: Pace, z: nat, since: nat,
                                      mins: u8, used: nat, ps: seq<Moment>)
    requires |pl.d| == MAX_ZONES && PaceIn(pl, p, z, since, mins) && Ahead(seen, since, ps)
    ensures Prompt(pl, start, seen, p, FromZone(pl, z, since, mins, used, ps))
    decreases |ps|, 1
  {
    hide WaterOf, Minutes, Int16, FromGap, FirstFrom, PaceIn, PaceTo, Prompt, EndOfZone, Ahead, FirstPoll, Accepts,
         RouteOf, Await, PacedAll, Wrap16, Closing;
    assert z < MAX_ZONES by { PaceInZone(pl, p, z, since, mins); }
    var q := Await(ps, since + mins * 60000);
    if q == [] {
      PromptNothing(pl, start, seen, p);
    } else {
      var dur := Int16((q[0].ms - since) / 60000);
      var w := WaterOf(dur, pl.cfg.zones[z].flow);
      var next := FirstFrom(pl.d, z + 1, pl.cfg.numZones);
      var e := EndOfZone(pl, z, dur, w, q[0].ms);
      Awaited(seen, since, ps, since + mins * 60000);
      EndOfZonePrompt(pl, start, seen, p, z, since, mins, dur, w, q[0].ms);
      if next < 0 {
        var last := SchedLog(pl.id, Minutes(q[0], pl.startSched), Wrap16((used + w) / 100));
        PromptConcat(pl, start, seen, p, e, [last]);
        PromptOne(pl, start, seen, PacedAll(p, e), last);
      } else {
        var t := FromGap(pl, next, q[0].ms, used + w, q[1..]);
        PaceGoesOn(pl, p, z, since, mins, q[0].ms);
        GapPrompt(pl, start, seen, PacedAll(p, e), next, q[0].ms, used + w, q[1..]);
        PromptConcat(pl, start, seen, p, e, t);
      }
    }
  }

  lemma PromptNothing(pl: Plan, start: nat, seen: set<nat>, p: Pace)
    requires |pl.d| == MAX_ZONES
    ensures Prompt(pl, start, seen, p, [])
  {}

  lemma OpeningPrompt(pl: Plan, start: nat, seen: set<nat>, p: Pace, z: nat, since: nat, mins: u8, ms: nat)
    requires |pl.d| == MAX_ZONES && PaceTo(pl, p, z, since)
    requires FirstPoll(seen, since, since + DELAY_BETWEEN_ZONES, ms)
    ensures var es := Opening(pl, z, mins, ms);
            Prompt(pl, start, seen, p, es) && PaceIn(pl, PacedAll(p, es), z, ms, mins)
  {
    hide Accepts, RouteOf, FirstPoll;
    var es := Opening(pl, z, mins, ms);
    if es != [] { PromptOne(pl, start, seen, p, es[0]); }
  }

  lemma {:induction false} GapPrompt(pl: Plan, start: nat, seen: set<nat>, p: Pace, z: nat, since: nat, used: nat,
                                     ps: seq<Moment>)
    requires |pl.d| == MAX_ZONES && PaceTo(pl, p, z, since) && Ahead(seen, since, ps)
    ensures Prompt(pl, start, seen, p, FromGap(pl, z, since, used, ps))
    decreases |ps|, 1
  {
    hide FromZone, PlanMinutes, Opening, PaceIn, PaceTo, Prompt, Ahead, FirstPoll;
    assert z < MAX_ZONES by { PaceToZone(pl, p, z, since); }
    var q := Await(ps, since + DELAY_BETWEEN_ZONES);
    if q == [] {
      PromptNothing(pl, start, seen, p);
    } else {
      var mins := PlanMinutes(pl, z, q[0]);
      var e := Opening(pl, z, mins, q[0].ms);
      Awaited(seen, since, ps, since + DELAY_BETWEEN_ZONES);
      OpeningPrompt(pl, start, seen, p, z, since, mins, q[0].ms);
      ZonePrompt(pl, start, seen, PacedAll(p, e), z, q[0].ms, mins, used, q[1..]);
      PromptConcat(pl, start, seen, p, e, FromZone(pl, z, q[0].ms, mins, used, q[1..]));
    }
  }

  lemma PaceInZone(pl: Plan, p: Pace, z: nat, since: nat, mins: u8)
    requires |pl.d| == MAX_ZONES && PaceIn(pl, p, z, since, mins)
    ensures z < MAX_ZONES
  {}

  lemma PaceToZone(pl: Plan, p: Pace, z: nat, since: nat)
    requires |pl.d| == MAX_ZONES && PaceTo(pl, p, z, since)
    ensures z < MAX_ZONES
  {}

  // ----- whole schedules -----

  /** The idle state `s` can open schedule `id`, the quick one or a stored one, with
      durations `d`, at least one of them not zero. */
  ghost predicate Startable(s: State, id: int, d: seq<u8>, adj: bool)
  {
    && Idle(s) && s.water == 0 && s.running && |d| == MAX_ZONES
    && (if id == QUICK_SCHEDULE then d == s.quick && !adj
        else 0 <= id < MAX_SCHEDULES && s.table[id].enabled && d == s.table[id].duration && adj == s.table[id].wadj)
    && FirstFrom(d, 0, s.cfg.numZones) >= 0
  }

  lemma OpenLog(s: State, id: int, d: seq<u8>, adj: bool, now: Moment)
    requires |d| == MAX_ZONES && FirstFrom(d, 0, s.cfg.numZones) >= 0
    ensures var z := FirstFrom(d, 0, s.cfg.numZones);
            var r := Open(s, id, d, adj, now);
            && r.schedule == id && r.zone == z && r.zoneMins == ZoneMinutes(s, d, adj, z, now)
            && r.startZone == now.Millis() == r.startSched && Used(r.log) == 0
            && r.quick == s.quick
            && r.log == s.log + [Begin(id, now.ms)]
                        + Opening(Plan(s.cfg, id, d, adj, r.startSched), z, r.zoneMins, now.ms)
  {
    hide RouteOf, Accepts, ZoneMinutes, TurnOn, Used, Opening;
    var z := FirstFrom(d, 0, s.cfg.numZones);
    var mins := ZoneMinutes(s, d, adj, z, now);
    Append(s.log, Begin(id, now.ms));
    OpeningAppended(s.(schedule := id, startSched := now.Millis(), zone := z, startZone := now.Millis(),
                       zoneMins := mins, log := s.log + [Begin(id, now.ms)]), z, mins,
                    Plan(s.cfg, id, d, adj, now.Millis()), now);
  }

  /** The state in which an opened schedule begins, and the events of opening it. */
  lemma Opened1(s: State, id: int, d: seq<u8>, adj: bool, now: Moment)
    requires Startable(s, id, d, adj)
    ensures var z := FirstFrom(d, 0, s.cfg.numZones);
            var r := Open(s, id, d, adj, now);
            var pl := PlanOf(r);
            && InZone(r, now.ms, now.ms) && r.zone == z && Used(r.log) == 0
            && r.zoneMins == PlanMinutes(Plan(s.cfg, id, d, adj, now.Millis()), z, now)
            && pl == Plan(s.cfg, id, d, adj, now.Millis())
            && r.log == s.log + [Begin(id, now.ms)] + Opening(pl, z, r.zoneMins, now.ms)
  {
    hide Open, Idle, Inv, Used, Opening;
    OpenKeeps(s, id, d, adj, now);
    OpenLog(s, id, d, adj, now);
  }

  /** What an undisturbed schedule with plan `pl`, opened at one of the moments `seen`,
      adds to the log: it opens exactly the watered zones, in ascending order, once
      each, each with the minutes the plan gives it at that moment; keeps it open for
      at least these and closes it at the first poll after; leaves at least 5000 ms
      until the next, which it opens at the first poll after. At any earlier point
      this is a prefix of that. It is over exactly when the schedule's one record was
      written, with the sum of its zone records. Every zone that is closed has a record
      with the minutes it was open and its water. */
  ghost predicate Fulfilled(pl: Plan, seen: seq<Moment>, added: seq<Event>, over: bool)
    requires |pl.d| == MAX_ZONES
  {
    var due := Watered(pl, 0);
    var x := Read(EMPTY, added);
    && Kept(EMPTY, x, due, due) && (over <==> x.records != [])
    && (forall e | e in added :: Planned(pl, seen, e))
    && seen != [] && Prompt(pl, seen[0].ms, Times(seen), Fresh, added)
    && Recorded(pl, added)
    && added != [] && added[0] == Begin(pl.id, seen[0].ms) && forall i | 1 <= i < |added| :: !added[i].Begin?
  }

  lemma OpenedPolls(s: State, id: int, d: seq<u8>, adj: bool, now: Moment, ps: seq<Moment>)
    requires Startable(s, id, d, adj)
    requires Steady(now.ms, ps, MAX_GAP)
    ensures var r := RunToIdle(Open(s, id, d, adj, now), ps);
            && s.log <= r.log
            && Fulfilled(Plan(s.cfg, id, d, adj, now.Millis()), [now] + ps, r.log[|s.log|..], r.schedule == NO_SCHEDULE)
  {
    hide Open, InZone, Used, PlanOf, Opening, FromZone, Watered, Own, Kept, Read, Note, RunningAt, RunToIdle, Minutes,
         Idle, Finished, Planned, PlanMinutes, Prompt, Ahead, PaceIn,
         Times;
    var z := FirstFrom(d, 0, s.cfg.numZones);
    var s1 := Open(s, id, d, adj, now);
    var pl := PlanOf(s1);
    Opened1(s, id, d, adj, now);
    ZoneRefines(s1, now.ms, now.ms, ps);
    var b, o := [Begin(id, now.ms)], Opening(pl, z, s1.zoneMins, now.ms);
    var t := FromZone(pl, z, now.ms, s1.zoneMins, 0, ps);
    var r := RunToIdle(s1, ps);
    Grouped(s.log, b, o, t);
    BeginRead(id, now.ms);
    ReadConcat(EMPTY, b, o);
    ReadConcat(EMPTY, b + o, t);
    FreshOpeningRead(pl, z, s1.zoneMins, now.ms);
    var r1 := Read(EMPTY, o);
    ZonePromise(pl, z, now.ms, s1.zoneMins, ps, r1);
    var own, rest := Own(pl, z), Watered(pl, z + 1);
    KeptChain(EMPTY, r1, Read(r1, t), own, [], rest, own + rest);
    WateredSkips(pl, 0);
    assert [] + (own + rest) == own + rest;
    BeginPlanned(pl, [now] + ps, id, now.ms);
    OpeningPlanned(pl, z, now, [now] + ps);
    ZonePlanned(pl, z, now.ms, s1.zoneMins, 0, ps, [now] + ps);
    SteadyIsSorted(now.ms, ps, MAX_GAP);
    AllAhead(now, ps);
    var times := Times([now] + ps);
    FreshOpeningPrompt(pl, now.ms, times, z, s1.zoneMins, id);
    ZonePrompt(pl, now.ms, times, PacedAll(Fresh, b + o), z, now.ms, s1.zoneMins, 0, ps);
    PromptConcat(pl, now.ms, times, Fresh, b + o, t);
    BeginRecorded(pl, now.ms);
    OpeningRecorded(pl, b, z, s1.zoneMins, now.ms);
    ZoneRecorded(pl, b + o, z, now.ms, s1.zoneMins, 0, ps);
  }

  lemma Grouped(a: seq<Event>, b: seq<Event>, c: seq<Event>, d: seq<Event>)
    ensures a + (b + c + d) == a + b + c + d && (a + (b + c + d))[|a|..] == b + c + d
  {}

  lemma BeginRecorded(pl: Plan, ms: nat)
    ensures Recorded(pl, [Begin(pl.id, ms)])
  {}

  lemma AllAhead(now: Moment, ps: seq<Moment>)
    requires Sorted(ps) && forall i | 0 <= i < |ps| :: now.ms <= ps[i].ms
    ensures Ahead(Times([now] + ps), now.ms, ps)
  {}

  lemma FreshOpeningPrompt(pl: Plan, start: nat, seen: set<nat>, z: nat, mins: u8, id: int)
    requires |pl.d| == MAX_ZONES && z < MAX_ZONES && pl.d[z] != 0
    ensures var es := [Begin(id, start)] + Opening(pl, z, mins, start);
            Prompt(pl, start, seen, Fresh, es) && PaceIn(pl, PacedAll(Fresh, es), z, start, mins)
  {
    hide Accepts, RouteOf;
    var b, o := [Begin(id, start)], Opening(pl, z, mins, start);
    PromptConcat(pl, start, seen, Fresh, b, o);
    PromptOne(pl, start, seen, Fresh, b[0]);
    assert (b + o)[1..] == o;
    if o != [] { PromptOne(pl, start, seen, Fresh, o[0]); }
  }

  lemma BeginPlanned(pl: Plan, seen: seq<Moment>, id: int, ms: nat)
    requires |pl.d| == MAX_ZONES && id == pl.id
    ensures Planned(pl, seen, Begin(id, ms))
  {}

  lemma BeginRead(id: int, ms: nat)
    ensures Read(EMPTY, [Begin(id, ms)]) == EMPTY
  {
    ReadOne(EMPTY, Begin(id, ms));
  }

  lemma FreshOpeningRead(pl: Plan, z: nat, mins: u8, ms: nat)
    ensures var x := Read(EMPTY, Opening(pl, z, mins, ms));
            x.ons == EMPTY.ons + Own(pl, z) && x.offs == [] && x.water == 0 && RunningAt(pl, x, z, ms, mins)
  {
    hide RouteOf, Accepts;
    if Opening(pl, z, mins, ms) != [] { ReadOne(EMPTY, Opening(pl, z, mins, ms)[0]); }
  }

  // ----- it ends -----

  function LastMs(prev: nat, ps: seq<Moment>): nat
  {
    if ps == [] then prev else ps[|ps| - 1].ms
  }

  lemma LastTail(prev: nat, ps: seq<Moment>)
    requires ps != []
    ensures LastMs(prev, ps) == LastMs(ps[0].ms, ps[1..])
  {}

  /** Enough time for the delays and zones from zone `z` on, polled every `gap` ms. */
  function Budget(n: nat, z: nat, gap: nat): nat
    decreases n - z
  {
    if z >= n then 0
    else DELAY_BETWEEN_ZONES + gap + 255 * 60000 + gap + Budget(n, z + 1, gap)
  }

  lemma {:induction false} BudgetFalls(n: nat, a: nat, b: nat, gap: nat)
    requires a <= b
    ensures Budget(n, b, gap) <= Budget(n, a, gap)
    decreases b - a
  {
    if a < b { BudgetFalls(n, a + 1, b, gap); }
  }

  /** Polls at which the current zone changed, until the schedule was over. */
  function Changes(s: State, ps: seq<Moment>): nat
    decreases |ps|
  {
    if ps == [] || s.schedule == NO_SCHEDULE then 0
    else (if Poll(s, ps[0]).zone == s.zone then 0 else 1) + Changes(Poll(s, ps[0]), ps[1..])
  }

  /** From the middle of a zone, a schedule that is polled long enough is over, and
      it gets there in at most two state changes per remaining zone, less one. */
  lemma {:induction false} ZoneEnds(s: State, since: nat, prev: nat, ps: seq<Moment>, gap: nat)
    requires InZone(s, since, prev) && gap <= MAX_GAP && Steady(prev, ps, gap)
    ensures LastMs(prev, ps) > since + s.zoneMins * 60000 + gap + Budget(s.cfg.numZones, s.zone + 1, gap) ==>
              RunToIdle(s, ps).schedule == NO_SCHEDULE
    ensures s.zone < s.cfg.numZones && Changes(s, ps) <= 2 * (s.cfg.numZones - s.zone) - 1
    decreases |ps|
  {
    hide Poll, AfterZone, WaterOf, Minutes, Used, Durations, Adjusted, Int16, Valves, WaterExact, WaterBounded,
         Budget, EndOfZone;
    if ps != [] {
      var p := ps[0];
      LastTail(prev, ps);
      ZonePoll(s, since, prev, p);
      var s1 := Poll(s, p);
      if p.ms < since + s.zoneMins * 60000 {
        ZoneEnds(s, since, p.ms, ps[1..], gap);
      } else {
        ZoneEnd(s, p);
        if s1.schedule == NO_SCHEDULE {
          assert RunToIdle(s1, ps[1..]) == s1 && Changes(s1, ps[1..]) == 0;
        } else {
          BudgetFalls(s.cfg.numZones, s.zone + 1, s1.nextZone, gap);
          GapEnds(s1, p.ms, p.ms, ps[1..], gap);
        }
      }
    }
  }

  lemma {:induction false} GapEnds(s: State, since: nat, prev: nat, ps: seq<Moment>, gap: nat)
    requires InGap(s, since, prev) && gap <= MAX_GAP && Steady(prev, ps, gap)
    ensures 0 <= s.nextZone < s.cfg.numZones
    ensures LastMs(prev, ps) > since + Budget(s.cfg.numZones, s.nextZone, gap) ==>
              RunToIdle(s, ps).schedule == NO_SCHEDULE
    ensures Changes(s, ps) <= 2 * (s.cfg.numZones - s.nextZone)
    decreases |ps|
  {
    hide Poll, AfterDelay, Used, Durations, Adjusted, Valves, WaterExact, WaterBounded, Opening, PlanOf;
    if ps != [] {
      var p := ps[0];
      LastTail(prev, ps);
      GapPoll(s, since, prev, p);
      var s1 := Poll(s, p);
      if p.ms < since + DELAY_BETWEEN_ZONES {
        GapEnds(s, since, p.ms, ps[1..], gap);
      } else {
        GapEnd(s, p);
        ZoneEnds(s1, p.ms, p.ms, ps[1..], gap);
      }
    }
  }
}
