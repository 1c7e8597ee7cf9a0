/** The search for the next automatic start over all stored schedules. */
module NextEvent {
  import opened Words
  import opened Site

  datatype Event = None | Some(sched: nat, zone: nat, time: int)

  /** Larger than any start time that is ever considered. */
  const BOGUS_TIME: int := 32000

  predicate RunsToday(s: Schedule, now: Moment)
  {
    s.enabled && (if s.interval then now.days % s.day == 0 else Bit(s.day, now.weekday - 1))
  }

  /** Start slot `j` of schedule `i` may fire at or after minute `from`. */
  predicate Candidate(table: seq<Schedule>, now: Moment, from: int, i: nat, j: nat)
    requires i < |table| && j < 4
  {
    && RunsToday(table[i], now)
    && table[i].time[j] != -1
    && from <= table[i].time[j] < BOGUS_TIME
    && FirstFrom(table[i].duration, 0, MAX_ZONES) >= 0
  }

  /** Said without a search: the schedule runs today, the slot is used and not past,
      and some zone has a duration. */
  lemma CandidateMeans(table: seq<Schedule>, now: Moment, from: int, i: nat, j: nat)
    requires i < |table| && j < 4
    ensures Candidate(table, now, from, i, j) <==>
            && RunsToday(table[i], now)
            && table[i].time[j] != -1 && from <= table[i].time[j] && table[i].time[j] < 32000
            && exists z :: 0 <= z < MAX_ZONES && table[i].duration[z] != 0
  {}

  function BestTime(e: Event): int { if e.Some? then e.time else BOGUS_TIME }

  /** Slot (a, b) comes before slot (i, j) in table order, four slots a schedule. */
  predicate Before(a: nat, b: nat, i: nat, j: nat)
  {
    b < 4 && (a < i || (a == i && b < j))
  }

  /** The best of all start slots before (i, j). */
  function Scan(table: seq<Schedule>, now: Moment, from: int, i: nat, j: nat): (e: Event)
    requires i <= |table| && j <= 4 && (j > 0 ==> i < |table|)
    ensures BestTime(e) <= BOGUS_TIME
    decreases i, j
  {
    if j > 0 then
      var best := Scan(table, now, from, i, j - 1);
      if Candidate(table, now, from, i, j - 1) && table[i].time[j - 1] < BestTime(best) then
        Some(i, FirstFrom(table[i].duration, 0, MAX_ZONES), table[i].time[j - 1])
      else best
    else if i > 0 then Scan(table, now, from, i - 1, 4)
    else None
  }

  function Next(table: seq<Schedule>, now: Moment, from: int): Event
  {
    Scan(table, now, from, |table|, 0)
  }

  /** What a correct answer over the slots before (i, j) is, said without a search
      order: the minimum candidate time, the lowest schedule that attains it, and
      that schedule's first watered zone. */
  ghost predicate Correct(table: seq<Schedule>, now: Moment, from: int, e: Event, i: nat, j: nat)
    requires i <= |table| && j <= 4 && (j > 0 ==> i < |table|)
  {
    match e
    case None => forall a: nat, b: nat | Before(a, b, i, j) :: !Candidate(table, now, from, a, b)
    case Some(s, z, t) =>
      && s < |table|
      && (exists b: nat :: Before(s, b, i, j) && Candidate(table, now, from, s, b) && table[s].time[b] == t)
      && (forall a: nat, b: nat | Before(a, b, i, j) && Candidate(table, now, from, a, b) ::
            t <= table[a].time[b] && (table[a].time[b] == t ==> s <= a))
      && z < MAX_ZONES && table[s].duration[z] != 0 && (forall y | 0 <= y < z :: table[s].duration[y] == 0)
  }

  /** Slot (i, j) is looked at after `best` was found over the slots before it. */
  lemma SlotKeepsCorrect(table: seq<Schedule>, now: Moment, from: int, best: Event, i: nat, j: nat)
    requires i < |table| && j < 4 && Correct(table, now, from, best, i, j) && BestTime(best) <= BOGUS_TIME
    ensures var e := if Candidate(table, now, from, i, j) && table[i].time[j] < BestTime(best) then
                       Some(i, FirstFrom(table[i].duration, 0, MAX_ZONES), table[i].time[j])
                     else best;
            Correct(table, now, from, e, i, j + 1)
  {
    hide RunsToday, FirstFrom;
    assert Before(i, j, i, j + 1);
    assert forall a: nat, b: nat :: Before(a, b, i, j + 1) <==> Before(a, b, i, j) || (a == i && b == j);
  }

  /** After the last slot of a schedule comes the first of the next. */
  lemma NextSchedule(table: seq<Schedule>, now: Moment, from: int, e: Event, i: nat)
    requires i < |table| && Correct(table, now, from, e, i, 4)
    ensures Correct(table, now, from, e, i + 1, 0)
  {
    hide Candidate;
    assert forall a: nat, b: nat :: Before(a, b, i + 1, 0) <==> Before(a, b, i, 4);
  }

  lemma {:induction false} ScanIsCorrect(table: seq<Schedule>, now: Moment, from: int, i: nat, j: nat)
    requires i <= |table| && j <= 4 && (j > 0 ==> i < |table|)
    ensures Correct(table, now, from, Scan(table, now, from, i, j), i, j)
    decreases i, j
  {
    hide Correct, Candidate, FirstFrom, BestTime;
    if j > 0 {
      ScanIsCorrect(table, now, from, i, j - 1);
      SlotKeepsCorrect(table, now, from, Scan(table, now, from, i, j - 1), i, j - 1);
    } else if i > 0 {
      ScanIsCorrect(table, now, from, i - 1, 4);
      NextSchedule(table, now, from, Scan(table, now, from, i - 1, 4), i - 1);
    } else {
      NothingScanned(table, now, from);
    }
  }

  lemma NothingScanned(table: seq<Schedule>, now: Moment, from: int)
    ensures Correct(table, now, from, None, 0, 0)
  {}

  /** The answer is right for every table and every moment; it is None exactly
      when no start slot qualifies. */
  lemma NextIsMinimum(table: seq<Schedule>, now: Moment, from: int)
    ensures Correct(table, now, from, Next(table, now, from), |table|, 0)
    ensures Next(table, now, from).Some? <==>
            exists i: nat, j: nat :: Before(i, j, |table|, 0) && Candidate(table, now, from, i, j)
  {
    ScanIsCorrect(table, now, from, |table|, 0);
  }

  /** The nested loops of the firmware. `table` holds the schedules in use. */
  method Search(table: seq<Schedule>, now: Moment, from: int) returns (e: Event)
    ensures e == Next(table, now, from)
  {
    e := None;
    var i := 0;
    while i < |table|
      invariant 0 <= i <= |table|
      invariant e == Scan(table, now, from, i, 0)
    {
      if RunsToday(table[i], now) {
        var j := 0;
        while j < 4
          invariant 0 <= j <= 4
          invariant e == Scan(table, now, from, i, j)
        {
          var start := table[i].time[j];
          if start != -1 && start < BestTime(e) && start >= from {
            var z := 0;
            while z < MAX_ZONES && table[i].duration[z] == 0
              invariant 0 <= z <= MAX_ZONES
              invariant FirstFrom(table[i].duration, 0, MAX_ZONES) == FirstFrom(table[i].duration, z, MAX_ZONES)
            {
              z := z + 1;
            }
            if z < MAX_ZONES { e := Some(i, z, start); }
          }
          j := j + 1;
        }
      } else {
        SkipSchedule(table, now, from, i);
      }
      i := i + 1;
    }
  }

  lemma SkipSchedule(table: seq<Schedule>, now: Moment, from: int, i: nat)
    requires i < |table| && !RunsToday(table[i], now)
    ensures Scan(table, now, from, i + 1, 0) == Scan(table, now, from, i, 0)
  {
    assert Scan(table, now, from, i, 1) == Scan(table, now, from, i, 0);
    assert Scan(table, now, from, i, 2) == Scan(table, now, from, i, 1);
    assert Scan(table, now, from, i, 3) == Scan(table, now, from, i, 2);
    assert Scan(table, now, from, i, 4) == Scan(table, now, from, i, 3);
  }
}
