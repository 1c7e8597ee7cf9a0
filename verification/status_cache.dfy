/** How long the cache believes in a command that nobody confirms. */
module StatusCache {
  import opened Words
  import opened Site
  import opened Scheduler
  import opened SchedulerInvariant
  import opened Runs

  function Ticks(s: State, n: nat): (r: State)
    ensures Onward(s, r)
  {
    if n == 0 then s else Tick(Ticks(s, n - 1))
  }

  /** A cell `n` seconds later. */
  function Later(x: u8, n: nat): u8
    requires GoodCell(x)
  {
    if x == ZONE_STATE_OFF || x == ZONE_STATE_RUNNING then x else if n < x % 16 then x - n else ZONE_STATE_OFF
  }

  lemma LaterTick(x: u8, n: nat)
    requires GoodCell(x)
    ensures TickCell(Later(x, n)) == Later(x, n + 1)
  {
    if ZONE_STATE_STARTING < x <= ZONE_STATE_STARTING + ZONE_STATE_TIMEOUT {
      assert x % 16 == x - 16;
    } else if ZONE_STATE_STOPPING < x <= ZONE_STATE_STOPPING + ZONE_STATE_TIMEOUT {
      assert x % 16 == x - 32;
    }
  }

  /** A zone in transition keeps its state for as many seconds as its timer says and
      is then OFF; a settled one stays as it is. */
  lemma {:induction false} CellAfterTicks(s: State, z: nat, n: nat)
    requires z < s.cfg.numZones && GoodCell(s.cache[z])
    ensures Ticks(s, n).cache[z] == Later(s.cache[z], n)
  {
    hide TickCell, GoodCell;
    if n > 0 {
      CellAfterTicks(s, z, n - 1);
      LaterTick(s.cache[z], n - 1);
    } else {
      LaterNow(s.cache[z]);
    }
  }

  lemma LaterNow(x: u8)
    requires GoodCell(x)
    ensures Later(x, 0) == x
  {}

  /** Five seconds without a report leave no zone in transition, and an unconfirmed
      remote zone counts as OFF. */
  lemma Settles(s: State, z: nat, n: nat)
    requires Inv(s) && z < s.cfg.numZones && n >= ZONE_STATE_TIMEOUT
    ensures Ticks(s, n).cache[z] == if s.cache[z] == ZONE_STATE_RUNNING then ZONE_STATE_RUNNING else ZONE_STATE_OFF
  {
    CellAfterTicks(s, z, n);
    assert GoodCell(s.cache[z]);
  }

  /** A zone is always seen in one of four states, and one that does not exist as OFF. */
  lemma FourStates(s: State, z: nat)
    requires Inv(s)
    ensures ZoneState(s, z) in {ZONE_STATE_OFF, ZONE_STATE_STARTING, ZONE_STATE_STOPPING, ZONE_STATE_RUNNING}
    ensures z >= s.cfg.numZones ==> ZoneState(s, z) == ZONE_STATE_OFF
  {
    if z < s.cfg.numZones { assert GoodCell(s.cache[z]); }
  }

  /** Once a second the cells are worked on. */
  lemma {:induction false} SecondsPass(s: State, xs: seq<Timed>)
    requires forall i | 0 <= i < |xs| :: xs[i].input == Second
    ensures Run(s, xs) == Ticks(s, |xs|)
    decreases |xs|
  {
    hide Tick;
    if xs != [] {
      SecondsPass(Step(s, xs[0].input, xs[0].now), xs[1..]);
      TicksFirst(s, |xs| - 1);
    }
  }

  lemma {:induction false} TicksFirst(s: State, n: nat)
    ensures Ticks(Tick(s), n) == Ticks(s, n + 1)
  {
    hide Tick;
    if n > 0 { TicksFirst(s, n - 1); }
  }

  /** A command to a remote zone that nobody confirms shows as STARTING or STOPPING
      for five seconds and as OFF from then on. */
  lemma CommandFades(s: State, z: nat, mins: u8, now: Moment, n: nat)
    requires z < s.cfg.numZones && RouteOf(s.cfg, z).Remote? && Accepts(s.cfg, RouteOf(s.cfg, z))
    ensures ZoneState(Ticks(TurnOn(s, z, mins, now), n), z) ==
            if n < ZONE_STATE_TIMEOUT then ZONE_STATE_STARTING else ZONE_STATE_OFF
    ensures ZoneState(Ticks(TurnOff(s, z, now), n), z) ==
            if n < ZONE_STATE_TIMEOUT then ZONE_STATE_STOPPING else ZONE_STATE_OFF
  {
    hide Ticks, RouteOf, Accepts;
    CellAfterTicks(TurnOn(s, z, mins, now), z, n);
    CellAfterTicks(TurnOff(s, z, now), z, n);
    assert Ticks(TurnOn(s, z, mins, now), n).cfg == s.cfg == Ticks(TurnOff(s, z, now), n).cfg;
  }
}
