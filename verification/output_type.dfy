/** A settings request that changes the output type: the boards are set up again
    while the cache and the schedule carry on. */
module OutputType {
  import opened Words
  import opened Site
  import opened Scheduler
  import opened SchedulerInvariant

  /** The output types named in one request, in order. */
  function SetOutputTypes(s: State, types: seq<u8>, now: Moment): State
    decreases |types|
  {
    if types == [] then s else SetOutputTypes(SetOutputType(s, types[0], now), types[1..], now)
  }

  /** Every output that the set-ups leave energised can still be commanded; and if no
      stop follows, because schedules are switched off, none was driven off. */
  predicate SettingsSafe(s: State, types: seq<u8>, now: Moment)
  {
    var r := SetOutputTypes(s, types, now);
    (forall o | o in r.outputs :: Accepts(r.cfg, o)) && (s.running || r.outputs == s.outputs)
  }

  /** What setting up the boards can change. */
  ghost predicate SetUp(s: State, r: State)
  {
    && r == s.(cfg := s.cfg.(boards := r.cfg.boards), outputs := r.outputs, log := r.log)
    && r.outputs <= s.outputs && s.log <= r.log && (r.outputs == s.outputs ==> r.log == s.log)
    && (s.outputs == Energised(s.log) ==> r.outputs == Energised(r.log))
    && (Interlocked(r.log) <==> Interlocked(s.log))
    && Used(r.log) == Used(s.log) && (Honest(r.log) <==> Honest(s.log)) && LastOn(r.log) == LastOn(s.log)
  }

  /** Outputs gone between two states were driven off by a set-up logged at `ms`. */
  ghost predicate Driven(s: State, r: State, ms: nat)
  {
    forall o | o in s.outputs && o !in r.outputs ::
      exists k :: |s.log| <= k < |r.log| && r.log[k].Reset? && o in r.log[k].off && r.log[k].ms == ms
  }

  lemma {:induction false} AllDriven(s: State, types: seq<u8>, now: Moment)
    ensures Driven(s, SetOutputTypes(s, types, now), now.ms)
    decreases |types|
  {
    if types != [] {
      var s1 := SetOutputType(s, types[0], now);
      hide SetOutputType;
      var r := SetOutputTypes(s1, types[1..], now);
      OneDriven(s, types[0], now);
      AllDriven(s1, types[1..], now);
      OneSetUp(s, types[0], now);
      AllSetUp(s1, types[1..], now);
      hide SetOutputTypes;
      forall o | o in s.outputs && o !in r.outputs
        ensures exists k :: |s.log| <= k < |r.log| && r.log[k].Reset? && o in r.log[k].off && r.log[k].ms == now.ms
      {
        if o !in s1.outputs {
          var k :| |s.log| <= k < |s1.log| && s1.log[k].Reset? && o in s1.log[k].off && s1.log[k].ms == now.ms;
          assert r.log[k] == s1.log[k];
        }
      }
    }
  }

  lemma OneDriven(s: State, ot: u8, now: Moment)
    ensures Driven(s, SetOutputType(s, ot, now), now.ms)
  {
    var r := SetOutputType(s, ot, now);
    if r.log != s.log { assert r.log[|s.log|].Reset?; }
  }

  lemma OneSetUp(s: State, ot: u8, now: Moment)
    ensures SetUp(s, SetOutputType(s, ot, now))
  {
    var off := set r | r in s.outputs && ResetBy(s.cfg.boards, ot, r);
    Append(s.log, Reset(off, now.ms));
  }

  lemma {:induction false} AllSetUp(s: State, types: seq<u8>, now: Moment)
    ensures SetUp(s, SetOutputTypes(s, types, now))
    decreases |types|
  {
    hide SetOutputType;
    if types != [] {
      OneSetUp(s, types[0], now);
      AllSetUp(SetOutputType(s, types[0], now), types[1..], now);
    } else {
      NothingSetUp(s);
    }
  }

  lemma NothingSetUp(s: State)
    ensures SetUp(s, s)
  {}

  /** A new type sets up both boards: a board with channels is then ready, all its serial
      channels are off, and under a direct type all its parallel ones; everything else
      stays as it was. The old type again changes nothing. */
  lemma SetUpExactly(s: State, ot: u8, now: Moment, o: Route)
    ensures var r := SetOutputType(s, ot, now);
            var b, c := s.cfg.boards, r.cfg.boards;
            if ot == b.outputType then r == s
            else
              && c.outputType == ot && c.serialChannels == b.serialChannels && c.parallelChannels == b.parallelChannels
              && (c.serialReady <==> b.serialReady || b.serialChannels > 0)
              && (c.parallelReady <==> b.parallelReady || b.parallelChannels > 0)
              && (o in r.outputs <==>
                  && o in s.outputs && !(o.Serial? && o.chan < b.serialChannels)
                  && !(o.Parallel? && o.chan < b.parallelChannels && (ot == 1 || ot == 2)))
  {}

  /** Zones keep their routes. */
  lemma RoutesKeep(s: State, r: State, z: nat)
    requires SetUp(s, r)
    ensures RouteOf(r.cfg, z) == RouteOf(s.cfg, z) && IsLocalZone(r.cfg, z) == IsLocalZone(s.cfg, z)
  {}

  /** After a safe set-up a stop shuts everything. */
  lemma SafeIsClosable(s: State, r: State)
    requires Inv(s) && SetUp(s, r) && forall o | o in r.outputs :: Accepts(r.cfg, o)
    ensures Closable(r) && WaterExact(r) && WaterFits(r) && r.zone < r.cfg.numZones
  {
    forall z: nat ensures RouteOf(r.cfg, z) == RouteOf(s.cfg, z) && IsLocalZone(r.cfg, z) == IsLocalZone(s.cfg, z) {
      RoutesKeep(s, r, z);
    }
    assert r.outputs == {} || r.outputs == s.outputs;
    if r.outputs != {} { assert RouteOf(r.cfg, s.zone) in r.outputs; }
  }

  /** A set-up that drives nothing off keeps the invariant if its output still obeys. */
  lemma SameOutputsKeep(s: State, r: State)
    requires Inv(s) && SetUp(s, r) && r.outputs == s.outputs && forall o | o in r.outputs :: Accepts(r.cfg, o)
    ensures Inv(r)
  {
    forall z: nat ensures RouteOf(r.cfg, z) == RouteOf(s.cfg, z) && IsLocalZone(r.cfg, z) == IsLocalZone(s.cfg, z) {
      RoutesKeep(s, r, z);
    }
  }

  /** Otherwise, with no stop to follow, the cache is wrong about an output. */
  lemma OnlySameOutputsKeep(s: State, r: State)
    requires Inv(s) && SetUp(s, r) && Inv(r)
    ensures r.outputs == s.outputs && forall o | o in r.outputs :: Accepts(r.cfg, o)
  {
    if s.zone >= 0 { RoutesKeep(s, r, s.zone); }
  }

  /** An energised output that does not obey stays energised through the stop and the
      poll that follow new settings. */
  lemma DeafStays(s: State, r: Route, now: Moment)
    requires r in s.outputs && !Accepts(s.cfg, r)
    ensures r in Stop(s, now).outputs && Stop(s, now).cfg == s.cfg && r in Poll(Stop(s, now), now).outputs
  {
    hide RouteOf, Accepts, Minutes, NextStart, ZoneMinutes;
    var t := Stop(s, now);
    assert t.schedule == NO_SCHEDULE;
    hide Stop;
    assert Stop(t, now) == t by { IdleStop(t, now); }
    assert Stop(CheckPause(t, now), now) == CheckPause(t, now) by { IdleStop(CheckPause(t, now), now); }
  }

  lemma IdleStop(s: State, now: Moment)
    requires s.schedule == NO_SCHEDULE
    ensures Stop(s, now) == s
  {}

  lemma DeafIsNotInv(s: State, r: Route)
    requires r in s.outputs && !Accepts(s.cfg, r)
    ensures !Inv(s)
  {}

  /** The common case, one new output type: with schedules on, it must be a direct one
      or no parallel valve be open. With schedules off, no valve may be open that the
      set-up closes or that the new type makes deaf. */
  lemma OneNewType(s: State, ot: u8, now: Moment)
    requires Inv(s) && ot != s.cfg.boards.outputType
    ensures SettingsSafe(s, [ot], now) <==>
            if s.running then Direct(ot) || !(exists r :: r in s.outputs && r.Parallel?)
            else forall r | r in s.outputs :: !ResetBy(s.cfg.boards, ot, r) && (r.Parallel? ==> Direct(ot))
  {
    hide Energised, Interlocked, Used, Honest;
    var t := SetOutputType(s, ot, now);
    assert SetOutputTypes(s, [ot], now) == t by {
      assert [ot][1..] == [] && SetOutputTypes(t, [], now) == t;
    }
    forall r | r in s.outputs
      ensures Accepts(t.cfg, r) <==> (r.Parallel? ==> Direct(ot))
    {
      assert r == RouteOf(s.cfg, s.zone) && Accepts(s.cfg, r);
    }
    if !s.running && t.outputs == s.outputs {
      forall r | r in s.outputs ensures !ResetBy(s.cfg.boards, ot, r) {}
    }
  }
}
