/** The water counters in the store: one for each day of the week, in hundredths of a
    gallon, and the lifetime total, in gallons. */
module WaterLedger {
  import opened Words
  import opened Memory
  import opened Settings

  type Day = d: int | 0 <= d < 7

  datatype LedgerRecord = Ledger(daily: seq<u16>, stamps: seq<u32>, total: u32)

  type Ledger = l: LedgerRecord | |l.daily| == 7 && |l.stamps| == 7
    witness Ledger(seq(7, _ => 0), seq(7, _ => 0), 0)

  /** The calendar: which day a time stamp falls on. */
  type Calendar = u32 -> int

  // ----- the ledger as a value -----

  /** On the first use of a weekday's counter on a new day, its whole gallons go to
      the total and it starts again from 0. */
  function Check(l: Ledger, now: u32, today: Day, cal: Calendar): Ledger
  {
    if cal(now) == cal(l.stamps[today]) then l
    else l.(total := Wrap32(l.total + l.daily[today] / 100),
            stamps := l.stamps[today := now],
            daily := l.daily[today := 0])
  }

  function Charge(l: Ledger, w: u16, now: u32, today: Day, cal: Calendar): Ledger
  {
    var l1 := Check(l, now, today, cal);
    l1.(daily := l1.daily[today := Wrap16(l1.daily[today] + w)])
  }

  function Sum(d: seq<u16>): nat
  {
    if d == [] then 0 else d[0] + Sum(d[1..])
  }

  /** All water on record, in hundredths of a gallon. */
  function Water(l: Ledger): nat { 100 * l.total + Sum(l.daily) }

  /** The part of a gallon a rollover drops. */
  function Dropped(l: Ledger, now: u32, today: Day, cal: Calendar): nat
  {
    if cal(now) == cal(l.stamps[today]) then 0 else l.daily[today] % 100
  }

  /** A use of the counters: water logged, or a counter looked at. */
  datatype Use = Use(water: u16, now: u32, today: Day, logs: bool)

  function Step(l: Ledger, u: Use, cal: Calendar): Ledger
  {
    if u.logs then Charge(l, u.water, u.now, u.today, cal) else Check(l, u.now, u.today, cal)
  }

  /** Neither counter overflows in this step. */
  predicate Fits(l: Ledger, u: Use, cal: Calendar)
  {
    && l.total + (if cal(u.now) == cal(l.stamps[u.today]) then 0 else l.daily[u.today] / 100) < TWO32
    && (u.logs ==> Check(l, u.now, u.today, cal).daily[u.today] + u.water < 0x1_0000)
  }

  lemma {:induction false} SumUpdate(d: seq<u16>, i: nat, v: u16)
    requires i < |d|
    ensures Sum(d[i := v]) == Sum(d) - d[i] + v
  {
    if i > 0 {
      SumUpdate(d[1..], i - 1, v);
      assert d[i := v][1..] == d[1..][i - 1 := v];
    } else {
      assert d[i := v][1..] == d[1..];
    }
  }

  /** One step conserves water, up to what the rollover drops, exactly if neither
      counter overflows; and it never drops a whole gallon. */
  lemma StepConserves(l: Ledger, u: Use, cal: Calendar)
    ensures Dropped(l, u.now, u.today, cal) < 100
    ensures var after := Water(Step(l, u, cal)) + Dropped(l, u.now, u.today, cal);
            var before := Water(l) + (if u.logs then u.water as nat else 0);
            after <= before && (after == before <==> Fits(l, u, cal))
  {
    hide Sum, Check, Dropped;
    CheckConserves(l, u.now, u.today, cal);
    var l1 := Check(l, u.now, u.today, cal);
    if u.logs { SumUpdate(l1.daily, u.today, Wrap16(l1.daily[u.today] + u.water)); }
  }

  lemma CheckConserves(l: Ledger, now: u32, today: Day, cal: Calendar)
    ensures Dropped(l, now, today, cal) < 100
    ensures var whole := l.total + (if cal(now) == cal(l.stamps[today]) then 0 else l.daily[today] / 100);
            var after := Water(Check(l, now, today, cal)) + Dropped(l, now, today, cal);
            after <= Water(l) && (after == Water(l) <==> whole < TWO32)
  {
    hide Sum;
    SumUpdate(l.daily, today, 0);
  }

  function Run(l: Ledger, us: seq<Use>, cal: Calendar): Ledger
    decreases |us|
  {
    if us == [] then l else Run(Step(l, us[0], cal), us[1..], cal)
  }

  function Logged(us: seq<Use>): nat
  {
    if us == [] then 0 else (if us[0].logs then us[0].water as nat else 0) + Logged(us[1..])
  }

  function AllDropped(l: Ledger, us: seq<Use>, cal: Calendar): nat
    decreases |us|
  {
    if us == [] then 0
    else Dropped(l, us[0].now, us[0].today, cal) + AllDropped(Step(l, us[0], cal), us[1..], cal)
  }

  predicate AllFit(l: Ledger, us: seq<Use>, cal: Calendar)
    decreases |us|
  {
    us == [] || (Fits(l, us[0], cal) && AllFit(Step(l, us[0], cal), us[1..], cal))
  }

  /** Over any history of logging and looking, in any calendar: what is on record plus
      what rollovers dropped is all the water ever logged, exactly if no counter ever
      overflowed; otherwise less. */
  lemma {:induction false} RunConserves(l: Ledger, us: seq<Use>, cal: Calendar)
    ensures var after := Water(Run(l, us, cal)) + AllDropped(l, us, cal);
            var before := Water(l) + Logged(us);
            after <= before && (after == before <==> AllFit(l, us, cal))
    decreases |us|
  {
    hide Step, Water, Fits, Dropped;
    if us != [] {
      StepConserves(l, us[0], cal);
      RunConserves(Step(l, us[0], cal), us[1..], cal);
    }
  }

  // ----- once a day -----

  /** The second look of a day finds nothing to roll over. */
  lemma CheckTwice(l: Ledger, now: u32, later: u32, today: Day, cal: Calendar)
    requires cal(now) == cal(later)
    ensures Check(Check(l, now, today, cal), later, today, cal) == Check(l, now, today, cal)
  {}

  /** All uses fall on day `date`, whose weekday is `today`. */
  predicate OneDay(us: seq<Use>, today: Day, date: int, cal: Calendar)
  {
    forall i | 0 <= i < |us| :: us[i].today == today && cal(us[i].now) == date
  }

  /** What the counter of `today` already holds of day `date`. */
  function Held(l: Ledger, today: Day, date: int, cal: Calendar): u16
  {
    if cal(l.stamps[today]) == date then l.daily[today] else 0
  }

  /** Whole gallons of an earlier day, still in the counter of `today`. */
  function Overdue(l: Ledger, today: Day, date: int, cal: Calendar): nat
  {
    if cal(l.stamps[today]) == date then 0 else l.daily[today] / 100
  }

  /** After any uses on one day the counter of that weekday holds all water logged that
      day, modulo its 16 bits, and no other counter has changed; the total has grown once,
      by the whole gallons of the same weekday of an earlier week. */
  lemma {:induction false} DayAddsUp(l: Ledger, us: seq<Use>, today: Day, date: int, cal: Calendar)
    requires us != [] && OneDay(us, today, date, cal)
    ensures var r := Run(l, us, cal);
            && r.daily == l.daily[today := Wrap16(Held(l, today, date, cal) + Logged(us))]
            && r.total == Wrap32(l.total + Overdue(l, today, date, cal))
            && cal(r.stamps[today]) == date && forall d: Day | d != today :: r.stamps[d] == l.stamps[d]
    decreases |us|
  {
    var r := Step(l, us[0], cal);
    UseAddsUp(l, us[0], today, cal);
    if |us| == 1 {
      assert us[1..] == [] && Run(r, [], cal) == r && Logged([]) == 0;
    } else {
      UpToDate(r, today, date, cal);
      hide Step, Held, Overdue, Wrap16, Wrap32;
      DayAddsUp(r, us[1..], today, date, cal);
      WrapTwice(Held(l, today, date, cal) + (if us[0].logs then us[0].water as nat else 0), Logged(us[1..]));
    }
  }

  lemma UpToDate(l: Ledger, today: Day, date: int, cal: Calendar)
    requires cal(l.stamps[today]) == date
    ensures Held(l, today, date, cal) == l.daily[today] && Wrap32(l.total + Overdue(l, today, date, cal)) == l.total
  {}

  lemma UseAddsUp(l: Ledger, u: Use, today: Day, cal: Calendar)
    requires u.today == today
    ensures var r := Step(l, u, cal);
            var date := cal(u.now);
            && r.daily == l.daily[today := Wrap16(Held(l, today, date, cal) + (if u.logs then u.water as nat else 0))]
            && r.total == Wrap32(l.total + Overdue(l, today, date, cal))
            && cal(r.stamps[today]) == date && forall d: Day | d != today :: r.stamps[d] == l.stamps[d]
  {}

  lemma WrapTwice(a: nat, b: nat)
    ensures Wrap16(Wrap16(a) + b) == Wrap16(a + b)
  {}

  // ----- the ledger in the store -----

  function LedgerOf(m: Mem): Ledger
  {
    Ledger(seq(7, i requires 0 <= i < 7 => Word16(Read(m, DayCounter(i)))),
           seq(7, i requires 0 <= i < 7 => Word32(Read(m, DayStamp(i)))),
           Word32(Read(m, Setting(TotalWater))))
  }

  predicate IsLedgerSlot(s: Slot) { s.DayCounter? || s.DayStamp? || s == Setting(TotalWater) }

  lemma SetCounter(m: Mem, d: Day, v: u16)
    ensures var r := Write(m, DayCounter(d), Bytes16(v));
            LedgerOf(r) == LedgerOf(m).(daily := LedgerOf(m).daily[d := v])
            && SameBut(m, r, (t: Slot) => t == DayCounter(d))
  {
    hide Read, Write, Word16, Word32, Bytes16;
    WriteReads(m, DayCounter(d), Bytes16(v));
    WordsRoundTrip(v, 0);
    var r := Write(m, DayCounter(d), Bytes16(v));
    assert LedgerOf(r).daily == LedgerOf(m).daily[d := v];
    assert LedgerOf(r).stamps == LedgerOf(m).stamps;
  }

  lemma SetStamp(m: Mem, d: Day, v: u32)
    ensures var r := Write(m, DayStamp(d), Bytes32(v));
            LedgerOf(r) == LedgerOf(m).(stamps := LedgerOf(m).stamps[d := v])
            && SameBut(m, r, (t: Slot) => t == DayStamp(d))
  {
    hide Read, Write, Word16, Word32, Bytes32;
    WriteReads(m, DayStamp(d), Bytes32(v));
    WordsRoundTrip(0, v);
    var r := Write(m, DayStamp(d), Bytes32(v));
    assert LedgerOf(r).daily == LedgerOf(m).daily;
    assert LedgerOf(r).stamps == LedgerOf(m).stamps[d := v];
  }

  lemma SetTotal(m: Mem, v: u32)
    ensures var r := Write(m, Setting(TotalWater), Bytes32(v));
            LedgerOf(r) == LedgerOf(m).(total := v) && SameBut(m, r, (t: Slot) => t == Setting(TotalWater))
  {
    hide Read, Write, Word16, Word32, Bytes32;
    WriteReads(m, Setting(TotalWater), Bytes32(v));
    WordsRoundTrip(0, v);
    var r := Write(m, Setting(TotalWater), Bytes32(v));
    assert LedgerOf(r).daily == LedgerOf(m).daily;
    assert LedgerOf(r).stamps == LedgerOf(m).stamps;
  }

  lemma RolledOver(m: Mem, total: u32, now: u32, today: Day)
    ensures var r := Write(Write(Write(m, Setting(TotalWater), Bytes32(total)), DayStamp(today), Bytes32(now)),
                           DayCounter(today), Bytes16(0));
            && LedgerOf(r) == LedgerOf(m).(total := total, stamps := LedgerOf(m).stamps[today := now],
                                           daily := LedgerOf(m).daily[today := 0])
            && SameBut(m, r, IsLedgerSlot)
  {
    hide Read, Write, LedgerOf, Bytes16, Bytes32;
    SetTotal(m, total);
    var m1 := Write(m, Setting(TotalWater), Bytes32(total));
    SetStamp(m1, today, now);
    var m2 := Write(m1, DayStamp(today), Bytes32(now));
    SetCounter(m2, today, 0);
  }

  method CheckCounter(store: Store, now: u32, today: Day, cal: Calendar)
    requires store.Valid()
    modifies store.data
    ensures LedgerOf(store.Mem()) == Check(LedgerOf(old(store.Mem())), now, today, cal)
    ensures SameBut(old(store.Mem()), store.Mem(), IsLedgerSlot)
  {
    hide Read, Write, Word16, Word32, Bytes16, Bytes32, SameBut;
    ghost var m0 := store.Mem();
    Unchanged(m0);
    var last := store.LoadBlock(DayStamp(today));
    if cal(now) != cal(Word32(last)) {
      var total := store.LoadBlock(Setting(TotalWater));
      var counter := store.LoadBlock(DayCounter(today));
      var sum := Wrap32(Word32(total) + Word16(counter) / 100);
      store.SaveBlock(Setting(TotalWater), Bytes32(sum));
      store.SaveBlock(DayStamp(today), Bytes32(now));
      store.SaveBlock(DayCounter(today), Bytes16(0));
      RolledOver(m0, sum, now, today);
    }
  }

  lemma Unchanged(m: Mem)
    ensures SameBut(m, m, IsLedgerSlot)
  {}

  /** Reading any day's counter first brings today's up to date. */
  method GetCounter(store: Store, d: nat, now: u32, today: Day, cal: Calendar) returns (v: u16)
    requires store.Valid()
    modifies store.data
    ensures d > 6 ==> v == 0 && store.Mem() == old(store.Mem())
    ensures d <= 6 ==> LedgerOf(store.Mem()) == Check(LedgerOf(old(store.Mem())), now, today, cal)
                       && v == LedgerOf(store.Mem()).daily[d]
    ensures SameBut(old(store.Mem()), store.Mem(), IsLedgerSlot)
  {
    hide Read, Word16, Word32;
    if d > 6 { return 0; }
    CheckCounter(store, now, today, cal);
    var b := store.LoadBlock(DayCounter(d));
    v := Word16(b);
  }

  /** The bookkeeping of a zone record. */
  method LogWater(store: Store, w: u16, now: u32, today: Day, cal: Calendar)
    requires store.Valid()
    modifies store.data
    ensures LedgerOf(store.Mem()) == Charge(LedgerOf(old(store.Mem())), w, now, today, cal)
    ensures SameBut(old(store.Mem()), store.Mem(), IsLedgerSlot)
  {
    hide Read, Write, Word16, Word32, Bytes16;
    var v := GetCounter(store, today, now, today, cal);
    ghost var m := store.Mem();
    SetCounter(m, today, Wrap16(v + w));
    store.SaveBlock(DayCounter(today), Bytes16(Wrap16(v + w)));
  }
}
