/** The two quantities a schedule computes: adjusted minutes and water. */
module Quantities {
  import opened Words
  import opened Site
  import opened Scheduler

  /** Minutes are scaled and rounded to the nearest whole one, and cut at 254. They
      become 0 exactly if less than half a minute is left. */
  lemma AdjustRounds(mins: u8, seasonal: u8, wu: Scale)
    ensures var exact := mins * (seasonal * wu / 100);
            var a := Adjust(mins, seasonal, wu);
            && (exact < 25450 ==> exact - 50 < 100 * a <= exact + 50)
            && (exact >= 25450 ==> a == 254)
            && (a == 0 <==> exact < 50)
    ensures mins <= 254 ==> Adjust(mins, 100, 100) == mins
  {
    var exact := mins * (seasonal * wu / 100);
    assert exact >= 0;
  }

  /** The whole minutes of a record are the true ones exactly if they are fewer than
      32768, for any start less than one turn of the clock ago. */
  lemma MinutesAreTrue(start: nat, now: Moment)
    requires start <= now.ms < start + TWO32
    ensures Minutes(now, Wrap32(start)) == (now.ms - start) / 60000 <==> (now.ms - start) / 60000 < 0x8000
  {
    hide Elapsed, Wrap32;
    ElapsedIsTrueInterval(start, now.ms);
    assert (now.ms - start) / 60000 < 0x1_0000 + 0x8000;
  }

  lemma Wrap32Times(d: int, f: nat)
    ensures Wrap32(Wrap32(d) * f) == Wrap32(d * f)
  {
    var k := d / TWO32;
    assert d == k * TWO32 + Wrap32(d);
    assert d * f == (k * f) * TWO32 + Wrap32(d) * f;
    WrapShift(Wrap32(d) * f, k * f);
  }

  lemma WrapShift(x: int, k: int)
    ensures Wrap32(x + k * TWO32) == Wrap32(x)
  {}

  lemma Wrap16Of32(x: int)
    ensures Wrap16(Wrap32(x)) == Wrap16(x)
  {}

  /** The water of a zone record is minutes times flow rate exactly if the product is
      a 16-bit number; in every case it is that product modulo 0x1_0000. */
  lemma WaterIsProduct(duration: int, flow: u16)
    ensures WaterOf(duration, flow) == duration * flow <==> 0 <= duration * flow < 0x1_0000
    ensures WaterOf(duration, flow) == Wrap16(duration * flow)
  {
    Wrap32Times(duration, flow);
    Wrap16Of32(duration * flow);
  }
}
