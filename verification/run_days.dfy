/** On which days a stored schedule runs. */
module RunDays {
  import opened Words
  import opened Site
  import opened NextEvent

  /** One weekday box of the schedule form; Sunday is day 1. */
  datatype Mark = Mark(day: Weekday, on: bool)

  /** The last mark of weekday `w` says on. */
  predicate LastMarkedOn(marks: seq<Mark>, w: Weekday)
  {
    exists i :: 0 <= i < |marks| && marks[i] == Mark(w, true) && forall k | i < k < |marks| :: marks[k].day != w
  }

  /** The bit of weekday `w`. */
  predicate Shows(mask: u8, w: Weekday) { Bit(mask, w - 1) }

  lemma LastMark(marks: seq<Mark>, m: Mark, w: Weekday)
    ensures LastMarkedOn(marks + [m], w) <==> if m.day == w then m.on else LastMarkedOn(marks, w)
  {
    var ms := marks + [m];
    if m.day == w && m.on {
      assert ms[|marks|] == Mark(w, true);
    }
    if m.day != w && LastMarkedOn(marks, w) {
      var i :| 0 <= i < |marks| && marks[i] == Mark(w, true) && forall k | i < k < |marks| :: marks[k].day != w;
      assert ms[i] == Mark(w, true);
    }
    if LastMarkedOn(ms, w) {
      var i :| 0 <= i < |ms| && ms[i] == Mark(w, true) && forall k | i < k < |ms| :: ms[k].day != w;
      if i < |marks| {
        assert ms[|marks|] == m;
        assert forall k | i < k < |marks| :: ms[k] == marks[k];
      }
    }
  }

  /** The mask that a form's weekday boxes leave in a schedule by weekdays: such a
      schedule, while enabled, runs exactly on the weekdays last marked on. */
  method ReadMarks(marks: seq<Mark>) returns (mask: u8)
    ensures forall s: Schedule, now: Moment | !s.interval && s.day == mask ::
              RunsToday(s, now) <==> s.enabled && LastMarkedOn(marks, now.weekday)
  {
    mask := 0;
    forall w: Weekday ensures !Shows(0, w) { ZeroHasNoBits(w - 1); }
    var i := 0;
    while i < |marks|
      invariant 0 <= i <= |marks|
      invariant forall w: Weekday :: Shows(mask, w) <==> LastMarkedOn(marks[..i], w)
    {
      ghost var before := mask;
      var m := marks[i];
      mask := if m.on then SetBit8(mask, m.day - 1) else ClearBit8(mask, m.day - 1);
      assert marks[..i + 1] == marks[..i] + [m];
      forall w: Weekday ensures Shows(mask, w) <==> LastMarkedOn(marks[..i + 1], w) {
        LastMark(marks[..i], m, w);
        SetBitReads(before, m.day - 1, w - 1);
        ClearBitReads(before, m.day - 1, w - 1);
      }
      i := i + 1;
    }
    assert marks[..|marks|] == marks;
  }

  /** A schedule by an interval of n days, while enabled, runs on exactly one of any n
      days in a row, the one whose number n divides. */
  lemma OncePerInterval(s: Schedule, now: Moment) returns (k: nat, q: nat)
    requires s.interval && s.enabled
    ensures k < s.day && now.days + k == q * s.day
    ensures forall j | 0 <= j < s.day :: DayRuns(s, now, j) <==> j == k
  {
    hide RunsToday, DayRuns;
    var n := s.day as nat;
    var r := now.days % n;
    k := if r == 0 then 0 else n - r;
    q := now.days / n + (if r == 0 then 0 else 1);
    assert now.days == now.days / n * n + r;
    Distribute(now.days / n, n);
    forall j | 0 <= j < n ensures DayRuns(s, now, j) <==> j == k {
      DayRunsIf(s, now, j);
      Later(now.days, now.days / n, n, r, j);
    }
  }

  lemma Later(d: nat, q: nat, n: nat, r: nat, j: nat)
    requires d == q * n + r && r < n && j < n
    ensures (d + j) % n == if r + j < n then r + j else r + j - n
  {
    Distribute(q, n);
    if r + j < n { Remainder(q, n, r + j); } else { Remainder(q + 1, n, r + j - n); }
  }

  lemma Distribute(q: int, n: int)
    ensures (q + 1) * n == q * n + n
  {}

  lemma NotBetween(k: int, n: int)
    requires n > 0
    ensures k >= 1 ==> k * n >= n
    ensures k <= -1 ==> k * n <= -n
  {
    if k >= 1 { assert (k - 1) * n >= 0; }
    if k <= -1 { assert (-1 - k) * n >= 0; }
  }

  lemma SameRemainder(p: int, q: int, n: nat, a: nat, b: nat)
    requires p * n + a == q * n + b && a < n && b < n
    ensures a == b
  {
    NotBetween(p - q, n);
  }

  lemma Remainder(q: nat, n: nat, r: nat)
    requires r < n
    ensures (q * n + r) % n == r
  {
    var x := q * n + r;
    SameRemainder(x / n, q, n, x % n, r);
  }

  lemma DayRunsIf(s: Schedule, now: Moment, k: nat)
    requires s.interval && s.enabled
    ensures DayRuns(s, now, k) <==> (now.days + k) % s.day == 0
  {}

  /** The schedule runs `k` days after `now`. */
  predicate DayRuns(s: Schedule, now: Moment, k: nat)
  {
    RunsToday(s, now.(days := now.days + k))
  }

  /** A disabled schedule runs on no day. */
  lemma DisabledNeverRuns(s: Schedule, now: Moment)
    requires !s.enabled
    ensures !RunsToday(s, now)
  {}
}
